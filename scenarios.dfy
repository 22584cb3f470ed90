/** Small worked walks: the exact result `Build` gives on a few shapes of provider. */
module Scenarios {
  import opened Types
  import Vendor
  import Filter
  import Imports
  import Lines
  import Walk

  /** A non-standard-library package with direct imports only and no source files. */
  function Pkg(path: string, imports: seq<string>): BuildPackage {
    BuildPackage(path, path, false, imports, [], [], [], [], [], [])
  }

  /** With no patterns, every package outside the standard library is accepted. */
  lemma NoPatternsAccept(c: Config, pkg: BuildPackage)
    requires c.ignored == [] && c.included == [] && !pkg.goroot
    ensures Filter.IsAccepted(c, pkg)
  {
  }

  /** `Build` is the walk of the roots from fresh dependencies, with the sentinel turned into success. */
  lemma BuildOfWalk(c: Config)
    ensures var w := Walk.AddAll(c, EmptyDependencies(), c.roots);
      Walk.Build(c) == Walk.Built(w.deps, if w.err == Some(Termination) then None else w.err)
  {
  }

  /** Walking a single root. */
  lemma OneRoot(c: Config, d: Dependencies, root: Package, d': Dependencies, name: Package, err: Option<Error>)
    requires Walk.AddPackage(c, d, root) == Walk.Added(d', name, err)
    ensures Walk.AddAll(c, d, [root]) == Walk.Built(d', err)
  {
    Walk.AddAllSteps(c, d, [root]);
  }

  /** The walk over a single child that itself succeeds. */
  lemma OneChild(c: Config, d: Dependencies, parent: Package, child: Package, d': Dependencies, name: Package)
    requires Walk.AddPackage(c, d, child) == Walk.Added(d', name, None)
    ensures Walk.AddImports(c, d, parent, [child]) == Walk.Added(Walk.Link(d', parent, name), parent, None)
  {
    Walk.ImportsStep(c, d, parent, [child]);
  }

  /** `p` is a non-empty path resolving to a package that is accepted, is its own canonical name
      and has the child list `kids`. */
  predicate Shaped(c: Config, p: Package, kids: seq<Package>) {
    && p != "C" && p != "" && p in c.context
    && Vendor.Strip(c.context[p].importPath) == p
    && Filter.IsAccepted(c, c.context[p])
    && Imports.Children(c.context[p], c.includeTests) == kids
  }

  /** A new accepted package without children that meets no condition becomes a leaf node. */
  lemma Leaf(c: Config, d: Dependencies, pkgName: Package)
    requires pkgName != "C" && pkgName in c.context && Filter.IsAccepted(c, c.context[pkgName])
    requires Vendor.Strip(c.context[pkgName].importPath) !in d.forward
    requires !Walk.ConditionMet(c.conditions, Walk.Inserted(c, d, c.context[pkgName]))
    requires Imports.Children(c.context[pkgName], c.includeTests) == []
    ensures Walk.AddPackage(c, d, pkgName)
         == Walk.Added(Walk.Inserted(c, d, c.context[pkgName]), Vendor.Strip(c.context[pkgName].importPath), None)
  {
    Walk.ChildrenBranch(c, d, pkgName);
  }

  /** A graph of one fresh node without edges. */
  lemma FreshNode(a: Package)
    ensures var g := AddNode(map[], a); g.Keys == {a} && g[a] == {}
  {
  }

  /** A graph of two fresh nodes without edges. */
  lemma FreshNodes(a: Package, b: Package)
    ensures var g := AddNode(AddNode(map[], a), b); g.Keys == {a, b} && g[a] == {} && g[b] == {}
  {
  }

  // ---- two packages importing each other ----

  /** The graph after a then b are created and the edges b -> a and a -> b are added. */
  lemma CycleGraph(a: Package, b: Package)
    requires a != b
    ensures var g := InsertEdge(InsertEdge(AddNode(AddNode(map[], a), b), b, a), a, b);
      g.Keys == {a, b} && g[a] == {b} && g[b] == {a}
  {
    var g2 := AddNode(AddNode(map[], a), b);
    assert g2 == map[a := {}, b := {}];
    InsertEdgeAtNode(g2, b, a);
    var g3 := InsertEdge(g2, b, a);
    InsertEdgeAtNode(g3, a, b);
    assert {} + {a} == {a} && {} + {b} == {b};
  }

  /** Inside `b`, the import of `a` finds it already walked and only adds the edge b -> a. */
  lemma CycleInner(c: Config, a: Package, b: Package, d1: Dependencies)
    requires a != b && Shaped(c, a, [b]) && Shaped(c, b, [a]) && c.conditions == []
    requires a in d1.forward && b !in d1.forward
    ensures Walk.AddPackage(c, d1, b) == Walk.Added(Walk.Link(Walk.Inserted(c, d1, c.context[b]), b, a), b, None)
  {
    var d2 := Walk.Inserted(c, d1, c.context[b]);
    Walk.ShortcutCases(c, d2, a);
    OneChild(c, d2, b, a, d2, a);
    Walk.ChildrenBranch(c, d1, b);
  }

  /** The walk from `a` in the cycle a -> b -> a. */
  lemma CycleWalk(c: Config, a: Package, b: Package)
    requires a != b && Shaped(c, a, [b]) && Shaped(c, b, [a]) && c.conditions == []
    ensures var d1 := Walk.Inserted(c, EmptyDependencies(), c.context[a]);
      var d3 := Walk.Link(Walk.Inserted(c, d1, c.context[b]), b, a);
      Walk.AddPackage(c, EmptyDependencies(), a) == Walk.Added(Walk.Link(d3, a, b), a, None)
  {
    var e := EmptyDependencies();
    var d1 := Walk.Inserted(c, e, c.context[a]);
    var d3 := Walk.Link(Walk.Inserted(c, d1, c.context[b]), b, a);
    Walk.ChildrenBranch(c, e, a);
    CycleInner(c, a, b, d1);
    OneChild(c, d1, a, b, d3, b);
  }

  /** Two packages that import each other: walking from `a` terminates, records each once, and
      gives both edges. */
  lemma ImportCycle(c: Config, a: Package, b: Package)
    requires a != b && Shaped(c, a, [b]) && Shaped(c, b, [a]) && c.conditions == [] && c.roots == [a]
    ensures var r := Walk.Build(c);
      && r.err == None
      && r.deps.forward.Keys == {a, b}
      && r.deps.forward[a] == {b} && r.deps.forward[b] == {a}
      && r.deps.ignored == {}
  {
    var e := EmptyDependencies();
    var d1 := Walk.Inserted(c, e, c.context[a]);
    var d3 := Walk.Link(Walk.Inserted(c, d1, c.context[b]), b, a);
    var d4 := Walk.Link(d3, a, b);
    CycleWalk(c, a, b);
    OneRoot(c, EmptyDependencies(), a, d4, a, None);
    BuildOfWalk(c);
    assert d4.forward == InsertEdge(InsertEdge(AddNode(AddNode(map[], a), b), b, a), a, b);
    CycleGraph(a, b);
  }

  /** The smallest such provider: "a" imports "b" and "b" imports "a". */
  lemma ImportCycleExample(c: Config)
    requires c == Config(map["a" := Pkg("a", ["b"]), "b" := Pkg("b", ["a"])], map[], ["a"], [], [], [], false, false)
    ensures var r := Walk.Build(c);
      && r.err == None
      && r.deps.forward.Keys == {"a", "b"}
      && r.deps.forward["a"] == {"b"} && r.deps.forward["b"] == {"a"}
      && r.deps.ignored == {}
  {
    Vendor.ShortPathIsCanonical("a");
    Vendor.ShortPathIsCanonical("b");
    assert Imports.Children(c.context["a"], false) == ["b"];
    assert Imports.Children(c.context["b"], false) == ["a"];
    ImportCycle(c, "a", "b");
  }

  // ---- a termination condition cutting a chain ----

  /** The walk from the root `r` of a chain r -> a whose conditions hold once `a` is recorded. */
  lemma ChainWalk(c: Config, r: Package, a: Package)
    requires Shaped(c, r, [a]) && r != a
    requires a != "C" && a in c.context && Vendor.Strip(c.context[a].importPath) == a && Filter.IsAccepted(c, c.context[a])
    requires var d1 := Walk.Inserted(c, EmptyDependencies(), c.context[r]);
      && !Walk.ConditionMet(c.conditions, d1)
      && Walk.ConditionMet(c.conditions, Walk.Inserted(c, d1, c.context[a]))
    ensures var d1 := Walk.Inserted(c, EmptyDependencies(), c.context[r]);
      Walk.AddPackage(c, EmptyDependencies(), r) == Walk.Added(Walk.Inserted(c, d1, c.context[a]), r, Some(Termination))
  {
    var e := EmptyDependencies();
    var d1 := Walk.Inserted(c, e, c.context[r]);
    Walk.ChildrenBranch(c, e, r);
    Walk.TerminationBranch(c, d1, a);
    Walk.ImportsStep(c, d1, r, [a]);
  }

  /** A root `r` whose only child is `a`, with the conditions false after `r` is recorded and
      true once `a` is: the walk stops with exactly `r` and `a` as nodes; neither the edge
      r -> a nor any child of `a` is added, and `Build` reports success. */
  lemma EarlyTermination(c: Config, r: Package, a: Package)
    requires Shaped(c, r, [a]) && c.roots == [r] && r != a
    requires a != "C" && a in c.context && Vendor.Strip(c.context[a].importPath) == a && Filter.IsAccepted(c, c.context[a])
    requires var d1 := Walk.Inserted(c, EmptyDependencies(), c.context[r]);
      && !Walk.ConditionMet(c.conditions, d1)
      && Walk.ConditionMet(c.conditions, Walk.Inserted(c, d1, c.context[a]))
    ensures var res := Walk.Build(c);
      && res.err == None
      && res.deps.forward.Keys == {r, a}
      && res.deps.forward[r] == {} && res.deps.forward[a] == {}
      && res.deps.ignored == {}
      && res.deps.info.Keys == {r, a}
  {
    var d1 := Walk.Inserted(c, EmptyDependencies(), c.context[r]);
    var d2 := Walk.Inserted(c, d1, c.context[a]);
    ChainWalk(c, r, a);
    OneRoot(c, EmptyDependencies(), r, d2, r, Some(Termination));
    BuildOfWalk(c);
    assert Walk.Build(c) == Walk.Built(d2, None);
    assert d2.forward == AddNode(AddNode(map[], r), a);
    FreshNodes(r, a);
  }

  /** The chain r -> a -> b with a condition that holds once two packages are known. */
  function ChainConfig(): Config {
    Config(map["r" := Pkg("r", ["a"]), "a" := Pkg("a", ["b"]), "b" := Pkg("b", [])],
           map[], ["r"], [(d: Dependencies) => |d.forward| >= 2], [], [], false, false)
  }

  /** On the chain r -> a -> b the condition "two packages known" stops the walk before "b". */
  lemma EarlyTerminationExample(c: Config)
    requires c == ChainConfig()
    ensures var res := Walk.Build(c);
      && res.err == None
      && res.deps.forward.Keys == {"r", "a"}
      && "b" !in res.deps.forward
  {
    Vendor.ShortPathIsCanonical("r");
    Vendor.ShortPathIsCanonical("a");
    assert Imports.Children(c.context["r"], false) == ["a"];
    var d1 := Walk.Inserted(c, EmptyDependencies(), c.context["r"]);
    var d2 := Walk.Inserted(c, d1, c.context["a"]);
    assert d1.forward == map["r" := {}];
    assert !c.conditions[0](d1);
    assert d2.forward == map["r" := {}, "a" := {}];
    assert c.conditions[0](d2);
    EarlyTermination(c, "r", "a");
  }

  // ---- a root outside the include list ----

  /** The walk of the roots `x`, rejected, and `y`, a package without children. */
  lemma RejectedThenLeaf(c: Config, x: Package, y: Package)
    requires x != "C" && x in c.context && !Filter.IsAccepted(c, c.context[x])
    requires Shaped(c, y, []) && c.conditions == []
    ensures var e := EmptyDependencies();
      var d1 := e.(ignored := e.ignored + {Vendor.Strip(c.context[x].importPath)});
      Walk.AddAll(c, e, [x, y]) == Walk.Built(Walk.Inserted(c, d1, c.context[y]), None)
  {
    var e := EmptyDependencies();
    var d1 := e.(ignored := e.ignored + {Vendor.Strip(c.context[x].importPath)});
    Walk.ShortcutCases(c, e, x);
    Walk.AddAllSteps(c, e, [x, y]);
    assert [x, y][1..] == [y];
    Leaf(c, d1, y);
    OneRoot(c, d1, y, Walk.Inserted(c, d1, c.context[y]), y, None);
  }

  /** A root `x` that is rejected and a root `y` with no children: `x` is only recorded as
      ignored, under its canonical name, and `y` is still walked. */
  lemma RootNotIncluded(c: Config, x: Package, y: Package)
    requires x != "C" && x in c.context && !Filter.IsAccepted(c, c.context[x])
    requires Shaped(c, y, []) && c.conditions == [] && c.roots == [x, y]
    ensures var r := Walk.Build(c);
      && r.err == None
      && r.deps.forward.Keys == {y}
      && r.deps.ignored == {Vendor.Strip(c.context[x].importPath)}
  {
    var e := EmptyDependencies();
    var d1 := e.(ignored := e.ignored + {Vendor.Strip(c.context[x].importPath)});
    var d2 := Walk.Inserted(c, d1, c.context[y]);
    RejectedThenLeaf(c, x, y);
    BuildOfWalk(c);
    assert Walk.Build(c) == Walk.Built(d2, None);
    assert d2.forward == AddNode(map[], y) && d2.ignored == {} + {Vendor.Strip(c.context[x].importPath)};
    FreshNode(y);
  }

  /** Roots "x" and "y" with only "y" included. */
  lemma RootNotIncludedExample(c: Config)
    requires c == Config(map["x" := Pkg("x", []), "y" := Pkg("y", [])], map[], ["x", "y"], [], [],
                         [(s: string) => s == "y"], false, false)
    ensures var r := Walk.Build(c);
      r.err == None && r.deps.forward.Keys == {"y"} && r.deps.ignored == {"x"}
  {
    Vendor.ShortPathIsCanonical("x");
    Vendor.ShortPathIsCanonical("y");
    assert !c.included[0]("x");
    assert c.included[0]("y");
    assert Imports.Children(c.context["y"], false) == [];
    RootNotIncluded(c, "x", "y");
  }

  // ---- an import the provider cannot resolve ----

  /** The unresolvable import `m` of the root `a` ends the walk with its error; `a` stays recorded. */
  lemma UnresolvedImport(c: Config, a: Package, m: Package)
    requires Shaped(c, a, [m]) && m != "C" && m !in c.context && c.conditions == [] && c.roots == [a]
    ensures var r := Walk.Build(c);
      r.err == Some(ImportError(m)) && r.deps.forward.Keys == {a}
  {
    var e := EmptyDependencies();
    var d1 := Walk.Inserted(c, e, c.context[a]);
    Walk.ShortcutCases(c, d1, m);
    Walk.ImportsStep(c, d1, a, [m]);
    Walk.ChildrenBranch(c, e, a);
    OneRoot(c, EmptyDependencies(), a, d1, a, Some(ImportError(m)));
    BuildOfWalk(c);
    assert d1.forward == AddNode(map[], a);
    FreshNode(a);
  }

  /** Root "a" importing "m", which the provider does not know. */
  lemma UnresolvedImportExample(c: Config)
    requires c == Config(map["a" := Pkg("a", ["m"])], map[], ["a"], [], [], [], false, false)
    ensures var r := Walk.Build(c);
      r.err == Some(ImportError("m")) && r.deps.forward.Keys == {"a"}
  {
    Vendor.ShortPathIsCanonical("a");
    NoPatternsAccept(c, c.context["a"]);
    assert Imports.Children(c.context["a"], false) == ["m"];
    UnresolvedImport(c, "a", "m");
  }

  // ---- a test that imports its own package ----

  /** With tests included, a package whose only import is its own path, from an external test,
      has no children. */
  lemma SelfImportOnly(pkg: BuildPackage)
    requires pkg.imports == [] && pkg.testImports == [] && pkg.xTestImports == [pkg.importPath]
    ensures Imports.Children(pkg, true) == []
  {
    var xs := [pkg.importPath];
    assert Imports.AllImports(pkg, true) == xs;
    assert xs[1..] == [];
    assert Imports.Dedup(xs, pkg.importPath, {}) == Imports.Dedup([], pkg.importPath, {});
  }

  /** A root `a` whose only import is its own path, from an external test: with tests included,
      `a` is walked and gets no self edge. */
  lemma TestImportOfItself(c: Config, a: Package)
    requires a != "C" && a != "" && a in c.context && Vendor.Strip(c.context[a].importPath) == a
    requires Filter.IsAccepted(c, c.context[a]) && c.includeTests && c.conditions == [] && c.roots == [a]
    requires var pkg := c.context[a];
      pkg.imports == [] && pkg.testImports == [] && pkg.xTestImports == [pkg.importPath]
    ensures var r := Walk.Build(c);
      r.err == None && r.deps.forward.Keys == {a} && r.deps.forward[a] == {}
  {
    var e := EmptyDependencies();
    SelfImportOnly(c.context[a]);
    Walk.ChildrenBranch(c, e, a);
    var d1 := Walk.Inserted(c, e, c.context[a]);
    OneRoot(c, e, a, d1, a, None);
    BuildOfWalk(c);
    assert d1.forward == AddNode(map[], a);
    FreshNode(a);
  }

  /** An external test of "a" that imports "a" adds no self edge. */
  lemma TestImportOfItselfExample(c: Config)
    requires c == Config(map["a" := BuildPackage("a", "a", false, [], [], ["a"], [], [], [], [])],
                         map[], ["a"], [], [], [], true, false)
    ensures var r := Walk.Build(c);
      r.err == None && r.deps.forward.Keys == {"a"} && r.deps.forward["a"] == {}
  {
    Vendor.ShortPathIsCanonical("a");
    NoPatternsAccept(c, c.context["a"]);
    TestImportOfItself(c, "a");
  }

  // ---- canonical names ----

  /** A vendored copy deep inside a project is canonically the library path after the segment. */
  lemma VendoredDeep()
    ensures Vendor.Strip("proj/internal_copy" + "/vendor/" + "lib/x") == "lib/x"
  {
    Vendor.ShortHasNoVendor("/lib/x");
    Vendor.StripAfterSegment("proj/internal_copy", "lib/x");
  }

  /** A library vendored one level below a one-letter directory is canonically "lib". */
  lemma CopyIsLib(path: string)
    requires |path| == 12 && path[1..] == "/vendor/lib"
    ensures Vendor.Strip(path) == "lib"
  {
    var pre := path[..1];
    assert path == pre + Vendor.VendorSegment + "lib";
    Vendor.ShortHasNoVendor("/lib");
    Vendor.StripAfterSegment(pre, "lib");
  }

  /** Both vendored copies of the two-copies example are canonically "lib". */
  lemma BothCopiesAreLib()
    ensures Vendor.Strip("p/vendor/lib") == "lib" && Vendor.Strip("q/vendor/lib") == "lib"
  {
    CopyIsLib("p/vendor/lib");
    CopyIsLib("q/vendor/lib");
  }

  /** The flag of `StripVendor` tells a vendored path from a plain one. */
  lemma VendoredFlag()
    ensures Vendor.StripVendor("p/vendor/lib") == ("lib", true)
    ensures Vendor.StripVendor("lib") == ("lib", false)
  {
    CopyIsLib("p/vendor/lib");
    Vendor.ShortPathIsCanonical("lib");
  }

  // ---- two vendored copies of one library ----

  /** The graph after `root` and `lib` are created and the edge root -> lib is added twice. */
  lemma DoubleEdgeGraph(root: Package, lib: Package)
    requires root != lib
    ensures var g := InsertEdge(InsertEdge(AddNode(AddNode(map[], root), lib), root, lib), root, lib);
      g.Keys == {root, lib} && g[root] == {lib} && g[lib] == {}
  {
    var g2 := AddNode(AddNode(map[], root), lib);
    FreshNodes(root, lib);
    InsertEdgeAtNode(g2, root, lib);
    InsertEdgeAtNode(InsertEdge(g2, root, lib), root, lib);
    assert {} + {lib} == {lib} && {lib} + {lib} == {lib};
  }

  /** `root`'s children `p` and `q` are two paths with the canonical name `lib`. */
  predicate TwoCopies(c: Config, root: Package, p: Package, q: Package, lib: Package) {
    && Shaped(c, root, [p, q]) && root != lib && lib != "" && c.conditions == []
    && p != "C" && p in c.context && Vendor.Strip(c.context[p].importPath) == lib
    && Filter.IsAccepted(c, c.context[p]) && Imports.Children(c.context[p], c.includeTests) == []
    && q != "C" && q in c.context && Vendor.Strip(c.context[q].importPath) == lib
    && Filter.IsAccepted(c, c.context[q])
  }

  /** The walk from `root`: the first copy is walked, the second finds `lib` already a node. */
  lemma TwoCopiesWalk(c: Config, root: Package, p: Package, q: Package, lib: Package)
    requires TwoCopies(c, root, p, q, lib)
    ensures var d1 := Walk.Inserted(c, EmptyDependencies(), c.context[root]);
      var d3 := Walk.Link(Walk.Inserted(c, d1, c.context[p]), root, lib);
      Walk.AddPackage(c, EmptyDependencies(), root) == Walk.Added(Walk.Link(d3, root, lib), root, None)
  {
    var e := EmptyDependencies();
    var d1 := Walk.Inserted(c, e, c.context[root]);
    var d2 := Walk.Inserted(c, d1, c.context[p]);
    var d3 := Walk.Link(d2, root, lib);
    Walk.ChildrenBranch(c, e, root);
    Leaf(c, d1, p);
    Walk.ImportsStep(c, d1, root, [p, q]);
    assert [p, q][1..] == [q];
    Walk.ShortcutCases(c, d3, q);
    OneChild(c, d3, root, q, d3, lib);
  }

  /** A root importing two copies `p` and `q` of the library `lib`: the library is walked once,
      under its canonical name, and the root has a single edge to it. */
  lemma VendoredCopiesMerge(c: Config, root: Package, p: Package, q: Package, lib: Package)
    requires TwoCopies(c, root, p, q, lib) && c.roots == [root]
    ensures var r := Walk.Build(c);
      && r.err == None
      && r.deps.forward.Keys == {root, lib}
      && r.deps.forward[root] == {lib} && r.deps.forward[lib] == {}
      && r.deps.ignored == {}
      && r.deps.info[lib] == DependencyInfo(Lines.LinesOfCode(c.lines, c.context[p], c.includeTests))
  {
    var d1 := Walk.Inserted(c, EmptyDependencies(), c.context[root]);
    var d3 := Walk.Link(Walk.Inserted(c, d1, c.context[p]), root, lib);
    var d4 := Walk.Link(d3, root, lib);
    TwoCopiesWalk(c, root, p, q, lib);
    OneRoot(c, EmptyDependencies(), root, d4, root, None);
    BuildOfWalk(c);
    assert d4.forward == InsertEdge(InsertEdge(AddNode(AddNode(map[], root), lib), root, lib), root, lib);
    DoubleEdgeGraph(root, lib);
  }

  /** Two distinct imports, neither the package's own path, are its whole child list. */
  lemma TwoChildren(path: string, p: string, q: string)
    requires p != path && q != path && p != q
    ensures Imports.Children(Pkg(path, [p, q]), false) == [p, q]
  {
    assert [p, q][1..] == [q] && [q][1..] == [];
    assert {} + {p} == {p};
    assert Imports.Dedup([q], path, {p}) == [q];
    assert Imports.Dedup([p, q], path, {}) == [p] + Imports.Dedup([q], path, {p});
  }

  /** The provider of the example below. */
  function TwoCopiesConfig(): Config {
    Config(map["r" := Pkg("r", ["p/vendor/lib", "q/vendor/lib"]),
               "p/vendor/lib" := Pkg("p/vendor/lib", []),
               "q/vendor/lib" := Pkg("q/vendor/lib", [])], map[], ["r"], [], [], [], false, false)
  }

  /** Any provider laid out like the example below has the shape `VendoredCopiesMerge` expects. */
  lemma TwoCopiesProvider(c: Config, root: Package, p: Package, q: Package, lib: Package)
    requires c == Config(map[root := Pkg(root, [p, q]), p := Pkg(p, []), q := Pkg(q, [])],
                         map[], [root], [], [], [], false, false)
    requires root != "C" && root != "" && p != "C" && q != "C"
    requires p != root && q != root && p != q && root != lib && lib != ""
    requires Vendor.Strip(root) == root && Vendor.Strip(p) == lib && Vendor.Strip(q) == lib
    ensures TwoCopies(c, root, p, q, lib)
  {
    TwoChildren(root, p, q);
    NoPatternsAccept(c, c.context[root]);
    NoPatternsAccept(c, c.context[p]);
    NoPatternsAccept(c, c.context[q]);
  }

  /** The example's provider has the shape `VendoredCopiesMerge` expects. */
  lemma TwoCopiesConfigShape(c: Config)
    requires c == TwoCopiesConfig()
    ensures TwoCopies(c, "r", "p/vendor/lib", "q/vendor/lib", "lib")
  {
    var p, q := "p/vendor/lib", "q/vendor/lib";
    assert p[0] != q[0] && |p| != |"r"|;
    Vendor.ShortPathIsCanonical("r");
    BothCopiesAreLib();
    TwoCopiesProvider(c, "r", p, q, "lib");
  }

  /** The smallest such provider: "r" imports "p/vendor/lib" and "q/vendor/lib". */
  lemma VendoredCopiesExample(c: Config)
    requires c == TwoCopiesConfig()
    ensures var r := Walk.Build(c);
      r.err == None && r.deps.forward.Keys == {"r", "lib"} && r.deps.forward["r"] == {"lib"}
        && r.deps.forward["lib"] == {}
  {
    TwoCopiesConfigShape(c);
    VendoredCopiesMerge(c, "r", "p/vendor/lib", "q/vendor/lib", "lib");
  }
}
