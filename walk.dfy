/** A functional reference for the traversal `addPackage`, `addAllPackages` and `Build`
    (deps/deps.go): each function returns the new `Dependencies` together with what the Go
    code returns. The imperative `Deps.Builder` is proved to compute exactly these values. */
module Walk {
  import opened Types
  import Vendor
  import Filter
  import Imports
  import Lines

  /** What `addPackage` returns (`includedName`, `err`), with the dependencies it leaves behind. */
  datatype Added = Added(deps: Dependencies, name: Package, err: Option<Error>)

  /** What `addAllPackages` and `Build` return, with the dependencies they leave behind. */
  datatype Built = Built(deps: Dependencies, err: Option<Error>)

  /** Every canonical name a package of the provider can have. */
  function Universe(c: Config): set<Package> {
    set p | p in c.context :: Vendor.Strip(c.context[p].importPath)
  }

  /** The termination measure: canonical packages that are not yet nodes. */
  function Unwalked(c: Config, d: Dependencies): nat {
    |Universe(c) - d.forward.Keys|
  }

  /** Some termination condition holds of `d`. */
  predicate ConditionMet(conditions: seq<Condition>, d: Dependencies) {
    exists i | 0 <= i < |conditions| :: conditions[i](d)
  }

  /** The invariant the traversal keeps: info is recorded for exactly the nodes, every edge leads
      to a node, and nodes and ignored packages are canonical names of resolvable packages. */
  predicate Consistent(c: Config, d: Dependencies) {
    && d.info.Keys == d.forward.Keys
    && (forall p, q | p in d.forward && q in d.forward[p] :: q in d.forward)
    && d.forward.Keys <= Universe(c)
    && d.ignored <= Universe(c)
  }

  lemma SubsetCardinality(a: set<Package>, b: set<Package>)
    requires a <= b
    ensures |a| <= |b|
  {
    assert b == a + (b - a);
  }

  /** Removing more keys from `u` leaves fewer packages. */
  lemma DifferenceShrinks(u: set<Package>, k: set<Package>, k': set<Package>)
    requires k <= k'
    ensures |u - k'| <= |u - k|
  {
    SubsetCardinality(u - k', u - k);
  }

  /** Removing one more member of `u` leaves strictly fewer packages. */
  lemma DifferenceDrops(u: set<Package>, k: set<Package>, k': set<Package>, n: Package)
    requires n in u && n !in k && k + {n} <= k'
    ensures |u - k'| < |u - k|
  {
    var smaller := u - (k + {n});
    assert u - k == smaller + {n};
    SubsetCardinality(u - k', smaller);
  }

  lemma UnwalkedMonotone(c: Config, d: Dependencies, d': Dependencies)
    requires d.forward.Keys <= d'.forward.Keys
    ensures Unwalked(c, d') <= Unwalked(c, d)
  {
    DifferenceShrinks(Universe(c), d.forward.Keys, d'.forward.Keys);
  }

  lemma UnwalkedDrops(c: Config, d: Dependencies, d': Dependencies, n: Package)
    requires n in Universe(c) && n !in d.forward
    requires d.forward.Keys + {n} <= d'.forward.Keys
    ensures Unwalked(c, d') < Unwalked(c, d)
  {
    DifferenceDrops(Universe(c), d.forward.Keys, d'.forward.Keys, n);
  }

  /** `addPackage(pkgName)` run on `d`. */
  function AddPackage(c: Config, d: Dependencies, pkgName: Package): (r: Added)
    decreases Unwalked(c, d), 0
    ensures d.forward.Keys <= r.deps.forward.Keys
    ensures r.name != "" ==>
      && pkgName in c.context
      && r.name == Vendor.Strip(c.context[pkgName].importPath)
      && r.name in r.deps.forward
  {
    if pkgName == "C" then Added(d, "", None)
    else if pkgName !in c.context then Added(d, "", Some(ImportError(pkgName)))
    else
      var pkg := c.context[pkgName];
      var name := Vendor.Strip(pkg.importPath);
      if !Filter.IsAccepted(c, pkg) then Added(d.(ignored := d.ignored + {name}), "", None)
      else if HasNode(d.forward, name) then Added(d, name, None)
      else
        var inserted := Inserted(c, d, pkg);
        InsertedShrinksUnwalked(c, d, pkgName);
        if ConditionMet(c.conditions, inserted) then Added(inserted, name, Some(Termination))
        else AddImports(c, inserted, name, Imports.Children(pkg, c.includeTests))
  }

  /** `d` once `pkg` is a node with its info recorded: the snapshot the termination conditions see. */
  function Inserted(c: Config, d: Dependencies, pkg: BuildPackage): Dependencies {
    var name := Vendor.Strip(pkg.importPath);
    d.(forward := AddNode(d.forward, name),
       info := d.info[name := DependencyInfo(Lines.LinesOfCode(c.lines, pkg, c.includeTests))])
  }

  lemma InsertedShrinksUnwalked(c: Config, d: Dependencies, pkgName: Package)
    requires pkgName in c.context && Vendor.Strip(c.context[pkgName].importPath) !in d.forward
    ensures Unwalked(c, Inserted(c, d, c.context[pkgName])) < Unwalked(c, d)
  {
    var name := Vendor.Strip(c.context[pkgName].importPath);
    assert name in Universe(c);
    UnwalkedDrops(c, d, Inserted(c, d, c.context[pkgName]), name);
  }

  /** `addPackage` on a new accepted package whose snapshot meets a termination condition. */
  lemma TerminationBranch(c: Config, d: Dependencies, pkgName: Package)
    requires pkgName != "C" && pkgName in c.context && Filter.IsAccepted(c, c.context[pkgName])
    requires Vendor.Strip(c.context[pkgName].importPath) !in d.forward
    requires ConditionMet(c.conditions, Inserted(c, d, c.context[pkgName]))
    ensures AddPackage(c, d, pkgName)
         == Added(Inserted(c, d, c.context[pkgName]), Vendor.Strip(c.context[pkgName].importPath), Some(Termination))
  {
  }

  /** `addPackage` on a new accepted package whose snapshot meets no condition: it walks the children. */
  lemma ChildrenBranch(c: Config, d: Dependencies, pkgName: Package)
    requires pkgName != "C" && pkgName in c.context && Filter.IsAccepted(c, c.context[pkgName])
    requires Vendor.Strip(c.context[pkgName].importPath) !in d.forward
    requires !ConditionMet(c.conditions, Inserted(c, d, c.context[pkgName]))
    ensures Unwalked(c, Inserted(c, d, c.context[pkgName])) < Unwalked(c, d)
    ensures AddPackage(c, d, pkgName)
         == AddImports(c, Inserted(c, d, c.context[pkgName]), Vendor.Strip(c.context[pkgName].importPath),
                       Imports.Children(c.context[pkgName], c.includeTests))
  {
    InsertedShrinksUnwalked(c, d, pkgName);
  }

  /** The four ways `addPackage` returns before creating a node: the cgo pseudo-import changes
      nothing; an unresolvable path is an error that changes nothing; a rejected package is only
      recorded as ignored under its canonical name; a package already walked is neither walked
      again nor given new info. */
  lemma ShortcutCases(c: Config, d: Dependencies, pkgName: Package)
    ensures pkgName == "C" ==> AddPackage(c, d, pkgName) == Added(d, "", None)
    ensures pkgName != "C" && pkgName !in c.context ==>
      AddPackage(c, d, pkgName) == Added(d, "", Some(ImportError(pkgName)))
    ensures pkgName != "C" && pkgName in c.context && !Filter.IsAccepted(c, c.context[pkgName]) ==>
      var name := Vendor.Strip(c.context[pkgName].importPath);
      AddPackage(c, d, pkgName) == Added(d.(ignored := d.ignored + {name}), "", None)
    ensures pkgName != "C" && pkgName in c.context && Filter.IsAccepted(c, c.context[pkgName])
            && Vendor.Strip(c.context[pkgName].importPath) in d.forward ==>
      AddPackage(c, d, pkgName) == Added(d, Vendor.Strip(c.context[pkgName].importPath), None)
  {
  }

  /** One step of the loop over the child list. */
  lemma ImportsStep(c: Config, d: Dependencies, parent: Package, imports: seq<Package>)
    requires imports != []
    ensures var child := AddPackage(c, d, imports[0]);
      && (child.err.Some? ==> AddImports(c, d, parent, imports) == Added(child.deps, parent, child.err))
      && (child.err.None? ==>
            AddImports(c, d, parent, imports) == AddImports(c, Link(child.deps, parent, child.name), parent, imports[1..]))
  {
  }

  /** The loop of `addPackage` over the child list `imports` of `parent`, run on `d`. */
  function AddImports(c: Config, d: Dependencies, parent: Package, imports: seq<Package>): (r: Added)
    decreases Unwalked(c, d), |imports|
    ensures d.forward.Keys <= r.deps.forward.Keys
    ensures r.name == parent
  {
    if imports == [] then Added(d, parent, None)
    else
      var child := AddPackage(c, d, imports[0]);
      if child.err.Some? then Added(child.deps, parent, child.err)
      else
        var next := Link(child.deps, parent, child.name);
        UnwalkedMonotone(c, d, next);
        AddImports(c, next, parent, imports[1..])
  }

  /** The edge `parent -> name` added after a child call returned `name` (none when it is ""). */
  function Link(d: Dependencies, parent: Package, name: Package): Dependencies {
    if name == "" then d else d.(forward := InsertEdge(d.forward, parent, name))
  }

  /** Linking never removes a node. */
  lemma LinkKeepsNodes(d: Dependencies, parent: Package, name: Package)
    ensures d.forward.Keys <= Link(d, parent, name).forward.Keys
  {
  }

  /** `addAllPackages(roots)` run on `d`. */
  function AddAll(c: Config, d: Dependencies, roots: seq<Package>): Built
    decreases |roots|
  {
    if roots == [] then Built(d, None)
    else
      var root := AddPackage(c, d, roots[0]);
      if root.err.Some? then Built(root.deps, root.err)
      else AddAll(c, root.deps, roots[1..])
  }

  /** `addAllPackages` stops at the first root whose walk fails and otherwise goes on with the
      next root, also after a root that is not included. */
  lemma AddAllSteps(c: Config, d: Dependencies, roots: seq<Package>)
    requires roots != []
    ensures var root := AddPackage(c, d, roots[0]);
      && (root.err.Some? ==> AddAll(c, d, roots) == Built(root.deps, root.err))
      && (root.err.None? ==> AddAll(c, d, roots) == AddAll(c, root.deps, roots[1..]))
  {
  }

  /** `Build`: the walk of all roots from fresh dependencies; the termination sentinel becomes success. */
  function Build(c: Config): (r: Built)
    ensures Consistent(c, r.deps)
    ensures r.err != Some(Termination)
    ensures r.err.Some? ==> r.err.value.ImportError? && r.err.value.importPath !in c.context
    ensures AddAll(c, EmptyDependencies(), c.roots).err == Some(Termination) ==>
      r.err == None && ConditionMet(c.conditions, r.deps)
    ensures r.deps == AddAll(c, EmptyDependencies(), c.roots).deps
  {
    var walked := AddAll(c, EmptyDependencies(), c.roots);
    AddAllConsistent(c, EmptyDependencies(), c.roots);
    AddAllErrors(c, EmptyDependencies(), c.roots);
    Built(walked.deps, if walked.err == Some(Termination) then None else walked.err)
  }

  /** `d'` extends `d`: no node, edge or ignored package is lost, and no info entry is rewritten. */
  predicate Grows(d: Dependencies, d': Dependencies) {
    && d.forward.Keys <= d'.forward.Keys
    && (forall p | p in d.forward :: d.forward[p] <= d'.forward[p])
    && d.ignored <= d'.ignored
    && (forall p | p in d.info :: p in d'.info && d'.info[p] == d.info[p])
  }

  lemma GrowsTransitive(d: Dependencies, d': Dependencies, d'': Dependencies)
    requires Grows(d, d') && Grows(d', d'')
    ensures Grows(d, d'')
  {
  }

  lemma InsertedGrows(c: Config, d: Dependencies, pkg: BuildPackage)
    requires Consistent(c, d) && Vendor.Strip(pkg.importPath) !in d.forward
    ensures Grows(d, Inserted(c, d, pkg))
  {
  }

  lemma LinkGrows(d: Dependencies, parent: Package, name: Package)
    ensures Grows(d, Link(d, parent, name))
  {
  }

  /** Making a resolvable package a node, with its info recorded, keeps the invariant. */
  lemma NodeAddedConsistent(c: Config, d: Dependencies, d': Dependencies, name: Package)
    requires Consistent(c, d) && name in Universe(c)
    requires d'.forward == AddNode(d.forward, name) && d'.ignored == d.ignored
    requires d'.info.Keys == d.info.Keys + {name}
    ensures Consistent(c, d')
  {
    assert d'.forward.Keys == d.forward.Keys + {name};
    forall p, q | p in d'.forward && q in d'.forward[p]
      ensures q in d'.forward
    {
      if p != name || name in d.forward {
        assert d'.forward[p] == d.forward[p];
      }
    }
  }

  lemma InsertedConsistent(c: Config, d: Dependencies, pkgName: Package)
    requires Consistent(c, d) && pkgName in c.context
    ensures Consistent(c, Inserted(c, d, c.context[pkgName]))
  {
    var name := Vendor.Strip(c.context[pkgName].importPath);
    assert name in Universe(c);
    NodeAddedConsistent(c, d, Inserted(c, d, c.context[pkgName]), name);
  }

  lemma LinkConsistent(c: Config, d: Dependencies, parent: Package, name: Package)
    requires Consistent(c, d) && parent in d.forward
    requires name != "" ==> name in d.forward
    ensures Consistent(c, Link(d, parent, name))
  {
  }

  lemma {:induction false} AddPackageGrows(c: Config, d: Dependencies, pkgName: Package)
    requires Consistent(c, d)
    decreases Unwalked(c, d), 0
    ensures Grows(d, AddPackage(c, d, pkgName).deps)
  {
    var r := AddPackage(c, d, pkgName);
    if pkgName == "C" || pkgName !in c.context {
      assert r.deps == d;
    } else {
      var pkg := c.context[pkgName];
      var name := Vendor.Strip(pkg.importPath);
      if !Filter.IsAccepted(c, pkg) {
        assert r.deps == d.(ignored := d.ignored + {name});
      } else if name in d.forward {
        assert r.deps == d;
      } else {
        var inserted := Inserted(c, d, pkg);
        InsertedShrinksUnwalked(c, d, pkgName);
        InsertedGrows(c, d, pkg);
        if ConditionMet(c.conditions, inserted) {
          assert r.deps == inserted;
        } else {
          var children := Imports.Children(pkg, c.includeTests);
          assert r == AddImports(c, inserted, name, children);
          InsertedConsistent(c, d, pkgName);
          AddImportsGrows(c, inserted, name, children);
          GrowsTransitive(d, inserted, r.deps);
        }
      }
    }
  }

  lemma {:induction false} AddImportsGrows(c: Config, d: Dependencies, parent: Package, imports: seq<Package>)
    requires Consistent(c, d) && parent in d.forward
    decreases Unwalked(c, d), |imports|
    ensures Grows(d, AddImports(c, d, parent, imports).deps)
  {
    var r := AddImports(c, d, parent, imports);
    if imports == [] {
      assert r.deps == d;
    } else {
      var child := AddPackage(c, d, imports[0]);
      AddPackageGrows(c, d, imports[0]);
      if child.err.Some? {
        assert r.deps == child.deps;
      } else {
        var next := Link(child.deps, parent, child.name);
        AddPackageConsistent(c, d, imports[0]);
        LinkGrows(child.deps, parent, child.name);
        LinkConsistent(c, child.deps, parent, child.name);
        UnwalkedMonotone(c, d, next);
        assert r == AddImports(c, next, parent, imports[1..]);
        AddImportsGrows(c, next, parent, imports[1..]);
        GrowsTransitive(d, child.deps, next);
        GrowsTransitive(d, next, r.deps);
      }
    }
  }

  lemma {:induction false} AddAllGrows(c: Config, d: Dependencies, roots: seq<Package>)
    requires Consistent(c, d)
    decreases |roots|
    ensures Grows(d, AddAll(c, d, roots).deps)
  {
    var r := AddAll(c, d, roots);
    if roots == [] {
      assert r.deps == d;
    } else {
      var root := AddPackage(c, d, roots[0]);
      AddPackageGrows(c, d, roots[0]);
      if root.err.Some? {
        assert r.deps == root.deps;
      } else {
        AddPackageConsistent(c, d, roots[0]);
        assert r == AddAll(c, root.deps, roots[1..]);
        AddAllGrows(c, root.deps, roots[1..]);
        GrowsTransitive(d, root.deps, r.deps);
      }
    }
  }

  lemma {:induction false} AddPackageConsistent(c: Config, d: Dependencies, pkgName: Package)
    requires Consistent(c, d)
    decreases Unwalked(c, d), 0
    ensures Consistent(c, AddPackage(c, d, pkgName).deps)
  {
    var r := AddPackage(c, d, pkgName);
    if pkgName == "C" || pkgName !in c.context {
      assert r.deps == d;
    } else {
      var pkg := c.context[pkgName];
      var name := Vendor.Strip(pkg.importPath);
      assert name in Universe(c);
      if !Filter.IsAccepted(c, pkg) {
        assert r.deps == d.(ignored := d.ignored + {name});
      } else if name in d.forward {
        assert r.deps == d;
      } else {
        var inserted := Inserted(c, d, pkg);
        InsertedShrinksUnwalked(c, d, pkgName);
        InsertedConsistent(c, d, pkgName);
        if ConditionMet(c.conditions, inserted) {
          assert r.deps == inserted;
        } else {
          var children := Imports.Children(pkg, c.includeTests);
          assert r == AddImports(c, inserted, name, children);
          AddImportsConsistent(c, inserted, name, children);
        }
      }
    }
  }

  lemma {:induction false} AddImportsConsistent(c: Config, d: Dependencies, parent: Package, imports: seq<Package>)
    requires Consistent(c, d) && parent in d.forward
    decreases Unwalked(c, d), |imports|
    ensures Consistent(c, AddImports(c, d, parent, imports).deps)
  {
    var r := AddImports(c, d, parent, imports);
    if imports == [] {
      assert r.deps == d;
    } else {
      var child := AddPackage(c, d, imports[0]);
      AddPackageConsistent(c, d, imports[0]);
      if child.err.Some? {
        assert r.deps == child.deps;
      } else {
        var next := Link(child.deps, parent, child.name);
        LinkConsistent(c, child.deps, parent, child.name);
        UnwalkedMonotone(c, d, next);
        assert r == AddImports(c, next, parent, imports[1..]);
        AddImportsConsistent(c, next, parent, imports[1..]);
      }
    }
  }

  lemma {:induction false} AddAllConsistent(c: Config, d: Dependencies, roots: seq<Package>)
    requires Consistent(c, d)
    decreases |roots|
    ensures Consistent(c, AddAll(c, d, roots).deps)
  {
    var r := AddAll(c, d, roots);
    if roots == [] {
      assert r.deps == d;
    } else {
      var root := AddPackage(c, d, roots[0]);
      AddPackageConsistent(c, d, roots[0]);
      if root.err.Some? {
        assert r.deps == root.deps;
      } else {
        assert r == AddAll(c, root.deps, roots[1..]);
        AddAllConsistent(c, root.deps, roots[1..]);
      }
    }
  }

  /** The only errors are a condition that holds of the returned snapshot, or a path the provider
      cannot resolve. */
  predicate ErrorsExplained(c: Config, d: Dependencies, err: Option<Error>) {
    && (err == Some(Termination) ==> ConditionMet(c.conditions, d))
    && (err.Some? && err.value.ImportError? ==> err.value.importPath !in c.context)
  }

  lemma {:induction false} AddPackageErrors(c: Config, d: Dependencies, pkgName: Package)
    decreases Unwalked(c, d), 0
    ensures var r := AddPackage(c, d, pkgName); ErrorsExplained(c, r.deps, r.err)
  {
    if pkgName != "C" && pkgName in c.context {
      var pkg := c.context[pkgName];
      var name := Vendor.Strip(pkg.importPath);
      if Filter.IsAccepted(c, pkg) && name !in d.forward {
        var inserted := Inserted(c, d, pkg);
        InsertedShrinksUnwalked(c, d, pkgName);
        if !ConditionMet(c.conditions, inserted) {
          AddImportsErrors(c, inserted, name, Imports.Children(pkg, c.includeTests));
        }
      }
    }
  }

  lemma {:induction false} AddImportsErrors(c: Config, d: Dependencies, parent: Package, imports: seq<Package>)
    decreases Unwalked(c, d), |imports|
    ensures var r := AddImports(c, d, parent, imports); ErrorsExplained(c, r.deps, r.err)
  {
    if imports != [] {
      var child := AddPackage(c, d, imports[0]);
      AddPackageErrors(c, d, imports[0]);
      if child.err.None? {
        var next := Link(child.deps, parent, child.name);
        UnwalkedMonotone(c, d, next);
        AddImportsErrors(c, next, parent, imports[1..]);
      }
    }
  }

  lemma {:induction false} AddAllErrors(c: Config, d: Dependencies, roots: seq<Package>)
    decreases |roots|
    ensures var r := AddAll(c, d, roots); ErrorsExplained(c, r.deps, r.err)
  {
    if roots != [] {
      var root := AddPackage(c, d, roots[0]);
      AddPackageErrors(c, d, roots[0]);
      if root.err.None? {
        AddAllErrors(c, root.deps, roots[1..]);
      }
    }
  }
}
