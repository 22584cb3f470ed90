/** The dependency-graph builder of deps/deps.go as an object whose methods update its `deps`
    field in place. Every method is proved to leave exactly the state, and return exactly the
    values, that the functional reference in `Walk` prescribes. */
module Deps {
  import opened Types
  import Vendor
  import Filter
  import Imports
  import Lines
  import Walk

  class Builder {
    /** The builder's settings; `addPackage` and its helpers only read them. */
    const config: Config
    /** The dependencies accumulated so far. */
    var deps: Dependencies

    constructor (config: Config)
      ensures this.config == config
      ensures deps == EmptyDependencies()
    {
      this.config := config;
      deps := EmptyDependencies();
    }

    /** `Build`: starts from fresh dependencies and walks every root; the termination sentinel
        is reported as success with the partial result. */
    method Build() returns (result: Dependencies, err: Option<Error>)
      modifies this
      ensures Walk.Build(config) == Walk.Built(result, err)
      ensures deps == result
      ensures Walk.Consistent(config, result)
      ensures err != Some(Termination)
    {
      deps := EmptyDependencies();
      err := AddAllPackages(config.roots);
      if err == Some(Termination) {
        err := None;
      }
      result := deps;
    }

    /** `addAllPackages`: adds the roots in order and stops at the first error. A root that is
        not included only draws a warning (diagnostic output, not modelled). */
    method AddAllPackages(pkgs: seq<Package>) returns (err: Option<Error>)
      modifies this
      ensures Walk.AddAll(config, old(deps), pkgs) == Walk.Built(deps, err)
    {
      for i := 0 to |pkgs|
        invariant Walk.AddAll(config, deps, pkgs[i..]) == Walk.AddAll(config, old(deps), pkgs)
      {
        assert pkgs[i..][1..] == pkgs[i + 1..];
        var includedName, e := AddPackage(pkgs[i]);
        if e.Some? {
          return e;
        }
      }
      return None;
    }

    /** `addPackage`: recursively adds `pkgName` to the accumulated graph; `includedName` is
        empty when the package is not included. */
    method AddPackage(pkgName: Package) returns (includedName: Package, err: Option<Error>)
      modifies this
      decreases Walk.Unwalked(config, deps), 0
      ensures Walk.AddPackage(config, old(deps), pkgName) == Walk.Added(deps, includedName, err)
      ensures pkgName == "C" ==> includedName == "" && err == None && deps == old(deps)
      ensures old(deps).forward.Keys <= deps.forward.Keys
    {
      // cgo pseudo-import
      if pkgName == "C" {
        return "", None;
      }
      if pkgName !in config.context {
        return "", Some(ImportError(pkgName));
      }
      var pkg := config.context[pkgName];
      var pkgFullName := Vendor.Strip(pkg.importPath);
      if !Filter.IsAccepted(config, pkg) {
        deps := deps.(ignored := deps.ignored + {pkgFullName});
        return "", None;
      }
      if HasNode(deps.forward, pkgFullName) {
        // already walked: its dependencies are not walked again
        return pkgFullName, None;
      }

      deps := deps.(forward := AddNode(deps.forward, pkgFullName));
      var loc := LinesOfCode(pkg);
      deps := deps.(info := deps.info[pkgFullName := DependencyInfo(loc)]);
      ghost var inserted := deps;
      assert inserted == Walk.Inserted(config, old(deps), pkg);

      var met := AnyConditionMet(deps);
      if met {
        Walk.TerminationBranch(config, old(deps), pkgName);
        return pkgFullName, Some(Termination);
      }
      Walk.ChildrenBranch(config, old(deps), pkgName);

      var imports := GetImports(pkg);
      err := AddChildren(pkgFullName, imports);
      return pkgFullName, err;
    }

    /** The loop of `addPackage` over the child list of `parent` (whose node already exists): each
        child is added recursively, the first error stops the loop, and an included child gets an
        edge from `parent`. */
    method AddChildren(parent: Package, imports: seq<Package>) returns (err: Option<Error>)
      modifies this
      decreases Walk.Unwalked(config, deps), 1
      ensures Walk.AddImports(config, old(deps), parent, imports) == Walk.Added(deps, parent, err)
    {
      for i := 0 to |imports|
        invariant old(deps).forward.Keys <= deps.forward.Keys
        invariant Walk.AddImports(config, deps, parent, imports[i..])
               == Walk.AddImports(config, old(deps), parent, imports)
      {
        ghost var before := deps;
        Walk.UnwalkedMonotone(config, old(deps), before);
        Walk.ImportsStep(config, before, parent, imports[i..]);
        assert imports[i..][1..] == imports[i + 1..];
        var childName, childErr := AddPackage(imports[i]);
        if childErr.Some? {
          return childErr;
        }
        if childName != "" {
          deps := deps.(forward := InsertEdge(deps.forward, parent, childName));
        }
        ghost var child := Walk.AddPackage(config, before, imports[i]);
        assert deps == Walk.Link(child.deps, parent, childName);
        Walk.LinkKeepsNodes(child.deps, parent, childName);
      }
      return None;
    }

    /** The scan of the termination conditions against a snapshot; any one that holds stops the walk. */
    method AnyConditionMet(snapshot: Dependencies) returns (met: bool)
      ensures met == Walk.ConditionMet(config.conditions, snapshot)
    {
      for i := 0 to |config.conditions|
        invariant forall j | 0 <= j < i :: !config.conditions[j](snapshot)
      {
        if config.conditions[i](snapshot) {
          return true;
        }
      }
      return false;
    }

    /** `getImports`: the child list of `pkg`, without its own path and without repeats. */
    method GetImports(pkg: BuildPackage) returns (imports: seq<Package>)
      ensures imports == Imports.Children(pkg, config.includeTests)
    {
      var allImports := pkg.imports;
      if config.includeTests {
        allImports := allImports + pkg.testImports;
        allImports := allImports + pkg.xTestImports;
      }
      imports := [];
      var found: set<string> := {};
      for i := 0 to |allImports|
        invariant imports + Imports.Dedup(allImports[i..], pkg.importPath, found)
               == Imports.Dedup(allImports, pkg.importPath, {})
      {
        var imp := allImports[i];
        assert allImports[i..][1..] == allImports[i + 1..];
        Imports.DedupAdvance(imports, allImports[i..], pkg.importPath, found);
        if imp == pkg.importPath {
          // a test of the package that imports the package itself
          continue;
        }
        if imp in found {
          continue;
        }
        found := found + {imp};
        imports := imports + [imp];
      }
    }

    /** `linesOfCode`: the newline count over the package's source files; a file that cannot be
        read adds nothing. */
    method LinesOfCode(pkg: BuildPackage) returns (loc: nat)
      ensures loc == Lines.LinesOfCode(config.lines, pkg, config.includeTests)
    {
      loc := 0;
      var files := pkg.goFiles;
      files := files + pkg.cgoFiles;
      if config.includeTests {
        files := files + pkg.testGoFiles;
        files := files + pkg.xTestGoFiles;
      }
      for i := 0 to |files|
        invariant loc == Lines.SumLines(config.lines, pkg.dir, files[..i])
      {
        assert files[..i + 1][..i] == files[..i];
        if (pkg.dir, files[i]) in config.lines {
          loc := loc + config.lines[(pkg.dir, files[i])];
        }
      }
      assert files[..|files|] == files;
    }
  }
}
