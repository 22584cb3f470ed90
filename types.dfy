/** The records the dependency builder works on (deps/deps.go), and the graph store it fills. */
module Types {

  /** A package identity: an import path, canonical once the vendor prefix is stripped. */
  type Package = string

  /** A compiled regular expression, seen only through its `MatchString` capability. */
  type Regexp = string -> bool

  datatype Option<T> = None | Some(value: T)

  /** The errors `addPackage` can return: a failed `BuildContext.Import`, or the `termination` sentinel. */
  datatype Error = ImportError(importPath: string) | Termination

  /** What `BuildContext.Import` reports about one package (the fields of `build.Package` the builder reads). */
  datatype BuildPackage = BuildPackage(
    importPath: string,
    dir: string,
    goroot: bool,
    imports: seq<string>,
    testImports: seq<string>,
    xTestImports: seq<string>,
    goFiles: seq<string>,
    cgoFiles: seq<string>,
    testGoFiles: seq<string>,
    xTestGoFiles: seq<string>)

  datatype DependencyInfo = DependencyInfo(loc: nat)

  /** The forward graph: each node with the set of packages it has edges to. */
  type Graph = map<Package, set<Package>>

  datatype Dependencies = Dependencies(
    forward: Graph,
    ignored: set<Package>,
    info: map<Package, DependencyInfo>)

  /** A termination condition, evaluated against the growing result. */
  type Condition = Dependencies -> bool

  /** The settings of a `Builder`. `context` is `BuildContext.Import` against the builder's fixed
      `BaseDir`: a path it cannot resolve is absent. `lines` gives the newline count of each readable
      source file, keyed by (package directory, file name); a file that cannot be read is absent. */
  datatype Config = Config(
    context: map<string, BuildPackage>,
    lines: map<(string, string), nat>,
    roots: seq<Package>,
    conditions: seq<Condition>,
    ignored: seq<Regexp>,
    included: seq<Regexp>,
    includeTests: bool,
    includeStdlib: bool)

  /** The fresh result `Build` starts from. */
  function EmptyDependencies(): Dependencies {
    Dependencies(map[], {}, map[])
  }

  predicate HasNode(g: Graph, p: Package) {
    p in g
  }

  /** `Graph.Pkg`: the node for `p`, created with no edges if it is not there yet. */
  function AddNode(g: Graph, p: Package): Graph {
    if p in g then g else g[p := {}]
  }

  /** `Graph.Pkg(from).Insert(to)`: adds the edge without making `to` a node. */
  function InsertEdge(g: Graph, from: Package, to: Package): Graph {
    var node := AddNode(g, from);
    node[from := node[from] + {to}]
  }

  /** An edge from a node that is already there changes only that node's edge set. */
  lemma InsertEdgeAtNode(g: Graph, from: Package, to: Package)
    requires from in g
    ensures InsertEdge(g, from, to).Keys == g.Keys
    ensures InsertEdge(g, from, to)[from] == g[from] + {to}
    ensures forall p | p in g && p != from :: InsertEdge(g, from, to)[p] == g[p]
  {
  }
}
