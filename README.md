# godepq dependency builder, modelled in Dafny

This project models the dependency-graph builder of godepq (`deps/deps.go`). Starting from a list of root packages, the builder walks their imports depth first. It does four things:

- It canonicalises every package identity by dropping everything up to the last `/vendor/` segment.
- It filters packages by ignore patterns, include patterns and a standard-library switch.
- It records each accepted package once, as a node of the forward graph with its line count. A package that is already a node is not walked again, so import cycles are safe.
- It evaluates the termination conditions after each new node. The first one that holds unwinds the whole walk, and `Build` turns that unwinding into success with the partial graph.

The model has eight modules:

- `Types`: the records (`BuildPackage`, `Dependencies`, `Config`, the two errors) and the graph store (`AddNode` is `Graph.Pkg`; `InsertEdge` is `Pkg(from).Insert(to)`, which never creates the target node).
- `Vendor`: `stripVendor` and `StripVendor`, with `strings.LastIndex` written out.
- `Filter`: `isIgnored`, `isIncluded`, `isAccepted`.
- `Imports`: the child list that `getImports` builds.
- `Lines`: `linesOfCode` over an abstract per-file newline count.
- `Walk`: a functional reference for `addPackage`, its loop over the children, `addAllPackages` and `Build`. Each function returns the new `Dependencies` together with what the Go function returns. The recursion terminates on the number of canonical names in the finite provider that are not yet nodes. The invariants of the walk are proved about these functions.
- `Deps`: the class `Builder`, whose field `deps` is updated in place as in the Go code. Each method is proved to return exactly the values, and leave exactly the state, that `Walk` prescribes. `GetImports` and `LinesOfCode` are proved equal to the `Imports` and `Lines` definitions.
- `Scenarios`: worked walks on small providers. Each is proved once for every provider of that shape, then for a concrete one: an import cycle, a termination condition cutting a chain, a root outside the include list, an unresolvable import, a test importing its own package, and two vendored copies of one library.

Abstractions:

- `BuildContext.Import` against the builder's fixed `BaseDir` is the map `Config.context`. A path missing from it is a resolution failure, reported as `ImportError(path)`.
- A regular expression is a predicate `string -> bool`, and a termination condition is a predicate on `Dependencies`.
- `countLines` is the map `Config.lines` from (package directory, file name) to a newline count. A file missing from it could not be read and counts 0.
- The path separator is `/`.

## Model

| member | source | states |
|---|---|---|
| Vendor.LastIndex | deps/deps.go:220 | -1 exactly when the segment does not occur; otherwise an occurrence with no later one |
| Vendor.Strip | deps/deps.go:218-224 | the result is a suffix of the input; without a vendor segment it is the input; otherwise it is what follows the last vendor segment |
| Vendor.StripVendor | deps/deps.go:213-216 | the stripped name, with the flag true exactly when the input contains a vendor segment, that is, when stripping changed it |
| Vendor.StripHasNoVendor | deps/deps.go:218-224 | a stripped name never contains a vendor segment |
| Vendor.StripIdempotent | deps/deps.go:218-224 | stripping twice gives the same name as stripping once |
| Vendor.StripAfterSegment | deps/deps.go:218-224 | `pre` + `/vendor/` + `post` is canonically `post` whenever `post`, even behind a separator, holds no vendor segment |
| Vendor.ShortPathIsCanonical | deps/deps.go:218-224 | a path shorter than the vendor segment is its own canonical name |
| Filter.Matches | deps/deps.go:181-186 | true exactly when some pattern of the list matches the name |
| Filter.IsIgnored | deps/deps.go:180-187 | true exactly when some ignore pattern matches |
| Filter.IsIncluded | deps/deps.go:189-199 | true for an empty include list; otherwise true exactly when some include pattern matches |
| Filter.IsAccepted | deps/deps.go:201-211 | an ignore match rejects even when an include pattern matches; a standard-library package is rejected unless the switch is set; otherwise the include rule decides; all tests are on the stripped name |
| Imports.DedupAdvance | deps/deps.go:166-176 | one step of the child-list scan: a self path or a seen path is skipped, any other is appended and marked as seen |
| Imports.DedupFacts | deps/deps.go:164-176 | the scan keeps exactly the entries that are neither the own path nor already seen, each once |
| Imports.ChildrenFacts | deps/deps.go:158-178 | about `Imports.Children`, the model of `getImports`: the child list never holds the package's own path, holds every other scanned import, holds no repeat, and without tests holds only direct imports |
| Imports.DedupKeepsFirstOccurrenceOrder | deps/deps.go:166-176 | the kept entries appear in the order of their first occurrence |
| Imports.ChildrenKeepFirstOccurrenceOrder | deps/deps.go:158-178 | the child list follows first-occurrence order of direct, then test, then external test imports |
| Lines.SumLinesAppend | deps/deps.go:235-242 | the count over two concatenated file lists is the sum of their counts |
| Lines.TestsAddTheirLines | deps/deps.go:226-244 | about `Lines.LinesOfCode`, the model of `linesOfCode`: including tests adds exactly the counts of the test and external test files |
| Types.InsertEdgeAtNode | deps/deps.go:152 | about `Types.InsertEdge`, the model of `Pkg(from).Insert(to)`, over `Types.AddNode`, the model of `Pkg`: an edge from an existing node changes only that node's edge set and adds no node |
| Walk.AddPackage | deps/deps.go:107-156 | nodes are never removed; a non-empty returned name is the canonical name of a resolvable package and is a node afterwards |
| Walk.AddImports | deps/deps.go:142-153 | nodes are never removed; the name returned is always the parent's |
| Walk.ShortcutCases | deps/deps.go:108-127 | `"C"` changes nothing; an unresolvable path is its error with nothing changed; a rejected package is only added to the ignored set under its stripped name and yields `""`; a package already a node is returned with nothing changed |
| Walk.TerminationBranch | deps/deps.go:129-139 | when a condition holds right after the new node and its info are recorded, that snapshot is returned with the termination sentinel and no child is visited |
| Walk.ChildrenBranch | deps/deps.go:129-142 | otherwise the children are walked from that snapshot, and fewer canonical packages remain unwalked |
| Walk.ImportsStep | deps/deps.go:142-153 | a child's error ends the loop with the state the child left; otherwise the loop goes on after the edge to an included child |
| Walk.LinkKeepsNodes | deps/deps.go:147-152 | adding the edge to a child never removes a node |
| Walk.AddAllSteps | deps/deps.go:89-101 | about `Walk.AddAll`, the model of `addAllPackages`: the first root whose walk fails ends `addAllPackages` with that error; any other root, including one that is not included, lets it go on with the next |
| Walk.Build | deps/deps.go:74-87 | the dependencies returned are exactly the partial ones `addAllPackages` leaves from empty dependencies, also when an error is returned; the result satisfies the invariant below; the sentinel is never returned; an error is the resolution failure of a path the provider does not know; when the walk was cut short, the result is success and a condition holds of it |
| Walk.UnwalkedMonotone | deps/deps.go:124-130 | about the termination measure, a proof device with no counterpart in the Go code: more nodes never leave more canonical packages unwalked |
| Walk.UnwalkedDrops | deps/deps.go:124-130 | about the termination measure, a proof device with no counterpart in the Go code: a new node that is a canonical package leaves strictly fewer unwalked |
| Walk.InsertedShrinksUnwalked | deps/deps.go:129-134 | about the termination measure, a proof device with no counterpart in the Go code: creating the node of a resolvable package not yet walked leaves strictly fewer unwalked |
| Walk.InsertedGrows | deps/deps.go:129-134 | about `Walk.Inserted`, the state after the node and its info are recorded: creating a node keeps every node, edge, ignored package and info entry |
| Walk.LinkGrows | deps/deps.go:152 | about `Walk.Link`, the edge after an included child: adding an edge keeps every node, edge, ignored package and info entry |
| Walk.NodeAddedConsistent | deps/deps.go:129-134 | a node created together with its info keeps the invariant |
| Walk.InsertedConsistent | deps/deps.go:129-134 | recording a resolvable package keeps the invariant |
| Walk.LinkConsistent | deps/deps.go:143-152 | an edge to a child that is a node keeps the invariant |
| Walk.AddPackageGrows | deps/deps.go:107-156 | `addPackage` loses no node, edge or ignored package, and never rewrites an info entry |
| Walk.AddImportsGrows | deps/deps.go:142-153 | the same for the loop over the children |
| Walk.AddAllGrows | deps/deps.go:89-101 | the same for `addAllPackages` |
| Walk.AddPackageConsistent | deps/deps.go:107-156 | invariant kept: the info keys are exactly the nodes; every edge leads to a node; nodes and ignored names are canonical names of resolvable packages |
| Walk.AddImportsConsistent | deps/deps.go:142-153 | the same invariant for the loop over the children |
| Walk.AddAllConsistent | deps/deps.go:89-101 | the same invariant for `addAllPackages` |
| Walk.AddPackageErrors | deps/deps.go:113-146 | the sentinel comes back only with a snapshot some condition holds of; a resolution error names a path the provider does not know |
| Walk.AddImportsErrors | deps/deps.go:142-146 | the same for the loop over the children, which passes a child's error up unchanged |
| Walk.AddAllErrors | deps/deps.go:89-95 | the same for `addAllPackages` |
| Scenarios.VendoredDeep | deps/deps.go:218-224 | `proj/internal_copy/vendor/lib/x` is canonically `lib/x` |
| Scenarios.VendoredFlag | deps/deps.go:213-216 | `p/vendor/lib` gives `lib` flagged as vendored; `lib` gives itself, not flagged |
| Scenarios.ImportCycle | deps/deps.go:124-152 | two packages importing each other, walked from one of them: the walk ends without error, each is a node once, the edges are exactly a -> b and b -> a, and nothing is ignored |
| Scenarios.ImportCycleExample | deps/deps.go:74-156 | for the provider where "a" imports "b" and "b" imports "a": no error, the nodes "a" and "b", the edges exactly a -> b and b -> a, and nothing ignored |
| Scenarios.EarlyTermination | deps/deps.go:136-146 | a condition that first holds when the root's child is recorded stops the walk: `Build` succeeds with exactly the root and that child as nodes and as info entries, nothing ignored, so none of the child's children walked, and no edge added |
| Scenarios.EarlyTerminationExample | deps/deps.go:82-86 | on the chain r -> a -> b with the condition "two packages known", `Build` succeeds with nodes r and a, and b is never walked |
| Scenarios.RootNotIncluded | deps/deps.go:89-100 | a rejected first root is only recorded as ignored, under its canonical name, and the second root is still walked |
| Scenarios.RootNotIncludedExample | deps/deps.go:118-122 | roots "x" and "y" with only "y" included: "y" is the one node and "x" the one ignored package |
| Scenarios.UnresolvedImport | deps/deps.go:113-116 | a child the provider cannot resolve ends `Build` with that child's resolution error, and the root stays the only node |
| Scenarios.UnresolvedImportExample | deps/deps.go:143-146 | root "a" importing the unknown "m": `Build` fails with the resolution error of "m" and "a" is the only node |
| Scenarios.TestImportOfItself | deps/deps.go:158-171 | with tests included, a root whose only import is its own path, from an external test, is walked without error and gets no self edge |
| Scenarios.TestImportOfItselfExample | deps/deps.go:166-170 | the same for the package "a" whose external test imports "a" |
| Scenarios.VendoredCopiesMerge | deps/deps.go:118-152 | two import paths with one canonical name are one node, walked once: its info is the one recorded for the first copy, nothing is ignored, and the importer has a single edge to it |
| Scenarios.VendoredCopiesExample | deps/deps.go:118-127 | "r" importing "p/vendor/lib" and "q/vendor/lib" gives the nodes "r" and "lib" and the one edge r -> lib |
| Deps.Builder.constructor | deps/deps.go:50-72 | a builder with the given settings and empty dependencies |
| Deps.Builder.Build | deps/deps.go:74-87 | resets the dependencies, walks the roots, and returns exactly `Walk.Build`: a consistent result and never the sentinel |
| Deps.Builder.AddAllPackages | deps/deps.go:89-101 | returns and leaves exactly what `Walk.AddAll` prescribes |
| Deps.Builder.AddPackage | deps/deps.go:107-141 | returns and leaves exactly what `Walk.AddPackage` prescribes; `"C"` leaves the dependencies unchanged; nodes are never removed |
| Deps.Builder.AddChildren | deps/deps.go:142-155 | the loop over the children leaves exactly what `Walk.AddImports` prescribes |
| Deps.Builder.AnyConditionMet | deps/deps.go:136-140 | true exactly when some termination condition holds of the snapshot |
| Deps.Builder.GetImports | deps/deps.go:158-178 | returns exactly the child list `Imports.Children` |
| Deps.Builder.LinesOfCode | deps/deps.go:226-244 | returns exactly `Lines.LinesOfCode` for the builder's test switch |

## Left out

- `countLines` and the file reads of `linesOfCode` (deps/deps.go:235-269) are file I/O. The newline count of each readable file is an input map, and an unreadable file counts 0.
- `Resolve` and `BuildContext.Import` (deps/deps.go:42-48, 113) resolve paths against the file system through `go/build`. They are replaced by the finite provider map at the builder's fixed `BaseDir`, so `BaseDir` is not a separate field. `Resolve` itself is not modelled.
- `regexp.Regexp.MatchString` (deps/deps.go:182, 194) belongs to a foreign regular-expression engine. A pattern is an abstract predicate.
- The warning for an excluded root and the `log.Printf` for an unreadable file (deps/deps.go:97, 238) are diagnostic output only.
- `os.PathSeparator` (deps/deps.go:219) is fixed to `/`, and `filepath.Join` of the directory and file name is the key pair `(dir, file)`.
- The `Graph` and `Set` types are not part of this model. They are modelled as `map<Package, set<Package>>` and `set<Package>`, with `Pkg` as get-or-create and `Insert` adding only the edge.
- `Deps.Builder.LinesOfCode` returns a `nat`, while the Go sum is a machine `int`. Overflow of that sum is not modelled.
- Termination conditions and regular expressions are taken to be pure functions of their argument, as memoisation requires.
- `Deps.Builder.AddChildren` and `Deps.Builder.AnyConditionMet` are the two loops inside Go's `addPackage`, each given its own method. The loops and their order are unchanged.
