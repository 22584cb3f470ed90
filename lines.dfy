/** The line count recorded for a package: `linesOfCode` (deps/deps.go), over an abstract per-file count. */
module Lines {
  import opened Types

  /** `countLines` of one file: its newline count, or 0 when it cannot be opened or read. */
  function FileLines(lines: map<(string, string), nat>, dir: string, file: string): nat {
    if (dir, file) in lines then lines[(dir, file)] else 0
  }

  /** The total of `FileLines` over `files`, accumulated front to back. */
  function SumLines(lines: map<(string, string), nat>, dir: string, files: seq<string>): nat {
    if files == [] then 0
    else SumLines(lines, dir, files[..|files| - 1]) + FileLines(lines, dir, files[|files| - 1])
  }

  /** The files `linesOfCode` counts: Go and cgo files, then test and external test files when
      tests are included. */
  function SourceFiles(pkg: BuildPackage, includeTests: bool): seq<string> {
    if includeTests then pkg.goFiles + pkg.cgoFiles + pkg.testGoFiles + pkg.xTestGoFiles
    else pkg.goFiles + pkg.cgoFiles
  }

  function LinesOfCode(lines: map<(string, string), nat>, pkg: BuildPackage, includeTests: bool): nat {
    SumLines(lines, pkg.dir, SourceFiles(pkg, includeTests))
  }

  /** The count over a concatenation is the sum of the counts. */
  lemma {:induction false} SumLinesAppend(lines: map<(string, string), nat>, dir: string, a: seq<string>, b: seq<string>)
    ensures SumLines(lines, dir, a + b) == SumLines(lines, dir, a) + SumLines(lines, dir, b)
  {
    if b != [] {
      assert (a + b)[..|a + b| - 1] == a + b[..|b| - 1];
      SumLinesAppend(lines, dir, a, b[..|b| - 1]);
    } else {
      assert a + b == a;
    }
  }

  /** Including tests adds exactly the test files' counts; each file counts once, unreadable ones as 0. */
  lemma TestsAddTheirLines(lines: map<(string, string), nat>, pkg: BuildPackage)
    ensures LinesOfCode(lines, pkg, true)
         == LinesOfCode(lines, pkg, false)
            + SumLines(lines, pkg.dir, pkg.testGoFiles) + SumLines(lines, pkg.dir, pkg.xTestGoFiles)
  {
    var sources := pkg.goFiles + pkg.cgoFiles;
    SumLinesAppend(lines, pkg.dir, sources, pkg.testGoFiles);
    SumLinesAppend(lines, pkg.dir, sources + pkg.testGoFiles, pkg.xTestGoFiles);
  }
}
