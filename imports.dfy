/** The child list of a package: `getImports` (deps/deps.go). */
module Imports {
  import opened Types

  /** The imports `getImports` scans: direct imports, then in-package and external test imports
      when tests are included. */
  function AllImports(pkg: BuildPackage, includeTests: bool): seq<string> {
    if includeTests then pkg.imports + pkg.testImports + pkg.xTestImports else pkg.imports
  }

  /** The entries of `xs` in order, skipping `self` and every entry already in `found` or seen before. */
  function Dedup(xs: seq<string>, self: string, found: set<string>): seq<Package> {
    if xs == [] then []
    else if xs[0] == self || xs[0] in found then Dedup(xs[1..], self, found)
    else [xs[0]] + Dedup(xs[1..], self, found + {xs[0]})
  }

  /** One step of the scan behind `Dedup`, seen from a list `acc` already collected. */
  lemma DedupAdvance(acc: seq<Package>, xs: seq<string>, self: string, found: set<string>)
    requires xs != []
    ensures xs[0] == self || xs[0] in found ==>
      acc + Dedup(xs, self, found) == acc + Dedup(xs[1..], self, found)
    ensures xs[0] != self && xs[0] !in found ==>
      acc + Dedup(xs, self, found) == (acc + [xs[0]]) + Dedup(xs[1..], self, found + {xs[0]})
  {
    if xs[0] != self && xs[0] !in found {
      var rest := Dedup(xs[1..], self, found + {xs[0]});
      assert acc + ([xs[0]] + rest) == (acc + [xs[0]]) + rest;
    }
  }

  /** The index of the first occurrence of `x` in `xs`. */
  function FirstIndex(xs: seq<string>, x: string): (i: nat)
    requires x in xs
    ensures i < |xs| && xs[i] == x
    ensures forall j | 0 <= j < i :: xs[j] != x
  {
    if xs[0] == x then 0 else 1 + FirstIndex(xs[1..], x)
  }

  /** `getImports`: the child list of `pkg`. */
  function Children(pkg: BuildPackage, includeTests: bool): seq<Package> {
    Dedup(AllImports(pkg, includeTests), pkg.importPath, {})
  }

  /** No entry of `r` occurs twice. */
  predicate Distinct(r: seq<string>) {
    forall i, j | 0 <= i < j < |r| :: r[i] != r[j]
  }

  /** `Dedup` keeps exactly the entries that are neither `self` nor in `found`, each once. */
  lemma {:induction false} DedupFacts(xs: seq<string>, self: string, found: set<string>)
    ensures forall x :: x in Dedup(xs, self, found) <==> x in xs && x != self && x !in found
    ensures Distinct(Dedup(xs, self, found))
  {
    if xs != [] {
      if xs[0] == self || xs[0] in found {
        DedupFacts(xs[1..], self, found);
      } else {
        var rest := Dedup(xs[1..], self, found + {xs[0]});
        DedupFacts(xs[1..], self, found + {xs[0]});
        var r := Dedup(xs, self, found);
        assert r == [xs[0]] + rest;
        forall i, j | 0 <= i < j < |r| ensures r[i] != r[j] {
          assert r[j] == rest[j - 1] && r[j] in rest;
          if i > 0 {
            assert r[i] == rest[i - 1];
          }
        }
      }
    }
  }

  /** The child list never holds the package's own path or a repeated entry, holds every other
      scanned import, and without tests holds only direct imports. */
  lemma ChildrenFacts(pkg: BuildPackage, includeTests: bool)
    ensures pkg.importPath !in Children(pkg, includeTests)
    ensures forall x :: x in Children(pkg, includeTests) <==> x in AllImports(pkg, includeTests) && x != pkg.importPath
    ensures !includeTests ==> forall x | x in Children(pkg, includeTests) :: x in pkg.imports
    ensures Distinct(Children(pkg, includeTests))
  {
    DedupFacts(AllImports(pkg, includeTests), pkg.importPath, {});
  }

  /** The entries of `r`, all taken from `xs`, appear in the order of their first occurrence in `xs`. */
  predicate InFirstOccurrenceOrder(xs: seq<string>, r: seq<string>) {
    && (forall x | x in r :: x in xs)
    && forall i, j | 0 <= i < j < |r| :: FirstIndex(xs, r[i]) < FirstIndex(xs, r[j])
  }

  /** An order over the tail of `xs` that avoids its head is an order over `xs`. */
  lemma OrderShifts(xs: seq<string>, r: seq<string>)
    requires xs != [] && xs[0] !in r && InFirstOccurrenceOrder(xs[1..], r)
    ensures InFirstOccurrenceOrder(xs, r)
  {
    forall y | y in r ensures y in xs && FirstIndex(xs, y) == 1 + FirstIndex(xs[1..], y) {
      assert y != xs[0];
    }
    forall i, j | 0 <= i < j < |r| ensures FirstIndex(xs, r[i]) < FirstIndex(xs, r[j]) {
      assert FirstIndex(xs[1..], r[i]) < FirstIndex(xs[1..], r[j]);
    }
  }

  /** The head of `xs` comes first in any order over `xs`. */
  lemma OrderConses(xs: seq<string>, r: seq<string>)
    requires xs != [] && xs[0] !in r && InFirstOccurrenceOrder(xs, r)
    ensures InFirstOccurrenceOrder(xs, [xs[0]] + r)
  {
    var r' := [xs[0]] + r;
    forall i, j | 0 <= i < j < |r'| ensures FirstIndex(xs, r'[i]) < FirstIndex(xs, r'[j]) {
      assert r'[j] == r[j - 1] && r'[j] != xs[0];
      if i > 0 {
        assert r'[i] == r[i - 1];
      }
    }
  }

  /** `Dedup` keeps entries in the order of their first occurrence. */
  lemma {:induction false} DedupKeepsFirstOccurrenceOrder(xs: seq<string>, self: string, found: set<string>)
    ensures InFirstOccurrenceOrder(xs, Dedup(xs, self, found))
  {
    if xs != [] {
      var skip := xs[0] == self || xs[0] in found;
      var found' := if skip then found else found + {xs[0]};
      var rest := Dedup(xs[1..], self, found');
      DedupFacts(xs[1..], self, found');
      DedupKeepsFirstOccurrenceOrder(xs[1..], self, found');
      OrderShifts(xs, rest);
      if !skip {
        assert Dedup(xs, self, found) == [xs[0]] + rest;
        OrderConses(xs, rest);
      }
    }
  }

  /** The child list keeps first-occurrence order of the scanned imports. */
  lemma ChildrenKeepFirstOccurrenceOrder(pkg: BuildPackage, includeTests: bool)
    ensures InFirstOccurrenceOrder(AllImports(pkg, includeTests), Children(pkg, includeTests))
  {
    assert Children(pkg, includeTests) == Dedup(AllImports(pkg, includeTests), pkg.importPath, {});
    DedupKeepsFirstOccurrenceOrder(AllImports(pkg, includeTests), pkg.importPath, {});
  }
}
