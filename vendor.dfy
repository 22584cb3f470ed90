/** Canonicalisation of package identities: `stripVendor` and `StripVendor` (deps/deps.go). */
module Vendor {
  import opened Types

  /** The vendor segment, with the path separator fixed to '/'. */
  const VendorSegment: string := "/vendor/"

  /** `sub` occurs in `s` starting at index `i`. */
  predicate Occurs(s: string, sub: string, i: int) {
    0 <= i && i + |sub| <= |s| && s[i..i + |sub|] == sub
  }

  predicate Contains(s: string, sub: string) {
    exists i | 0 <= i <= |s| :: Occurs(s, sub, i)
  }

  /** The last start index of `sub` at or before `i`, or -1 when there is none. */
  function LastIndexAtOrBefore(s: string, sub: string, i: int): (r: int)
    requires -1 <= i && i + |sub| <= |s|
    decreases i + 1
    ensures -1 <= r <= i
    ensures r >= 0 ==> Occurs(s, sub, r)
    ensures forall j | r < j <= i :: !Occurs(s, sub, j)
  {
    if i < 0 then -1
    else if s[i..i + |sub|] == sub then i
    else LastIndexAtOrBefore(s, sub, i - 1)
  }

  /** `strings.LastIndex`: the start of the last occurrence of `sub` in `s`, or -1. */
  function LastIndex(s: string, sub: string): (r: int)
    ensures r == -1 <==> !Contains(s, sub)
    ensures r != -1 ==> Occurs(s, sub, r) && forall j | Occurs(s, sub, j) :: j <= r
  {
    if |sub| <= |s| then LastIndexAtOrBefore(s, sub, |s| - |sub|) else -1
  }

  /** `stripVendor`: the text after the last vendor segment, or `pkg` itself when there is none. */
  function Strip(pkg: string): (r: Package)
    ensures |r| <= |pkg| && r == pkg[|pkg| - |r|..]
    ensures !Contains(pkg, VendorSegment) ==> r == pkg
    ensures Contains(pkg, VendorSegment) ==>
      var k := |pkg| - |r| - |VendorSegment|;
      Occurs(pkg, VendorSegment, k) && forall j | Occurs(pkg, VendorSegment, j) :: j <= k
  {
    var index := LastIndex(pkg, VendorSegment);
    if index != -1 then pkg[index + |VendorSegment|..] else pkg
  }

  /** `StripVendor`: the stripped name, and whether stripping changed anything. */
  function StripVendor(pkg: Package): (r: (Package, bool))
    ensures r.0 == Strip(pkg)
    ensures r.1 <==> Contains(pkg, VendorSegment)
  {
    var stripped := Strip(pkg);
    (stripped, stripped != pkg)
  }

  /** An occurrence inside a suffix of `s` is an occurrence in `s`, shifted by where the suffix starts. */
  lemma OccursInSuffix(s: string, sub: string, k: nat, j: int)
    requires k <= |s| && Occurs(s[k..], sub, j)
    ensures Occurs(s, sub, k + j)
  {
    assert s[k + j..k + j + |sub|] == s[k..][j..j + |sub|];
  }

  /** The stripped name never contains the vendor segment. */
  lemma StripHasNoVendor(pkg: string)
    ensures !Contains(Strip(pkg), VendorSegment)
  {
    var r := Strip(pkg);
    if Contains(pkg, VendorSegment) {
      if j :| Occurs(r, VendorSegment, j) {
        OccursInSuffix(pkg, VendorSegment, |pkg| - |r|, j);
        assert false;
      }
    }
  }

  /** Canonicalisation is idempotent. */
  lemma StripIdempotent(pkg: string)
    ensures Strip(Strip(pkg)) == Strip(pkg)
  {
    StripHasNoVendor(pkg);
  }

  /** `pre/vendor/post` is canonically `post` when `post`, even behind a separator, holds no
      vendor segment. */
  lemma StripAfterSegment(pre: string, post: string)
    requires !Contains("/" + post, VendorSegment)
    ensures Strip(pre + VendorSegment + post) == post
  {
    var seg := VendorSegment;
    var s := pre + seg + post;
    var k := |pre|;
    assert s[k..k + |seg|] == seg;
    assert Occurs(s, seg, k);
    var r := LastIndex(s, seg);
    assert k <= r;
    if r > k {
      if r < k + 7 {
        InsideSegment(s, k, r);
        assert false;
      } else {
        var t := s[k + 7..];
        assert t == "/" + post;
        assert t[r - k - 7..r - k - 7 + |seg|] == s[r..r + |seg|];
        assert Occurs(t, seg, r - k - 7);
        assert false;
      }
    }
    assert s[k + |seg|..] == post;
  }

  /** No vendor segment starts strictly inside another one, before its closing separator. */
  lemma InsideSegment(s: string, k: int, r: int)
    requires Occurs(s, VendorSegment, k) && k < r < k + 7
    ensures !Occurs(s, VendorSegment, r)
  {
    assert s[r] == s[k..k + |VendorSegment|][r - k];
  }

  /** A string shorter than the vendor segment holds none. */
  lemma ShortHasNoVendor(p: string)
    requires |p| < |VendorSegment|
    ensures !Contains(p, VendorSegment)
  {
  }

  /** A path shorter than the vendor segment is its own canonical name. */
  lemma ShortPathIsCanonical(p: string)
    requires |p| < |VendorSegment|
    ensures Strip(p) == p
  {
    ShortHasNoVendor(p);
  }
}
