/** The package filter: `isIgnored`, `isIncluded` and `isAccepted` (deps/deps.go). */
module Filter {
  import opened Types
  import Vendor

  /** The "any pattern matches" scan shared by the ignore and include lists. */
  function Matches(patterns: seq<Regexp>, name: Package): (r: bool)
    ensures r <==> exists i | 0 <= i < |patterns| :: patterns[i](name)
  {
    if patterns == [] then false
    else if patterns[0](name) then true
    else
      assert forall i | 1 <= i < |patterns| :: patterns[i] == patterns[1..][i - 1];
      Matches(patterns[1..], name)
  }

  /** `isIgnored`: some ignore pattern matches the name. */
  function IsIgnored(c: Config, name: Package): (r: bool)
    ensures r <==> exists i | 0 <= i < |c.ignored| :: c.ignored[i](name)
  {
    Matches(c.ignored, name)
  }

  /** `isIncluded`: the include list is empty, or one of its patterns matches the name. */
  function IsIncluded(c: Config, name: Package): (r: bool)
    ensures |c.included| == 0 ==> r
    ensures |c.included| > 0 ==> (r <==> exists i | 0 <= i < |c.included| :: c.included[i](name))
  {
    if |c.included| == 0 then true else Matches(c.included, name)
  }

  /** `isAccepted`: ignore patterns first, then the standard-library switch, then the include list,
      all tested on the stripped name. */
  function IsAccepted(c: Config, pkg: BuildPackage): (r: bool)
    ensures var name := Vendor.Strip(pkg.importPath);
      (exists i | 0 <= i < |c.ignored| :: c.ignored[i](name)) ==> !r
    ensures pkg.goroot && !c.includeStdlib ==> !r
    ensures var name := Vendor.Strip(pkg.importPath);
      |c.included| == 0 ==>
        (r <==> !(exists i | 0 <= i < |c.ignored| :: c.ignored[i](name)) && !(pkg.goroot && !c.includeStdlib))
    ensures var name := Vendor.Strip(pkg.importPath);
      |c.included| > 0 ==>
        (r <==> && !(exists i | 0 <= i < |c.ignored| :: c.ignored[i](name))
                && !(pkg.goroot && !c.includeStdlib)
                && (exists i | 0 <= i < |c.included| :: c.included[i](name)))
  {
    var name := Vendor.Strip(pkg.importPath);
    if IsIgnored(c, name) then false
    else if pkg.goroot && !c.includeStdlib then false
    else IsIncluded(c, name)
  }
}
