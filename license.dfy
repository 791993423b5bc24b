/** The license catalogue: the eleven license tiers of the photo service,
    each with a fixed name and link. Any other tier makes the source panic;
    here the lookups require a known tier. */
module Licenses {

  /** The tiers the catalogue knows. */
  predicate IsKnownLicense(t: int)
  {
    0 <= t <= 10
  }

  /** The human-readable name of a tier. */
  function LicenseName(t: int): (name: string)
    requires IsKnownLicense(t)
    ensures name != ""
  {
    match t
    case 0 => "All Rights Reserved"
    case 1 => "Attribution-NonCommercial-ShareAlike License"
    case 2 => "Attribution-NonCommercial License"
    case 3 => "Attribution-NonCommercial-NoDerivs License"
    case 4 => "Attribution License"
    case 5 => "Attribution-ShareAlike License"
    case 6 => "Attribution-NoDerivs License"
    case 7 => "No known copyright restrictions"
    case 8 => "United States Government Work"
    case 9 => "Public Domain Dedication (CC0)"
    case 10 => "Public Domain Mark"
  }

  /** The canonical link of a tier; "All Rights Reserved" has none. */
  function LicenseLink(t: int): (link: string)
    requires IsKnownLicense(t)
    ensures link == "" <==> t == 0
  {
    match t
    case 0 => ""
    case 1 => "https://creativecommons.org/licenses/by-nc-sa/2.0/"
    case 2 => "https://creativecommons.org/licenses/by-nc/2.0/"
    case 3 => "https://creativecommons.org/licenses/by-nc-nd/2.0/"
    case 4 => "https://creativecommons.org/licenses/by/2.0/"
    case 5 => "https://creativecommons.org/licenses/by-sa/2.0/"
    case 6 => "https://creativecommons.org/licenses/by-nd/2.0/"
    case 7 => "https://www.flickr.com/commons/usage/"
    case 8 => "http://www.usa.gov/copyright.shtml"
    case 9 => "https://creativecommons.org/publicdomain/zero/1.0/"
    case 10 => "https://creativecommons.org/publicdomain/mark/1.0/"
  }

  /** "<name> (<link>)". */
  function LicenseDescription(t: int): (d: string)
    requires IsKnownLicense(t)
    ensures |d| == |LicenseName(t)| + |LicenseLink(t)| + 3
    ensures d[..|LicenseName(t)|] == LicenseName(t)
    ensures d[|LicenseName(t)|..|LicenseName(t)| + 2] == " ("
    ensures d[|LicenseName(t)| + 2..|d| - 1] == LicenseLink(t)
    ensures d[|d| - 1] == ')'
  {
    LicenseName(t) + " (" + LicenseLink(t) + ")"
  }

  /** Distinct tiers have distinct names. */
  lemma NamesDistinct(a: int, b: int)
    requires IsKnownLicense(a) && IsKnownLicense(b) && a != b
    ensures LicenseName(a) != LicenseName(b)
  {
  }

  /** Distinct tiers have distinct links (the only empty one is tier 0's). */
  lemma LinksDistinct(a: int, b: int)
    requires IsKnownLicense(a) && IsKnownLicense(b) && a != b
    ensures LicenseLink(a) != LicenseLink(b)
  {
  }

  /** Tiers 1 to 6 link into the Creative Commons license tree... */
  lemma CreativeCommonsLinks(t: int)
    requires 1 <= t <= 6
    ensures "https://creativecommons.org/licenses/" <= LicenseLink(t)
  {
  }

  /** ... at version 2.0. */
  lemma CreativeCommonsVersion(t: int)
    requires 1 <= t <= 6
    ensures var l := LicenseLink(t); |l| >= 5 && l[|l| - 5..] == "/2.0/"
  {
  }

  /** The description of tier 0 ends in an empty pair of brackets. */
  lemma AllRightsReservedDescription()
    ensures LicenseDescription(0) == "All Rights Reserved ()"
  {
  }
}
