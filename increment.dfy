/** The bump arithmetic of `increment_bump` and its helpers, for both version styles. */
module Increment {
  import opened Wrappers
  import opened Text
  import opened Tokens

  /** `VERSION_STYLE_X_Y_Z`, e.g. 1.12.3. */
  const VersionStyleXYZ: string := "X.Y.Z"
  /** `VERSION_STYLE_X_Y`, e.g. 0.51. */
  const VersionStyleXY: string := "X.Y"

  /** The errors the version computation can end with. */
  datatype Error =
    | InvalidVersionStyle(versionStyle: string)            // `InvalidVersionStyle`
    | UnparsableVersion(versionTag: string, versionStyle: string)  // `ValueError("Could not parse version ...")`
    | UnsupportedBump(bump: BumpType)                      // `ValueError("Bump type not supported ...")`
    | NoBumpAfterFiltering                                 // `RuntimeError` in `work`

  datatype Version = Version(major: nat, minor: nat, patch: nat)

  predicate KnownStyle(versionStyle: string) {
    versionStyle == VersionStyleXYZ || versionStyle == VersionStyleXY
  }

  /** How many dot-separated components a version of the style has. */
  function Width(versionStyle: string): nat {
    if versionStyle == VersionStyleXYZ then 3 else 2
  }

  /** `major_bump`. */
  function MajorBump(major: nat): Version {
    Version(major + 1, 0, 0)
  }

  /** `minor_bump`. */
  function MinorBump(major: nat, minor: nat): Version {
    Version(major, minor + 1, 0)
  }

  /** `patch_bump`. */
  function PatchBump(major: nat, minor: nat, patch: nat): Version {
    Version(major, minor, patch + 1)
  }

  /** Versions in their usual (lexicographic) order. */
  predicate Less(a: Version, b: Version) {
    a.major < b.major ||
    (a.major == b.major && a.minor < b.minor) ||
    (a.major == b.major && a.minor == b.minor && a.patch < b.patch)
  }

  /**
   * Each bump gives the least version above the current one that changes the
   * component it bumps: MAJOR the least with a larger major number, MINOR the least
   * with a larger (major, minor) pair, PATCH the immediate successor.
   */
  lemma BumpsAreLeastAbove(v: Version)
    ensures Less(v, MajorBump(v.major)) && Less(v, MinorBump(v.major, v.minor)) && Less(v, PatchBump(v.major, v.minor, v.patch))
    ensures forall w: Version :: v.major < w.major ==> !Less(w, MajorBump(v.major))
    ensures forall w: Version :: Less(Version(v.major, v.minor, 0), Version(w.major, w.minor, 0)) ==> !Less(w, MinorBump(v.major, v.minor))
    ensures forall w: Version :: Less(v, w) ==> !Less(w, PatchBump(v.major, v.minor, v.patch))
  {
  }

  /**
   * `map(int, version_tag.split("."))` unpacked into `width` integers: any other
   * number of components, or a component that is not a decimal numeral, is an error.
   */
  function ParseVersion(versionTag: string, width: nat): Option<Version>
    requires width == 2 || width == 3
  {
    var parts := Split(versionTag, '.');
    if |parts| != width || exists i :: 0 <= i < |parts| && ParseNat(parts[i]).None? then None
    else Some(Version(ParseNat(parts[0]).value, ParseNat(parts[1]).value, if width == 3 then ParseNat(parts[2]).value else 0))
  }

  /** `f"{major}.{minor}.{patch}"`, or `f"{major}.{minor}"` for two components. */
  function ShowVersion(v: Version, width: nat): string
    requires width == 2 || width == 3
  {
    Join(ShowParts(v, width), '.')
  }

  function ShowParts(v: Version, width: nat): (parts: seq<string>)
    requires width == 2 || width == 3
    ensures |parts| == width
    ensures forall i :: 0 <= i < |parts| ==> IsDecimal(parts[i]) && (parts[i][0] == '0' ==> parts[i] == "0")
  {
    if width == 3 then [ShowNat(v.major), ShowNat(v.minor), ShowNat(v.patch)]
    else [ShowNat(v.major), ShowNat(v.minor)]
  }

  /** A printed version reads back as itself (a two-component one carries no patch number). */
  lemma ParseShowVersion(v: Version, width: nat)
    requires width == 2 || width == 3
    requires width == 2 ==> v.patch == 0
    ensures ParseVersion(ShowVersion(v, width), width) == Some(v)
  {
    var parts := ShowParts(v, width);
    forall p | p in parts
      ensures '.' !in p
    {
      var i :| 0 <= i < |parts| && parts[i] == p;
      assert IsDecimal(parts[i]);
    }
    SplitJoin(parts, '.');
    ParseShowNat(v.major);
    ParseShowNat(v.minor);
    ParseShowNat(v.patch);
  }

  /**
   * `increment_bump`: the style is checked first, then the tag is parsed, then the
   * bump type is applied and the result printed in the same style. Under X.Y a PATCH
   * bump is a MINOR bump. The later re-checks of the style in the source cannot fail
   * once the first check has passed.
   */
  function IncrementBump(versionTag: string, bump: BumpType, versionStyle: string): (r: Result<string, Error>)
    ensures !KnownStyle(versionStyle) ==> r == Failure(InvalidVersionStyle(versionStyle))
    ensures KnownStyle(versionStyle) && ParseVersion(versionTag, Width(versionStyle)).None? ==>
      r == Failure(UnparsableVersion(versionTag, versionStyle))
    ensures KnownStyle(versionStyle) && ParseVersion(versionTag, Width(versionStyle)).Some? && bump == NoBump ==>
      r == Failure(UnsupportedBump(NoBump))
    ensures r.Success? ==>
      && KnownStyle(versionStyle) && bump != NoBump
      && ParseVersion(versionTag, Width(versionStyle)).Some?
      && ParseVersion(r.value, Width(versionStyle)).Some?
      && Less(ParseVersion(versionTag, Width(versionStyle)).value, ParseVersion(r.value, Width(versionStyle)).value)
  {
    if !KnownStyle(versionStyle) then Failure(InvalidVersionStyle(versionStyle))
    else
      var width := Width(versionStyle);
      match ParseVersion(versionTag, width)
      case None => Failure(UnparsableVersion(versionTag, versionStyle))
      case Some(v) =>
        var next :=
          match bump
          case Major => Some(MajorBump(v.major))
          case Minor => Some(MinorBump(v.major, v.minor))
          case Patch =>
            if versionStyle == VersionStyleXYZ then Some(PatchBump(v.major, v.minor, v.patch))
            else Some(MinorBump(v.major, v.minor))
          case NoBump => None;
        match next
        case None => Failure(UnsupportedBump(bump))
        case Some(w) =>
          ParseShowVersion(w, width);
          Success(ShowVersion(w, width))
  }

  /**
   * The bump math, read back from the printed result: MAJOR gives (M+1, 0, 0), MINOR
   * (M, N+1, 0), and PATCH (M, N, P+1) under X.Y.Z.
   */
  lemma IncrementArithmetic(versionTag: string, versionStyle: string, v: Version)
    requires KnownStyle(versionStyle)
    requires ParseVersion(versionTag, Width(versionStyle)) == Some(v)
    ensures
      var w := Width(versionStyle);
      var major, minor, patch := IncrementBump(versionTag, Major, versionStyle),
        IncrementBump(versionTag, Minor, versionStyle), IncrementBump(versionTag, Patch, versionStyle);
      && major.Success? && ParseVersion(major.value, w) == Some(Version(v.major + 1, 0, 0))
      && minor.Success? && ParseVersion(minor.value, w) == Some(Version(v.major, v.minor + 1, 0))
      && patch.Success?
      && (versionStyle == VersionStyleXYZ ==> ParseVersion(patch.value, w) == Some(Version(v.major, v.minor, v.patch + 1)))
  {
    var w := Width(versionStyle);
    ParseShowVersion(MajorBump(v.major), w);
    ParseShowVersion(MinorBump(v.major, v.minor), w);
    ParseShowVersion(PatchBump(v.major, v.minor, v.patch), 3);
  }

  /** Under X.Y there is no patch number, so a PATCH bump is a MINOR bump. */
  lemma PatchCollapsesUnderXY(versionTag: string)
    ensures IncrementBump(versionTag, Patch, VersionStyleXY) == IncrementBump(versionTag, Minor, VersionStyleXY)
  {
  }

  /**
   * A result has exactly as many dot-separated components as the style calls for, each
   * a canonical decimal numeral (no sign, no leading zeros).
   */
  lemma OutputShape(versionTag: string, bump: BumpType, versionStyle: string)
    ensures
      var r := IncrementBump(versionTag, bump, versionStyle);
      r.Success? ==>
        var parts := Split(r.value, '.');
        && |parts| == Width(versionStyle)
        && forall i :: 0 <= i < |parts| ==> IsDecimal(parts[i]) && (parts[i][0] == '0' ==> parts[i] == "0")
  {
    var r := IncrementBump(versionTag, bump, versionStyle);
    if r.Success? {
      var width := Width(versionStyle);
      var v := ParseVersion(versionTag, width).value;
      var next :=
        match bump
        case Major => MajorBump(v.major)
        case Minor => MinorBump(v.major, v.minor)
        case Patch =>
          if versionStyle == VersionStyleXYZ then PatchBump(v.major, v.minor, v.patch) else MinorBump(v.major, v.minor)
        case NoBump => v;
      var parts := ShowParts(next, width);
      assert r.value == Join(parts, '.');
      forall p | p in parts
        ensures '.' !in p
      {
        var i :| 0 <= i < |parts| && parts[i] == p;
        assert IsDecimal(parts[i]);
      }
      SplitJoin(parts, '.');
    }
  }
}
