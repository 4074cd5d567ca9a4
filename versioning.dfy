/**
 * Semantic versions for model directories (part5/ml_versioning.py):
 * parsing and formatting `vMAJOR.MINOR.PATCH`, incrementing one level, the
 * version chosen and the metadata written by `update_model_version`, and
 * the git tag name.
 */
module Versioning {
  import opened Wrappers
  import opened Text
  import opened JsonValue

  datatype Version = Version(major: nat, minor: nat, patch: nat)

  const InvalidFormat: string := "Invalid version format: "
  const InvalidLevel: string := "Invalid increment level: "

  /** Strict lexicographic order on (major, minor, patch). */
  predicate Newer(a: Version, b: Version) {
    a.major > b.major
    || (a.major == b.major && a.minor > b.minor)
    || (a.major == b.major && a.minor == b.minor && a.patch > b.patch)
  }

  /** `\d+` at the start of `t`: the value of the digit run and the text after it. */
  function LeadingNumber(t: string): (r: Option<(nat, string)>)
    ensures r.Some? ==> |r.value.1| < |t|
  {
    var d := TakeDigits(t);
    if d == [] then None else Some((DigitsValue(d), t[|d|..]))
  }

  /** `\.` followed by `\d+` at the start of `t`. */
  function DotNumber(t: string): Option<(nat, string)> {
    if t == [] || t[0] != '.' then None else LeadingNumber(t[1..])
  }

  /** `(\d+)\.(\d+)\.(\d+)` matched at the start of `t`, digit runs taken whole. */
  function MatchTriple(t: string): Option<Version> {
    match LeadingNumber(t)
    case None => None
    case Some((x, r1)) =>
      match DotNumber(r1)
      case None => None
      case Some((y, r2)) =>
        match DotNumber(r2)
        case None => None
        case Some((z, _)) => Some(Version(x, y, z))
  }

  /** The text after the optional `v` of the pattern. */
  function AfterV(s: string): string {
    if s != [] && s[0] == 'v' then s[1..] else s
  }

  /**
   * `parse_version` (lines 23-30): an optional `v`, then three digit runs
   * separated by dots at the start of the string; the rest is ignored.
   */
  function ParseVersion(s: string): (r: Result<Version>)
    ensures r.Err? ==> r.error == ValueError(InvalidFormat + s)
    ensures r.Ok? ==> s != [] && (s[0] == 'v' || IsDigit(s[0]))
  {
    var m := MatchTriple(AfterV(s));
    if m.None? then Err(ValueError(InvalidFormat + s)) else Ok(m.value)
  }

  /** `format_version` (lines 33-35). */
  function FormatVersion(v: Version): string {
    "v" + NatToString(v.major) + "." + NatToString(v.minor) + "." + NatToString(v.patch)
  }

  lemma {:induction false} TakeDigitsOfPrefix(d: string, rest: string)
    requires AllDigits(d) && (rest == [] || !IsDigit(rest[0]))
    ensures TakeDigits(d + rest) == d
  {
    if d != [] {
      assert (d + rest)[1..] == d[1..] + rest;
      TakeDigitsOfPrefix(d[1..], rest);
    } else {
      assert d + rest == rest;
    }
  }

  lemma LeadingNumberOf(d: string, rest: string)
    requires d != [] && AllDigits(d) && (rest == [] || !IsDigit(rest[0]))
    ensures LeadingNumber(d + rest) == Some((DigitsValue(d), rest))
  {
    TakeDigitsOfPrefix(d, rest);
    assert (d + rest)[|d|..] == rest;
  }

  lemma DotNumberOf(d: string, rest: string)
    requires d != [] && AllDigits(d) && (rest == [] || !IsDigit(rest[0]))
    ensures DotNumber("." + (d + rest)) == Some((DigitsValue(d), rest))
  {
    assert ("." + (d + rest))[1..] == d + rest;
    LeadingNumberOf(d, rest);
  }

  /** Three digit runs separated by dots, followed by text that does not continue the last run, match whole. */
  lemma MatchTripleOf(a: string, b: string, c: string, suffix: string, v: Version)
    requires a != [] && b != [] && c != [] && AllDigits(a) && AllDigits(b) && AllDigits(c)
    requires DigitsValue(a) == v.major && DigitsValue(b) == v.minor && DigitsValue(c) == v.patch
    requires suffix == [] || !IsDigit(suffix[0])
    ensures MatchTriple(a + ("." + (b + ("." + (c + suffix))))) == Some(v)
  {
    var r2 := "." + (c + suffix);
    var r1 := "." + (b + r2);
    LeadingNumberOf(a, r1);
    DotNumberOf(b, r2);
    DotNumberOf(c, suffix);
  }

  /**
   * `s` is what `v?(\d+)\.(\d+)\.(\d+)` matches, split into its parts: an
   * optional `v`, three digit runs with a dot between each, and a rest that
   * does not continue the last run.
   */
  predicate VersionText(s: string, p: string, a: string, b: string, c: string, rest: string) {
    && (p == "" || p == "v")
    && a != [] && b != [] && c != [] && AllDigits(a) && AllDigits(b) && AllDigits(c)
    && (rest == [] || !IsDigit(rest[0]))
    && s == p + (a + ("." + (b + ("." + (c + rest)))))
  }

  /** An optional `v` followed by three dotted digit runs parses to their values. */
  lemma ParseVersionOf(p: string, a: string, b: string, c: string, suffix: string, v: Version)
    requires p == "" || p == "v"
    requires a != [] && b != [] && c != [] && AllDigits(a) && AllDigits(b) && AllDigits(c)
    requires DigitsValue(a) == v.major && DigitsValue(b) == v.minor && DigitsValue(c) == v.patch
    requires suffix == [] || !IsDigit(suffix[0])
    ensures ParseVersion(p + (a + ("." + (b + ("." + (c + suffix)))))) == Ok(v)
  {
    var t := a + ("." + (b + ("." + (c + suffix))));
    MatchTripleOf(a, b, c, suffix, v);
    assert t[0] == a[0];
    AfterPrefix(p, t);
  }

  /** With or without the `v`, the parser goes on at the digits that follow. */
  lemma AfterPrefix(p: string, t: string)
    requires p == "" || p == "v"
    requires t != [] && IsDigit(t[0])
    ensures AfterV(p + t) == t
  {
    if p == "v" {
      assert (p + t)[1..] == t;
    } else {
      assert p + t == t;
    }
  }

  /** A matched digit run is the whole run of digits at the start of `t`, and the rest follows it. */
  lemma LeadingNumberSplit(t: string)
    requires LeadingNumber(t).Some?
    ensures var d := TakeDigits(t); var rest := LeadingNumber(t).value.1;
      && d != [] && AllDigits(d) && t == d + rest
      && (rest == [] || !IsDigit(rest[0]))
  {
    var d := TakeDigits(t);
    assert t == d + t[|d|..];
  }

  /** A matched `\.\d+` is a dot, the whole digit run after it, and the rest. */
  lemma DotNumberSplit(t: string)
    requires DotNumber(t).Some?
    ensures var d := TakeDigits(t[1..]); var rest := DotNumber(t).value.1;
      && d != [] && AllDigits(d) && t == "." + (d + rest)
      && (rest == [] || !IsDigit(rest[0]))
  {
    LeadingNumberSplit(t[1..]);
    assert t == "." + t[1..];
  }

  /** The parts of a text `parse_version` accepts. */
  lemma ParseVersionSplit(s: string) returns (p: string, a: string, b: string, c: string, rest: string)
    requires ParseVersion(s).Ok?
    ensures VersionText(s, p, a, b, c, rest)
  {
    p := if s[0] == 'v' then "v" else "";
    var t := AfterV(s);
    assert s == p + t;
    assert MatchTriple(t).Some?;
    LeadingNumberSplit(t);
    a := TakeDigits(t);
    var r1 := LeadingNumber(t).value.1;
    DotNumberSplit(r1);
    b := TakeDigits(r1[1..]);
    var r2 := DotNumber(r1).value.1;
    DotNumberSplit(r2);
    c := TakeDigits(r2[1..]);
    rest := DotNumber(r2).value.1;
  }

  /**
   * `parse_version` succeeds exactly on text that starts with a match of
   * its pattern, and then reads the three digit runs; otherwise it raises.
   */
  lemma ParseVersionExactly(s: string)
    ensures ParseVersion(s).Ok? <==> exists p, a, b, c, rest :: VersionText(s, p, a, b, c, rest)
    ensures forall p, a, b, c, rest :: VersionText(s, p, a, b, c, rest) ==>
      ParseVersion(s) == Ok(Version(DigitsValue(a), DigitsValue(b), DigitsValue(c)))
  {
    if ParseVersion(s).Ok? {
      var p, a, b, c, rest := ParseVersionSplit(s);
    }
    forall p, a, b, c, rest | VersionText(s, p, a, b, c, rest)
      ensures ParseVersion(s) == Ok(Version(DigitsValue(a), DigitsValue(b), DigitsValue(c)))
    {
      ParseVersionOf(p, a, b, c, rest, Version(DigitsValue(a), DigitsValue(b), DigitsValue(c)));
    }
  }

  /**
   * Formatting then parsing gives the version back, also with any suffix
   * that does not continue the last digit run (`"v1.2.3-rc"` reads as 1.2.3).
   */
  lemma ParseFormatRoundTrip(v: Version, suffix: string)
    requires suffix == [] || !IsDigit(suffix[0])
    ensures ParseVersion(FormatVersion(v) + suffix) == Ok(v)
  {
    var a, b, c := NatToString(v.major), NatToString(v.minor), NatToString(v.patch);
    assert FormatVersion(v) + suffix == "v" + (a + ("." + (b + ("." + (c + suffix)))));
    NatToStringRoundTrip(v.major);
    NatToStringRoundTrip(v.minor);
    NatToStringRoundTrip(v.patch);
    ParseVersionOf("v", a, b, c, suffix, v);
  }

  /** Leading zeros do not change a digit run's value (`"v1.01.0"` reads as 1.1.0). */
  lemma {:induction false} LeadingZeroIgnored(ds: string)
    requires AllDigits(ds)
    ensures DigitsValue("0" + ds) == DigitsValue(ds)
  {
    if ds != [] {
      var init := ds[..|ds| - 1];
      assert ("0" + ds)[..|ds|] == "0" + init;
      LeadingZeroIgnored(init);
    }
  }

  lemma ParseFormat(v: Version)
    ensures ParseVersion(FormatVersion(v)) == Ok(v)
  {
    ParseFormatRoundTrip(v, "");
    assert FormatVersion(v) + "" == FormatVersion(v);
  }

  /** The version `level` asks for, or `None` for a level other than major, minor or patch. */
  function Bump(v: Version, level: string): (r: Option<Version>)
    ensures r.Some? <==> level in {"major", "minor", "patch"}
    ensures r.Some? ==> Newer(r.value, v)
  {
    if level == "major" then Some(Version(v.major + 1, 0, 0))
    else if level == "minor" then Some(Version(v.major, v.minor + 1, 0))
    else if level == "patch" then Some(Version(v.major, v.minor, v.patch + 1))
    else None
  }

  /**
   * `increment_version` (lines 38-58): a malformed version raises before the
   * level is looked at; an unknown level raises next.
   */
  function IncrementVersion(s: string, level: string): (r: Result<string>)
    ensures ParseVersion(s).Err? ==> r == Err(ParseVersion(s).error)
    ensures ParseVersion(s).Ok? && !(level in {"major", "minor", "patch"}) ==>
      r == Err(ValueError(InvalidLevel + level))
  {
    var p := ParseVersion(s);
    if p.Err? then Err(p.error)
    else
      var b := Bump(p.value, level);
      if b.None? then Err(ValueError(InvalidLevel + level))
      else Ok(FormatVersion(b.value))
  }

  /** An incremented version reads back as strictly newer than the one it came from. */
  lemma IncrementIsNewer(s: string, level: string)
    requires IncrementVersion(s, level).Ok?
    ensures ParseVersion(s).Ok?
    ensures var r := ParseVersion(IncrementVersion(s, level).value);
      r.Ok? && Newer(r.value, ParseVersion(s).value) && Some(r.value) == Bump(ParseVersion(s).value, level)
  {
    ParseFormat(Bump(ParseVersion(s).value, level).value);
  }

  /** The version given to a model with no metadata file (lines 83-89). */
  function FirstVersion(level: string): string {
    if level == "major" then "v1.0.0"
    else if level == "minor" then "v0.1.0"
    else "v0.0.1"
  }

  /** For the three known levels a new model gets the version one increment above 0.0.0. */
  lemma FirstVersionIsBumpOfZero(level: string)
    requires Bump(Version(0, 0, 0), level).Some?
    ensures FirstVersion(level) == FormatVersion(Bump(Version(0, 0, 0), level).value)
  {
    assert NatToString(0) == "0" && NatToString(1) == "1";
  }

  datatype Updated = Updated(newVersion: string, written: Metadata)

  const VersionKey: string := "version"
  const UpdatedKey: string := "last_updated"

  /**
   * The dictionary written back (lines 94-99): `version` and `last_updated`
   * set on the loaded dictionary, then the caller's metadata merged over it,
   * so a caller key wins over both.
   */
  function WrittenMetadata(base: Metadata, newVersion: string, now: string, metadata: Option<Metadata>): (w: Metadata)
    ensures var extra := if metadata.Some? then metadata.value else map[];
      && (forall k :: k in w <==> k in base || k == VersionKey || k == UpdatedKey || k in extra)
      && (forall k :: k in extra ==> w[k] == extra[k])
      && (VersionKey !in extra ==> w[VersionKey] == Str(newVersion))
      && (UpdatedKey !in extra ==> w[UpdatedKey] == Str(now))
      && (forall k :: k in base && k !in extra && k != VersionKey && k != UpdatedKey ==> w[k] == base[k])
  {
    assert |VersionKey| != |UpdatedKey|;
    var m := base[VersionKey := Str(newVersion)][UpdatedKey := Str(now)];
    if metadata.Some? && |metadata.value| > 0 then m + metadata.value else m
  }

  /**
   * `update_model_version` (lines 61-105), given the metadata file's
   * contents (`None` when there is no file), the caller's extra metadata
   * and the current time as text. Returns the new version and the
   * dictionary written back.
   */
  method UpdateModelVersion(stored: Option<Metadata>, level: string, metadata: Option<Metadata>, now: string)
    returns (r: Result<Updated>)
    ensures stored.None? ==> r == Ok(Updated(FirstVersion(level), WrittenMetadata(map[], FirstVersion(level), now, metadata)))
    ensures stored.Some? ==>
      var cur := if "version" in stored.value then stored.value["version"] else Str("v0.0.0");
      && (!cur.Str? ==> r.Err? && r.error.TypeError?)
      && (cur.Str? && IncrementVersion(cur.s, level).Err? ==> r == Err(IncrementVersion(cur.s, level).error))
      && (cur.Str? && IncrementVersion(cur.s, level).Ok? ==>
            var v := IncrementVersion(cur.s, level).value;
            r == Ok(Updated(v, WrittenMetadata(stored.value, v, now, metadata))))
  {
    var modelMetadata: Metadata;
    var newVersion: string;
    if stored.Some? {
      modelMetadata := stored.value;
      var currentVersion := if "version" in modelMetadata then modelMetadata["version"] else Str("v0.0.0");
      if !currentVersion.Str? {
        return Err(TypeError("expected string or bytes-like object"));
      }
      var inc := IncrementVersion(currentVersion.s, level);
      if inc.Err? {
        return Err(inc.error);
      }
      newVersion := inc.value;
    } else {
      if level == "major" {
        newVersion := "v1.0.0";
      } else if level == "minor" {
        newVersion := "v0.1.0";
      } else {
        newVersion := "v0.0.1";
      }
      modelMetadata := map[];
    }
    modelMetadata := modelMetadata[VersionKey := Str(newVersion)];
    modelMetadata := modelMetadata[UpdatedKey := Str(now)];
    if metadata.Some? && |metadata.value| > 0 {
      modelMetadata := modelMetadata + metadata.value;
    }
    return Ok(Updated(newVersion, modelMetadata));
  }

  /**
   * A `"version"` key in the caller's metadata replaces the stored version
   * although the incremented one is returned (lines 94-99, 105).
   */
  lemma CallerVersionWins(base: Metadata, newVersion: string, now: string, metadata: Metadata)
    requires VersionKey in metadata && metadata[VersionKey] != Str(newVersion)
    ensures WrittenMetadata(base, newVersion, now, Some(metadata))[VersionKey] != Str(newVersion)
  {
  }

  // ---------------------------------------------------------------------------
  // tag_model_version (lines 108-150)

  /** `os.path.basename`: the text after the last `/`. */
  function Basename(path: string): (b: string)
    ensures forall i :: 0 <= i < |b| ==> b[i] != '/'
    ensures |b| <= |path| && b == path[|path| - |b|..]
    ensures |b| < |path| ==> path[|path| - |b| - 1] == '/'
  {
    if path == [] then []
    else if path[|path| - 1] == '/' then []
    else
      var init := path[..|path| - 1];
      var b := Basename(init);
      var r := b + [path[|path| - 1]];
      assert init[|init| - |b|..] == path[|path| - 1 - |b|..|path| - 1];
      assert r == path[|path| - |r|..];
      assert |r| < |path| ==> path[|path| - |r| - 1] == init[|init| - |b| - 1];
      r
  }

  /** Python's `str()` of a metadata value, for the kinds that render simply. */
  function PyStr(v: Value): string {
    match v
    case Null => "None"
    case Bool(b) => if b then "True" else "False"
    case Int(i) => if i < 0 then "-" + NatToString(-i) else NatToString(i)
    case Str(s) => s
    case Other(text, _) => text
  }

  const TagPrefix: string := "model-"
  const TagSep: string := "-"

  /** The tag name of line 139: the prefix, the model directory's last component, a dash, the version. */
  function TagName(modelDir: string, version: string): (t: string)
    ensures StartsWith(t, TagPrefix + Basename(modelDir) + TagSep)
    ensures |t| == |TagPrefix| + |Basename(modelDir)| + 1 + |version|
    ensures t[|t| - |version|..] == version
  {
    var head := TagPrefix + Basename(modelDir) + TagSep;
    var t := head + version;
    assert t[..|head|] == head && t[|head|..] == version;
    t
  }

  /** Different versions of one model directory get different tags. */
  lemma TagNameInjective(modelDir: string, v1: string, v2: string)
    requires TagName(modelDir, v1) == TagName(modelDir, v2)
    ensures v1 == v2
  {
    var t := TagName(modelDir, v1);
    assert v1 == t[|t| - |v1|..];
  }

  datatype Tag = Tag(name: string, command: string)

  /** The shell command of lines 142-143. */
  function TagCommand(modelDir: string, version: string): string {
    "git tag -a \"" + TagName(modelDir, version) + "\" -m \"Model " + Basename(modelDir) + " version " + version + "\""
  }

  /**
   * `tag_model_version`: `None` where it returns False. A missing or falsy
   * version argument is read from the metadata file; a missing file or a
   * falsy stored version gives `None`. The exit status of the git command
   * is not looked at.
   */
  function TagModelVersion(modelDir: string, version: Option<string>, stored: Option<Metadata>): (r: Option<Tag>)
    ensures version.Some? && version.value != "" ==> r == Some(Tag(TagName(modelDir, version.value), TagCommand(modelDir, version.value)))
    ensures (version.None? || version.value == "") ==>
      (r.Some? <==> stored.Some? && "version" in stored.value && Truthy(stored.value["version"]))
    ensures r.Some? ==> exists v :: r == Some(Tag(TagName(modelDir, v), TagCommand(modelDir, v)))
  {
    var v :=
      if version.Some? && version.value != "" then Some(version.value)
      else if stored.None? || "version" !in stored.value || !Truthy(stored.value["version"]) then None
      else Some(PyStr(stored.value["version"]));
    if v.None? then None
    else
      Some(Tag(TagName(modelDir, v.value), TagCommand(modelDir, v.value)))
  }
}
