/**
 * The requirements demo (part2/examples/requirements_example.py): turning
 * `pip` output into a requirements file, checking the essential packages
 * and splitting them into installed and missing ones. The `pip`
 * subprocess, the import probe, the clock and the file write are inputs and
 * outputs of the model.
 */
module Requirements {
  import opened Wrappers
  import opened Text

  const VersionSep: string := "=="
  const HeaderStart: string := "# Requirements generated on "
  const HeaderProject: string := "# For AI with Mac project"

  /** The package names kept from `pip list --format=freeze` lines (lines 50-53): the text before `==` of each line holding one. */
  function KeptNames(lines: seq<string>): (names: seq<string>)
    ensures |names| <= |lines|
    ensures forall k :: 0 <= k < |names| ==> !Contains(names[k], VersionSep)
  {
    if lines == [] then []
    else
      var init, line := lines[..|lines| - 1], lines[|lines| - 1];
      if Contains(line, VersionSep) then
        BeforeFirstHasNoSep(line, VersionSep);
        KeptNames(init) + [BeforeFirst(line, VersionSep)]
      else KeptNames(init)
  }

  /** Filtering line by line keeps the order of the lines: the names of a concatenation are the concatenated names. */
  lemma {:induction false} KeptNamesAppend(a: seq<string>, b: seq<string>)
    ensures KeptNames(a + b) == KeptNames(a) + KeptNames(b)
    decreases |b|
  {
    if b != [] {
      var init := b[..|b| - 1];
      assert (a + b)[..|a + b| - 1] == a + init;
      KeptNamesAppend(a, init);
    } else {
      assert a + b == a;
    }
  }

  /** A single line contributes its name exactly when it holds `==`. */
  lemma KeptNamesOne(line: string)
    ensures KeptNames([line]) == if Contains(line, VersionSep) then [BeforeFirst(line, VersionSep)] else []
  {
    assert [line][..0] == [];
  }

  /** The loop of lines 49-53. */
  method StripVersions(lines: seq<string>) returns (packages: seq<string>)
    ensures packages == KeptNames(lines)
  {
    packages := [];
    for i := 0 to |lines|
      invariant packages == KeptNames(lines[..i])
    {
      assert lines[..i + 1][..i] == lines[..i];
      if Contains(lines[i], VersionSep) {
        packages := packages + [BeforeFirst(lines[i], VersionSep)];
      }
    }
    assert lines[..|lines|] == lines;
  }

  /** The package list written (lines 47-56): the stripped output as it is, or the bare names one per line. */
  function PackageList(includeVersions: bool, output: string): string {
    if includeVersions then Strip(output)
    else Join("\n", KeptNames(SplitOn(Strip(output), '\n')))
  }

  /** The header of lines 59-60: a timestamp comment, a project comment and a blank line. */
  function Header(timestamp: string): string {
    HeaderStart + timestamp + "\n" + HeaderProject + "\n" + "\n"
  }

  /**
   * `generate_requirements_file` (lines 26-69): `None` (the function's
   * `False`) when `pip` fails, otherwise the text written to the file.
   */
  function GenerateRequirements(includeVersions: bool, output: Option<string>, timestamp: string): (content: Option<string>)
    ensures content.Some? <==> output.Some?
    ensures content.Some? ==> StartsWith(content.value, Header(timestamp))
  {
    if output.None? then None
    else
      var c := Header(timestamp) + PackageList(includeVersions, output.value);
      assert c[..|Header(timestamp)|] == Header(timestamp);
      Some(c)
  }

  lemma SplitAfterLine(a: string, b: string)
    requires '\n' !in a
    ensures SplitOn(a + "\n" + b, '\n') == [a] + SplitOn(b, '\n')
  {
    var s := a + "\n" + b;
    assert s[|a|] == '\n';
    var i := IndexOf(s, '\n');
    assert i == |a|;
    assert s[..i] == a;
    assert s[i + 1..] == b;
  }

  lemma ConsThree<T>(a: T, b: T, c: T, rest: seq<T>)
    ensures [a] + ([b] + ([c] + rest)) == [a, b, c] + rest
  {
  }

  /**
   * Read line by line, the written file is the two header comments, a
   * blank line, then the lines of the package list.
   */
  lemma ContentLines(timestamp: string, list: string)
    requires '\n' !in timestamp
    ensures SplitOn(Header(timestamp) + list, '\n') == [HeaderStart + timestamp, HeaderProject, ""] + SplitOn(list, '\n')
  {
    var l1, l2 := HeaderStart + timestamp, HeaderProject;
    assert '\n' !in HeaderStart by { assert forall i :: 0 <= i < |HeaderStart| ==> HeaderStart[i] != '\n'; }
    assert '\n' !in l1;
    assert '\n' !in l2 by { assert forall i :: 0 <= i < |HeaderProject| ==> HeaderProject[i] != '\n'; }
    var r3 := "" + "\n" + list;
    var r2 := l2 + "\n" + r3;
    assert Header(timestamp) + list == l1 + "\n" + r2;
    var rest := SplitOn(list, '\n');
    SplitAfterLine("", list);
    SplitAfterLine(l2, r3);
    SplitAfterLine(l1, r2);
    calc {
      SplitOn(Header(timestamp) + list, '\n');
      SplitOn(l1 + "\n" + r2, '\n');
      [l1] + SplitOn(r2, '\n');
      [l1] + ([l2] + SplitOn(r3, '\n'));
      [l1] + ([l2] + ([""] + rest));
      { ConsThree(l1, l2, "", rest); }
      [l1, l2, ""] + rest;
    }
  }

  /** The ten packages of lines 78-89, in order. */
  const Essentials: seq<string> :=
    ["numpy", "pandas", "matplotlib", "scipy", "scikit-learn", "torch", "mlx", "jupyter", "requests", "tqdm"]

  /** No package is listed twice, so the dictionary has one entry per package. */
  lemma EssentialsDistinct()
    ensures forall a, b :: 0 <= a < b < |Essentials| ==> Essentials[a] != Essentials[b]
  {
  }

  /**
   * `check_essential_packages` (lines 71-95): the probe `installed` (the
   * `find_spec` test) applied to each essential package.
   */
  method CheckEssentialPackages(installed: string -> bool) returns (status: map<string, bool>)
    ensures forall p :: p in status <==> p in Essentials
    ensures forall p :: p in status ==> status[p] == installed(p)
    ensures |status| == |Essentials| == 10
  {
    status := map[];
    EssentialsDistinct();
    for i := 0 to |Essentials|
      invariant forall p :: p in status <==> p in Essentials[..i]
      invariant forall p :: p in status ==> status[p] == installed(p)
      invariant |status| == i
    {
      assert Essentials[i] !in Essentials[..i];
      status := status[Essentials[i] := installed(Essentials[i])];
    }
    assert Essentials[..|Essentials|] == Essentials;
  }

  /** The names in `names` whose status is `want`, in order. */
  function Select(names: seq<string>, status: map<string, bool>, want: bool): (r: seq<string>)
    requires forall p :: p in names ==> p in status
    ensures forall p :: p in r <==> p in names && status[p] == want
    ensures |r| <= |names|
  {
    if names == [] then []
    else
      var init, p := names[..|names| - 1], names[|names| - 1];
      assert forall q :: q in names <==> q in init || q == p;
      Select(init, status, want) + (if status[p] == want then [p] else [])
  }

  /** The loop of lines 107-117: installed and missing packages in dictionary order. */
  method Partition(names: seq<string>, status: map<string, bool>) returns (installed: seq<string>, missing: seq<string>)
    requires forall p :: p in names ==> p in status
    ensures installed == Select(names, status, true) && missing == Select(names, status, false)
  {
    installed, missing := [], [];
    for i := 0 to |names|
      invariant installed == Select(names[..i], status, true)
      invariant missing == Select(names[..i], status, false)
    {
      assert names[..i + 1][..i] == names[..i];
      if status[names[i]] {
        installed := installed + [names[i]];
      } else {
        missing := missing + [names[i]];
      }
    }
    assert names[..|names|] == names;
  }

  /** The two lists split the names: none is in both, each is in one, and the counts add up. */
  lemma {:induction false} PartitionSplits(names: seq<string>, status: map<string, bool>)
    requires forall p :: p in names ==> p in status
    ensures forall p :: p in names ==> (p in Select(names, status, true) <==> p !in Select(names, status, false))
    ensures |Select(names, status, true)| + |Select(names, status, false)| == |names|
  {
    if names != [] {
      var init := names[..|names| - 1];
      assert forall q :: q in init ==> q in names;
      PartitionSplits(init, status);
    }
  }
}
