/**
 * The behaviour the repository's tests pin down, stated on the model: the bump
 * arithmetic of `increment_bump`, the outcome of `work` over small commit ranges,
 * and the tag normalisation of `main`. Each test's commits carry the shas its git
 * double fabricates ("30", "31": the hex of "0", "1").
 */
module Scenarios {
  import opened Wrappers
  import opened Text
  import opened Fnmatch
  import opened Ignore
  import opened Tokens
  import opened Commits
  import opened Increment
  import opened NextVersion

  // ---------------------------------------------------------------------------
  // Reusable steps
  // ---------------------------------------------------------------------------

  /** A range of one commit keeps that commit exactly when it qualifies. */
  lemma KeptOne(c: Commit, ignorePaths: seq<string>, forcePatch: bool)
    ensures Kept([c], ignorePaths, forcePatch) ==
      if Qualifies(c, ignorePaths, forcePatch) then [ToBumpable(c, ignorePaths, forcePatch)] else []
  {
    assert [c][..0] == [];
  }

  /** A range of two commits keeps what each one alone would keep. */
  lemma KeptTwo(c0: Commit, c1: Commit, ignorePaths: seq<string>, forcePatch: bool)
    ensures Kept([c0, c1], ignorePaths, forcePatch) == Kept([c0], ignorePaths, forcePatch) + Kept([c1], ignorePaths, forcePatch)
  {
    assert [c0] + [c1] == [c0, c1];
    KeptAppend([c0], [c1], ignorePaths, forcePatch);
  }

  /** The directory pattern `docs/` followed by two stars ignores exactly the names under `docs/`. */
  lemma UnderDocs(name: string)
    ensures Match(name, "docs/**") <==> "docs/" <= name
  {
    assert "docs/**" == "docs/" + "**";
    PrefixPattern(name, "docs/", "**");
  }

  /** `*.md` ignores exactly the names ending in `.md`. */
  lemma MarkdownFile(name: string)
    ensures Match(name, "*.md") <==> EndsWith(name, ".md")
  {
    assert "*.md" == "*" + ".md";
    SuffixPattern(name, ".md");
  }

  /** A title that ends in a token, with no `[` and no capital letter before it, asks for that token's bump type. */
  lemma TitleEndingInToken(before: string, token: string, bump: BumpType)
    requires token in TokensOf(bump) && '[' !in before
    requires forall c :: c in before ==> !('A' <= c <= 'Z')
    ensures TitleBump(Lower(before + token)) == Some(bump)
  {
    TokenShape(bump, token);
    LowerOfLowercase(before + token);
    TokenAtEnd(before, token, bump);
  }

  /** A title without `[` and without capital letters asks for no bump type. */
  lemma TitleWithoutToken(title: string)
    requires '[' !in title
    requires forall c :: c in title ==> !('A' <= c <= 'Z')
    ensures TitleBump(Lower(title)) == None
  {
    LowerOfLowercase(title);
    NoBracketNoToken(title);
  }

  // ---------------------------------------------------------------------------
  // increment_bump
  // ---------------------------------------------------------------------------

  /** The tag 1.2.3 parses under X.Y.Z. */
  lemma Tag123()
    ensures ParseVersion("1.2.3", 3) == Some(Version(1, 2, 3))
  {
    assert ShowVersion(Version(1, 2, 3), 3) == "1.2.3";
    ParseShowVersion(Version(1, 2, 3), 3);
  }

  /** The tag 1.2 parses under X.Y, with patch number 0. */
  lemma Tag12()
    ensures ParseVersion("1.2", 2) == Some(Version(1, 2, 0))
  {
    assert ShowVersion(Version(1, 2, 0), 2) == "1.2";
    ParseShowVersion(Version(1, 2, 0), 2);
  }

  /** The tag 0.9.9 parses under X.Y.Z. */
  lemma Tag099()
    ensures ParseVersion("0.9.9", 3) == Some(Version(0, 9, 9))
  {
    assert ShowVersion(Version(0, 9, 9), 3) == "0.9.9";
    ParseShowVersion(Version(0, 9, 9), 3);
  }

  /** The tag 4.5.6 parses under X.Y.Z. */
  lemma Tag456()
    ensures ParseVersion("4.5.6", 3) == Some(Version(4, 5, 6))
  {
    assert ShowVersion(Version(4, 5, 6), 3) == "4.5.6";
    ParseShowVersion(Version(4, 5, 6), 3);
  }

  /** X.Y.Z: MAJOR on 1.2.3 gives 2.0.0. */
  lemma SemverMajor()
    ensures IncrementBump("1.2.3", Major, VersionStyleXYZ) == Success("2.0.0")
  {
    Tag123();
    assert ShowVersion(Version(2, 0, 0), 3) == "2.0.0";
  }

  /** X.Y.Z: MINOR on 1.2.3 gives 1.3.0. */
  lemma SemverMinor()
    ensures IncrementBump("1.2.3", Minor, VersionStyleXYZ) == Success("1.3.0")
  {
    Tag123();
    assert ShowVersion(Version(1, 3, 0), 3) == "1.3.0";
  }

  /** X.Y.Z: PATCH on 1.2.3 gives 1.2.4. */
  lemma SemverPatch()
    ensures IncrementBump("1.2.3", Patch, VersionStyleXYZ) == Success("1.2.4")
  {
    Tag123();
    assert ShowVersion(Version(1, 2, 4), 3) == "1.2.4";
  }

  /** X.Y: MAJOR on 1.2 gives 2.0. */
  lemma MajMinMajor()
    ensures IncrementBump("1.2", Major, VersionStyleXY) == Success("2.0")
  {
    Tag12();
    assert ShowVersion(Version(2, 0, 0), 2) == "2.0";
  }

  /** X.Y: MINOR on 1.2 gives 1.3. */
  lemma MajMinMinor()
    ensures IncrementBump("1.2", Minor, VersionStyleXY) == Success("1.3")
  {
    Tag12();
    assert ShowVersion(Version(1, 3, 0), 2) == "1.3";
  }

  /** X.Y: PATCH on 1.2 collapses to MINOR and gives 1.3. */
  lemma MajMinPatch()
    ensures IncrementBump("1.2", Patch, VersionStyleXY) == Success("1.3")
  {
    MajMinMinor();
    PatchCollapsesUnderXY("1.2");
  }

  /** An unknown style is refused before the tag is looked at. */
  lemma IncrementInvalidStyle()
    ensures IncrementBump("1.2.3", Patch, "X") == Failure(InvalidVersionStyle("X"))
  {
  }

  /** A two-component tag is refused under X.Y.Z. */
  lemma ShortTagUnderXYZ()
    ensures IncrementBump("1.2", Patch, VersionStyleXYZ) == Failure(UnparsableVersion("1.2", VersionStyleXYZ))
  {
    assert Join(["1", "2"], '.') == "1.2";
    SplitJoin(["1", "2"], '.');
  }

  /** A three-component tag is refused under X.Y. */
  lemma LongTagUnderXY()
    ensures IncrementBump("1.2.3", Patch, VersionStyleXY) == Failure(UnparsableVersion("1.2.3", VersionStyleXY))
  {
    assert Join(["1", "2", "3"], '.') == "1.2.3";
    SplitJoin(["1", "2", "3"], '.');
  }

  /** X.Y.Z: PATCH on 0.9.9 gives 0.9.10 (no carry into the minor number). */
  lemma PatchPast9()
    ensures IncrementBump("0.9.9", Patch, VersionStyleXYZ) == Success("0.9.10")
  {
    Tag099();
    assert ShowNat(10) == "10";
    assert ShowVersion(Version(0, 9, 10), 3) == "0.9.10";
  }

  /** X.Y.Z: MAJOR on 4.5.6 gives 5.0.0. */
  lemma Major456()
    ensures IncrementBump("4.5.6", Major, VersionStyleXYZ) == Success("5.0.0")
  {
    Tag456();
    assert ShowVersion(Version(5, 0, 0), 3) == "5.0.0";
  }

  /** X.Y.Z: MINOR on 4.5.6 gives 4.6.0. */
  lemma Minor456()
    ensures IncrementBump("4.5.6", Minor, VersionStyleXYZ) == Success("4.6.0")
  {
    Tag456();
    assert ShowVersion(Version(4, 6, 0), 3) == "4.6.0";
  }

  // ---------------------------------------------------------------------------
  // work
  // ---------------------------------------------------------------------------

  /** An explicit `[patch]` token on 1.2.3 gives 1.2.4. */
  lemma WorkPatchFromToken()
    ensures
      var commits := [Commit("30", "fix: squashed a bug [patch]", ["src/a.py", "README.md"])];
      WorkOutcome("1.2.3", Kept(commits, [], false), VersionStyleXYZ) == Success(Some("1.2.4"))
  {
    var c := Commit("30", "fix: squashed a bug [patch]", ["src/a.py", "README.md"]);
    assert Classify(Lower(c.title), c.changedFiles, [], false) == Qualified(Patch) by {
      assert c.title == "fix: squashed a bug " + "[patch]";
      TitleEndingInToken("fix: squashed a bug ", "[patch]", Patch);
    }
    KeptOne(c, [], false);
    SemverPatch();
  }

  /** The first commit of the ignored-files range touches only `docs/`. */
  lemma DocsUpdateIsIgnored()
    ensures Classify(Lower("docs: update readme"), ["docs/README.md"], ["docs/**", "*.md"], false) == Disqualified(OnlyIgnoredFiles)
  {
    var ignorePaths := ["docs/**", "*.md"];
    TitleWithoutToken("docs: update readme");
    UnderDocs("docs/README.md");
    assert "docs/" <= "docs/README.md";
    assert IsIgnored("docs/README.md", ignorePaths) by { assert ignorePaths[0] == "docs/**"; }
  }

  /** The second commit of the ignored-files range touches only a Markdown file. */
  lemma CiTweakIsIgnored()
    ensures Classify(Lower("chore: ci tweak"), ["notes.md"], ["docs/**", "*.md"], false) == Disqualified(OnlyIgnoredFiles)
  {
    var ignorePaths := ["docs/**", "*.md"];
    TitleWithoutToken("chore: ci tweak");
    MarkdownFile("notes.md");
    assert EndsWith("notes.md", ".md");
    assert IsIgnored("notes.md", ignorePaths) by { assert ignorePaths[1] == "*.md"; }
  }

  /** Tokenless commits that touch only ignored files give no new version. */
  lemma WorkAllFilesIgnored()
    ensures
      var commits := [Commit("30", "docs: update readme", ["docs/README.md"]), Commit("31", "chore: ci tweak", ["notes.md"])];
      WorkOutcome("2.3.4", Kept(commits, ["docs/**", "*.md"], false), VersionStyleXYZ) == Success(None)
  {
    var ignorePaths := ["docs/**", "*.md"];
    var c0 := Commit("30", "docs: update readme", ["docs/README.md"]);
    var c1 := Commit("31", "chore: ci tweak", ["notes.md"]);
    DocsUpdateIsIgnored();
    CiTweakIsIgnored();
    KeptOne(c0, ignorePaths, false);
    KeptOne(c1, ignorePaths, false);
    KeptTwo(c0, c1, ignorePaths, false);
  }

  /** A name that a single pattern does not match is not ignored by that pattern alone. */
  lemma MissedBySolePattern(name: string, pat: string)
    requires !Match(name, pat)
    ensures !IsIgnored(name, [pat])
  {
    var ignorePaths := [pat];
    assert forall j :: 0 <= j < |ignorePaths| ==> ignorePaths[j] == pat;
  }

  /** `*.md` does not ignore `src/core.py`. */
  lemma CoreSourceNotMarkdown()
    ensures !IsIgnored("src/core.py", ["*.md"])
  {
    MarkdownFile("src/core.py");
    assert !EndsWith("src/core.py", ".md") by {
      assert "src/core.py"[|"src/core.py"| - 3..] == ".py";
      assert ".py"[1] != ".md"[1];
    }
    MissedBySolePattern("src/core.py", "*.md");
  }

  /** The commit of the force-patch range touches a source file that `*.md` does not ignore. */
  lemma CleanupIsForcedPatch()
    ensures Classify(Lower("refactor: cleanup modules"), ["src/core.py", "README.md"], ["*.md"], true) == Qualified(Patch)
  {
    var files := ["src/core.py", "README.md"];
    TitleWithoutToken("refactor: cleanup modules");
    CoreSourceNotMarkdown();
    assert !AllIgnored(files, ["*.md"]) by { assert files[0] == "src/core.py"; }
  }

  /** A tokenless commit touching a file no pattern ignores is a patch when force-patching is on. */
  lemma WorkForcePatch()
    ensures
      var commits := [Commit("30", "refactor: cleanup modules", ["src/core.py", "README.md"])];
      WorkOutcome("0.9.9", Kept(commits, ["*.md"], true), VersionStyleXYZ) == Success(Some("0.9.10"))
  {
    var c := Commit("30", "refactor: cleanup modules", ["src/core.py", "README.md"]);
    CleanupIsForcedPatch();
    KeptOne(c, ["*.md"], true);
    PatchPast9();
  }

  /** Under X.Y a `[patch]` token bumps the minor number: 1.2 gives 1.3. */
  lemma WorkPatchIsMinorUnderXY()
    ensures
      var commits := [Commit("30", "fix: small bug [patch]", ["src/a.py"])];
      WorkOutcome("1.2", Kept(commits, [], false), VersionStyleXY) == Success(Some("1.3"))
  {
    var c := Commit("30", "fix: small bug [patch]", ["src/a.py"]);
    assert Classify(Lower(c.title), c.changedFiles, [], false) == Qualified(Patch) by {
      assert c.title == "fix: small bug " + "[patch]";
      TitleEndingInToken("fix: small bug ", "[patch]", Patch);
    }
    KeptOne(c, [], false);
    MajMinPatch();
  }

  /** The first commit of the no-bump range ends in `[no-bump]`. */
  lemma HyphenNoBumpDisqualifies()
    ensures Classify(Lower("chore: x [no-bump]"), ["src/a.py"], [], false) == Disqualified(ExplicitNoBump)
  {
    assert "chore: x [no-bump]" == "chore: x " + "[no-bump]";
    TitleEndingInToken("chore: x ", "[no-bump]", NoBump);
  }

  /** The second commit of the no-bump range ends in `[nobump]`. */
  lemma PlainNoBumpDisqualifies()
    ensures Classify(Lower("docs: y [nobump]"), ["docs/README.md"], [], false) == Disqualified(ExplicitNoBump)
  {
    assert "docs: y [nobump]" == "docs: y " + "[nobump]";
    TitleEndingInToken("docs: y ", "[nobump]", NoBump);
  }

  /** Commits that all carry a no-bump token give no new version. */
  lemma WorkAllExplicitNoBump()
    ensures
      var commits := [Commit("30", "chore: x [no-bump]", ["src/a.py"]), Commit("31", "docs: y [nobump]", ["docs/README.md"])];
      WorkOutcome("3.4.5", Kept(commits, [], false), VersionStyleXYZ) == Success(None)
  {
    var c0 := Commit("30", "chore: x [no-bump]", ["src/a.py"]);
    var c1 := Commit("31", "docs: y [nobump]", ["docs/README.md"]);
    HyphenNoBumpDisqualifies();
    PlainNoBumpDisqualifies();
    KeptOne(c0, [], false);
    KeptOne(c1, [], false);
    KeptTwo(c0, c1, [], false);
  }

  /** A tag with too few components for X.Y.Z is an error once a commit asks for a bump. */
  lemma WorkBadTagShape()
    ensures
      var commits := [Commit("30", "fix: z [patch]", ["src/a.py"])];
      WorkOutcome("1.2", Kept(commits, [], false), VersionStyleXYZ) == Failure(UnparsableVersion("1.2", VersionStyleXYZ))
  {
    var c := Commit("30", "fix: z [patch]", ["src/a.py"]);
    assert Classify(Lower(c.title), c.changedFiles, [], false) == Qualified(Patch) by {
      assert c.title == "fix: z " + "[patch]";
      TitleEndingInToken("fix: z ", "[patch]", Patch);
    }
    KeptOne(c, [], false);
    ShortTagUnderXYZ();
  }

  /** A tokenless commit under `docs/` is disqualified. */
  lemma DocsChoreIsIgnored()
    ensures Classify(Lower("chore: x"), ["docs/README.md"], ["docs/**"], false) == Disqualified(OnlyIgnoredFiles)
  {
    var ignorePaths := ["docs/**"];
    TitleWithoutToken("chore: x");
    UnderDocs("docs/README.md");
    assert "docs/" <= "docs/README.md";
    assert IsIgnored("docs/README.md", ignorePaths) by { assert ignorePaths[0] == "docs/**"; }
  }

  /** The directory pattern `docs/` followed by two stars does not ignore `src/kite_eating_tree.py`. */
  lemma SourceOutsideDocs()
    ensures !IsIgnored("src/kite_eating_tree.py", ["docs/**"])
  {
    UnderDocs("src/kite_eating_tree.py");
    assert !("docs/" <= "src/kite_eating_tree.py") by { assert "docs/"[0] != "src/kite_eating_tree.py"[0]; }
    MissedBySolePattern("src/kite_eating_tree.py", "docs/**");
  }

  /** A tokenless commit outside `docs/` is disqualified when force-patching is off. */
  lemma SourceRefactorNotForced()
    ensures Classify(Lower("refactor: y"), ["src/kite_eating_tree.py"], ["docs/**"], false) == Disqualified(NoTokenForcePatchOff)
  {
    var files := ["src/kite_eating_tree.py"];
    TitleWithoutToken("refactor: y");
    SourceOutsideDocs();
    assert !AllIgnored(files, ["docs/**"]) by { assert files[0] == "src/kite_eating_tree.py"; }
  }

  /** Tokenless commits, one touching a file no pattern ignores, give no new version when force-patching is off. */
  lemma WorkTokenlessForcePatchOff()
    ensures
      var commits := [Commit("30", "chore: x", ["docs/README.md"]), Commit("31", "refactor: y", ["src/kite_eating_tree.py"])];
      WorkOutcome("4.5.6", Kept(commits, ["docs/**"], false), VersionStyleXYZ) == Success(None)
  {
    var ignorePaths := ["docs/**"];
    var c0 := Commit("30", "chore: x", ["docs/README.md"]);
    var c1 := Commit("31", "refactor: y", ["src/kite_eating_tree.py"]);
    DocsChoreIsIgnored();
    SourceRefactorNotForced();
    KeptOne(c0, ignorePaths, false);
    KeptOne(c1, ignorePaths, false);
    KeptTwo(c0, c1, ignorePaths, false);
  }

  /** `[major]` decides a commit even when all its files are ignored. */
  lemma MajorOnIgnoredFiles()
    ensures Classify(Lower("chore: x [major]"), ["docs/README.md"], ["docs/**"], true) == Qualified(Major)
  {
    assert "chore: x [major]" == "chore: x " + "[major]";
    TitleEndingInToken("chore: x ", "[major]", Major);
  }

  /** `[no-bump]` disqualifies a commit, whatever its files, even when force-patching is on. */
  lemma NoBumpDespiteForcePatch(files: seq<string>)
    ensures Classify(Lower("refactor: y [no-bump]"), files, ["docs/**"], true) == Disqualified(ExplicitNoBump)
  {
    assert "refactor: y [no-bump]" == "refactor: y " + "[no-bump]";
    TitleEndingInToken("refactor: y ", "[no-bump]", NoBump);
  }

  /** A `[major]` token wins even on ignored files, and a no-bump commit beside it is dropped: 4.5.6 gives 5.0.0. */
  lemma WorkExplicitMajor()
    ensures
      var commits := [Commit("30", "chore: x [major]", ["docs/README.md"]), Commit("31", "refactor: y [no-bump]", ["src/kite_eating_tree.py"])];
      WorkOutcome("4.5.6", Kept(commits, ["docs/**"], true), VersionStyleXYZ) == Success(Some("5.0.0"))
  {
    var ignorePaths := ["docs/**"];
    var c0 := Commit("30", "chore: x [major]", ["docs/README.md"]);
    var c1 := Commit("31", "refactor: y [no-bump]", ["src/kite_eating_tree.py"]);
    MajorOnIgnoredFiles();
    NoBumpDespiteForcePatch(c1.changedFiles);
    KeptOne(c0, ignorePaths, true);
    KeptOne(c1, ignorePaths, true);
    KeptTwo(c0, c1, ignorePaths, true);
    Major456();
  }

  /** A tokenless commit under `docs/` is disqualified even when force-patching is on. */
  lemma DocsChoreIgnoredDespiteForcePatch()
    ensures Classify(Lower("chore: x"), ["docs/snoopy.md"], ["docs/**"], true) == Disqualified(OnlyIgnoredFiles)
  {
    var ignorePaths := ["docs/**"];
    TitleWithoutToken("chore: x");
    UnderDocs("docs/snoopy.md");
    assert "docs/" <= "docs/snoopy.md";
    assert IsIgnored("docs/snoopy.md", ignorePaths) by { assert ignorePaths[0] == "docs/**"; }
  }

  /** An ignored tokenless commit and a no-bump commit give no new version, even with force-patching on. */
  lemma WorkIgnoredAndNoBump()
    ensures
      var commits := [Commit("30", "chore: x", ["docs/snoopy.md"]), Commit("31", "refactor: y [no-bump]", ["snoopy.py"])];
      WorkOutcome("4.5.6", Kept(commits, ["docs/**"], true), VersionStyleXYZ) == Success(None)
  {
    var ignorePaths := ["docs/**"];
    var c0 := Commit("30", "chore: x", ["docs/snoopy.md"]);
    var c1 := Commit("31", "refactor: y [no-bump]", ["snoopy.py"]);
    DocsChoreIgnoredDespiteForcePatch();
    NoBumpDespiteForcePatch(c1.changedFiles);
    KeptOne(c0, ignorePaths, true);
    KeptOne(c1, ignorePaths, true);
    KeptTwo(c0, c1, ignorePaths, true);
  }

  /** A `[minor]` token counts on a commit that changed no file: 4.5.6 gives 4.6.0. */
  lemma WorkMinorWithoutFiles()
    ensures
      var commits := [Commit("30", "chore: x [minor]", [])];
      WorkOutcome("4.5.6", Kept(commits, ["docs/**"], true), VersionStyleXYZ) == Success(Some("4.6.0"))
  {
    var c := Commit("30", "chore: x [minor]", []);
    assert Classify(Lower(c.title), c.changedFiles, ["docs/**"], true) == Qualified(Minor) by {
      assert c.title == "chore: x " + "[minor]";
      TitleEndingInToken("chore: x ", "[minor]", Minor);
    }
    KeptOne(c, ["docs/**"], true);
    Minor456();
  }

  // ---------------------------------------------------------------------------
  // main
  // ---------------------------------------------------------------------------

  /** The entry point turns `V1.2.3` into `1.2.3`. */
  lemma NormalisedTag()
    ensures NormaliseTag("V1.2.3") == "1.2.3"
  {
    assert Lower("V1.2.3") == "v1.2.3";
    assert LeadingVs("v1.2.3") == 1;
  }

  /** The entry point leaves the style `X.Y.Z` as it is. */
  lemma NormalisedStyle()
    ensures NormaliseStyle(Some(VersionStyleXYZ)) == VersionStyleXYZ
  {
    UpperOfUppercase(VersionStyleXYZ);
  }

  /** The entry point lower-cases the tag and strips its leading `v`: V1.2.3 with a `[patch]` commit gives 1.2.4. */
  lemma MainStripsV()
    ensures
      var commits := [Commit("30", "fix: z [patch]", ["src/x.py"])];
      WorkOutcome(NormaliseTag("V1.2.3"), Kept(commits, [], false), NormaliseStyle(Some(VersionStyleXYZ))) == Success(Some("1.2.4"))
  {
    var c := Commit("30", "fix: z [patch]", ["src/x.py"]);
    assert Classify(Lower(c.title), c.changedFiles, [], false) == Qualified(Patch) by {
      assert c.title == "fix: z " + "[patch]";
      TitleEndingInToken("fix: z ", "[patch]", Patch);
    }
    KeptOne(c, [], false);
    NormalisedTag();
    NormalisedStyle();
    SemverPatch();
  }
}
