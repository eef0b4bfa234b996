/**
 * Classifying each commit of the range and keeping the ones that warrant a bump
 * (`BumpableCommit` and the filter loop of `get_bumpable_commits`).
 */
module Commits {
  import opened Wrappers
  import opened Text
  import opened Ignore
  import opened Tokens

  /** A commit of the range as the version-control collaborator reports it. */
  datatype Commit = Commit(sha: string, title: string, changedFiles: seq<string>)

  /** A commit that qualifies for bumping, with the views derived from it. */
  datatype BumpableCommit = BumpableCommit(
    sha: string,
    title: string,
    changedFiles: seq<string>,
    titleLower: string,
    bumpType: BumpType)

  /** Why a commit was disqualified (the message of `DisqualifiedCommit`). */
  datatype DisqualifyReason = ExplicitNoBump | OnlyIgnoredFiles | NoTokenForcePatchOff

  /** What `_figure_bump_type` does: return a bump type or raise `DisqualifiedCommit`. */
  datatype Verdict = Qualified(bump: BumpType) | Disqualified(reason: DisqualifyReason)

  /**
   * The specification of `_figure_bump_type`. A title token decides, a no-bump token by
   * disqualifying; a tokenless commit that touched only ignored files (or none) is
   * disqualified; otherwise the commit is a patch if force-patching is on and is
   * disqualified if it is off.
   */
  function Classify(titleLower: string, changedFiles: seq<string>, ignorePaths: seq<string>, forcePatch: bool): (v: Verdict)
    ensures v.Qualified? ==> v.bump != NoBump
  {
    match TitleBump(titleLower)
    case Some(bump) =>
      if bump == NoBump then Disqualified(ExplicitNoBump) else Qualified(bump)
    case None =>
      if AllIgnored(changedFiles, ignorePaths) then Disqualified(OnlyIgnoredFiles)
      else if forcePatch then Qualified(Patch)
      else Disqualified(NoTokenForcePatchOff)
  }

  /**
   * `_figure_bump_type`: try the bump types in order of precedence and stop at the
   * first whose tokens occur in the title; a tokenless commit is settled by its files
   * and by the force-patch setting.
   */
  method FigureBumpType(titleLower: string, changedFiles: seq<string>, ignorePaths: seq<string>, forcePatch: bool)
    returns (v: Verdict)
    ensures v == Classify(titleLower, changedFiles, ignorePaths, forcePatch)
  {
    var i := 0;
    while i < |BumpTokens|
      invariant 0 <= i <= |BumpTokens|
      invariant forall k :: Rank(k) < i ==> !HasBumpToken(k, titleLower)
    {
      var bump := BumpTokens[i].0;
      if HasBumpToken(bump, titleLower) {
        assert Rank(bump) == i;
        TokenPrecedence(titleLower, bump);
        if bump == NoBump {
          return Disqualified(ExplicitNoBump);
        } else {
          return Qualified(bump);
        }
      }
      i := i + 1;
    }
    TokenPrecedence(titleLower, Major);
    var allIgnored := AreAllFilesIgnored(changedFiles, ignorePaths);
    if allIgnored {
      return Disqualified(OnlyIgnoredFiles);
    } else if forcePatch {
      return Qualified(Patch);
    } else {
      return Disqualified(NoTokenForcePatchOff);
    }
  }

  /** A title whose highest-precedence token is a no-bump token is disqualified, whatever the files or the setting. */
  lemma NoBumpTokenDisqualifies(titleLower: string, changedFiles: seq<string>, ignorePaths: seq<string>, forcePatch: bool)
    requires HasBumpToken(NoBump, titleLower)
    ensures
      var v := Classify(titleLower, changedFiles, ignorePaths, forcePatch);
      v == Disqualified(ExplicitNoBump) ||
      (v.Qualified? && HasBumpToken(v.bump, titleLower) && Rank(v.bump) < Rank(NoBump))
    ensures (forall k :: k != NoBump ==> !HasBumpToken(k, titleLower)) ==>
      Classify(titleLower, changedFiles, ignorePaths, forcePatch) == Disqualified(ExplicitNoBump)
  {
    TokenPrecedence(titleLower, NoBump);
    var r := TitleBump(titleLower);
    if r.Some? {
      TokenPrecedence(titleLower, r.value);
    }
  }

  /** A major, minor or patch token decides the commit, even when its files are all ignored or empty. */
  lemma ExplicitTokenWins(titleLower: string, changedFiles: seq<string>, ignorePaths: seq<string>, forcePatch: bool, bump: BumpType)
    requires bump != NoBump
    requires HasBumpToken(bump, titleLower) && forall k :: Rank(k) < Rank(bump) ==> !HasBumpToken(k, titleLower)
    ensures Classify(titleLower, changedFiles, ignorePaths, forcePatch) == Qualified(bump)
  {
    TokenPrecedence(titleLower, bump);
  }

  /**
   * A tokenless commit is disqualified when all its files are ignored (in particular
   * when it changed none); otherwise it is a patch exactly when force-patching is on.
   */
  lemma TokenlessClassification(titleLower: string, changedFiles: seq<string>, ignorePaths: seq<string>, forcePatch: bool)
    requires forall k :: !HasBumpToken(k, titleLower)
    ensures changedFiles == [] ==>
      Classify(titleLower, changedFiles, ignorePaths, forcePatch) == Disqualified(OnlyIgnoredFiles)
    ensures AllIgnored(changedFiles, ignorePaths) ==>
      Classify(titleLower, changedFiles, ignorePaths, forcePatch) == Disqualified(OnlyIgnoredFiles)
    ensures !AllIgnored(changedFiles, ignorePaths) ==>
      Classify(titleLower, changedFiles, ignorePaths, forcePatch) ==
        (if forcePatch then Qualified(Patch) else Disqualified(NoTokenForcePatchOff))
  {
    TokenPrecedence(titleLower, Major);
  }

  /** Does this commit survive the filter? */
  predicate Qualifies(c: Commit, ignorePaths: seq<string>, forcePatch: bool) {
    Classify(Lower(c.title), c.changedFiles, ignorePaths, forcePatch).Qualified?
  }

  /** `BumpableCommit(sha=..., title=..., changed_files=...)` for a commit that qualifies. */
  function ToBumpable(c: Commit, ignorePaths: seq<string>, forcePatch: bool): BumpableCommit
    requires Qualifies(c, ignorePaths, forcePatch)
  {
    BumpableCommit(c.sha, c.title, c.changedFiles, Lower(c.title),
                   Classify(Lower(c.title), c.changedFiles, ignorePaths, forcePatch).bump)
  }

  /** The commits that warrant bumping, in the order of the input. */
  function Kept(commits: seq<Commit>, ignorePaths: seq<string>, forcePatch: bool): seq<BumpableCommit>
    decreases |commits|
  {
    if commits == [] then []
    else
      var n := |commits| - 1;
      Kept(commits[..n], ignorePaths, forcePatch) +
        (if Qualifies(commits[n], ignorePaths, forcePatch) then [ToBumpable(commits[n], ignorePaths, forcePatch)] else [])
  }

  /**
   * The filter loop of `get_bumpable_commits`: build each commit's `BumpableCommit`,
   * append it, and skip the commits that are disqualified.
   */
  method GetBumpableCommits(commits: seq<Commit>, ignorePaths: seq<string>, forcePatch: bool)
    returns (kept: seq<BumpableCommit>)
    ensures kept == Kept(commits, ignorePaths, forcePatch)
  {
    kept := [];
    for i := 0 to |commits|
      invariant kept == Kept(commits[..i], ignorePaths, forcePatch)
    {
      var c := commits[i];
      var titleLower := Lower(c.title);
      var verdict := FigureBumpType(titleLower, c.changedFiles, ignorePaths, forcePatch);
      assert commits[..i + 1][..i] == commits[..i];
      match verdict {
        case Qualified(bump) =>
          kept := kept + [BumpableCommit(c.sha, c.title, c.changedFiles, titleLower, bump)];
        case Disqualified(_) =>
      }
    }
    assert commits[..|commits|] == commits;
  }

  /** The positions at which `flags` holds, in increasing order. */
  function Positions(flags: seq<bool>): seq<nat>
    decreases |flags|
  {
    if flags == [] then []
    else
      var n := |flags| - 1;
      Positions(flags[..n]) + (if flags[n] then [n] else [])
  }

  /** `Positions` lists each position where the flag holds, once, in increasing order, and no other. */
  lemma {:induction false} PositionsExact(flags: seq<bool>)
    ensures
      var idx := Positions(flags);
      && |idx| <= |flags|
      && (forall j :: 0 <= j < |idx| ==> idx[j] < |flags|)
      && (forall j, j' :: 0 <= j < j' < |idx| ==> idx[j] < idx[j'])
      && (forall i :: 0 <= i < |flags| ==> (i in idx <==> flags[i]))
    decreases |flags|
  {
    if flags != [] {
      var n := |flags| - 1;
      var init := flags[..n];
      PositionsExact(init);
      var idx0 := Positions(init);
      var extra: seq<nat> := if flags[n] then [n] else [];
      assert Positions(flags) == idx0 + extra;
      forall i | 0 <= i < |flags|
        ensures i in idx0 + extra <==> flags[i]
      {
        if i < n {
          assert flags[i] == init[i];
          assert i !in extra;
        } else {
          assert i !in idx0;
        }
      }
    }
  }

  /** Whether each input commit survives the filter. */
  function QualifyFlags(commits: seq<Commit>, ignorePaths: seq<string>, forcePatch: bool): (q: seq<bool>)
    ensures |q| == |commits|
    ensures forall i :: 0 <= i < |commits| ==> q[i] == Qualifies(commits[i], ignorePaths, forcePatch)
  {
    seq(|commits|, i requires 0 <= i < |commits| => Qualifies(commits[i], ignorePaths, forcePatch))
  }

  /** The positions of the input commits that survive the filter, in increasing order. */
  function KeptIndices(commits: seq<Commit>, ignorePaths: seq<string>, forcePatch: bool): seq<nat> {
    Positions(QualifyFlags(commits, ignorePaths, forcePatch))
  }

  /** The positions of the kept commits are increasing positions of the input. */
  lemma KeptIndicesIncreasing(commits: seq<Commit>, ignorePaths: seq<string>, forcePatch: bool)
    ensures
      var idx := KeptIndices(commits, ignorePaths, forcePatch);
      && |idx| <= |commits|
      && (forall j :: 0 <= j < |idx| ==> idx[j] < |commits|)
      && (forall j, j' :: 0 <= j < j' < |idx| ==> idx[j] < idx[j'])
  {
    PositionsExact(QualifyFlags(commits, ignorePaths, forcePatch));
  }

  /** The positions of the kept commits are exactly the positions of the commits that are not disqualified. */
  lemma KeptIndicesAreQualifying(commits: seq<Commit>, ignorePaths: seq<string>, forcePatch: bool)
    ensures
      var idx := KeptIndices(commits, ignorePaths, forcePatch);
      forall i :: 0 <= i < |commits| ==> (i in idx <==> Qualifies(commits[i], ignorePaths, forcePatch))
  {
    PositionsExact(QualifyFlags(commits, ignorePaths, forcePatch));
  }

  /**
   * The kept list is the input commits at those positions, in the same order, each
   * with the bump type its classification gave.
   */
  lemma {:induction false} KeptIsSubsequence(commits: seq<Commit>, ignorePaths: seq<string>, forcePatch: bool)
    ensures
      var kept, idx := Kept(commits, ignorePaths, forcePatch), KeptIndices(commits, ignorePaths, forcePatch);
      && |kept| == |idx|
      && (forall j :: 0 <= j < |idx| ==> idx[j] < |commits| && Qualifies(commits[idx[j]], ignorePaths, forcePatch))
      && (forall j :: 0 <= j < |idx| ==> kept[j] == ToBumpable(commits[idx[j]], ignorePaths, forcePatch))
    decreases |commits|
  {
    if commits != [] {
      var n := |commits| - 1;
      var init := commits[..n];
      var kept, idx := Kept(commits, ignorePaths, forcePatch), KeptIndices(commits, ignorePaths, forcePatch);
      var kept0, idx0 := Kept(init, ignorePaths, forcePatch), KeptIndices(init, ignorePaths, forcePatch);
      KeptIsSubsequence(init, ignorePaths, forcePatch);
      var q := QualifyFlags(commits, ignorePaths, forcePatch);
      assert q[..n] == QualifyFlags(init, ignorePaths, forcePatch);
      assert idx == idx0 + (if q[n] then [n] else []);
      forall j | 0 <= j < |idx0|
        ensures idx[j] == idx0[j] && kept[j] == kept0[j] && commits[idx[j]] == init[idx0[j]]
      {
      }
    }
  }

  /** Filtering never lengthens the list, and no kept commit has the no-bump type. */
  lemma {:induction false} KeptBounds(commits: seq<Commit>, ignorePaths: seq<string>, forcePatch: bool)
    ensures |Kept(commits, ignorePaths, forcePatch)| <= |commits|
    ensures forall c :: c in Kept(commits, ignorePaths, forcePatch) ==> c.bumpType != NoBump
    decreases |commits|
  {
    if commits != [] {
      KeptBounds(commits[..|commits| - 1], ignorePaths, forcePatch);
    }
  }

  /** The filter works commit by commit: filtering a concatenation concatenates the filtered parts. */
  lemma {:induction false} KeptAppend(a: seq<Commit>, b: seq<Commit>, ignorePaths: seq<string>, forcePatch: bool)
    ensures Kept(a + b, ignorePaths, forcePatch) == Kept(a, ignorePaths, forcePatch) + Kept(b, ignorePaths, forcePatch)
    decreases |b|
  {
    if b == [] {
      assert a + b == a;
    } else {
      var n := |b| - 1;
      assert (a + b)[..|a + b| - 1] == a + b[..n];
      assert (a + b)[|a + b| - 1] == b[n];
      KeptAppend(a, b[..n], ignorePaths, forcePatch);
    }
  }
}
