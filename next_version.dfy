/**
 * The decision of `work` and the input normalisation of `main`: pick the bump of
 * highest precedence among the kept commits, apply it to the latest version tag, and
 * return the next version, or nothing when no commit warrants a bump.
 */
module NextVersion {
  import opened Wrappers
  import opened Text
  import opened Ignore
  import opened Tokens
  import opened Commits
  import opened Increment

  /**
   * `max(types, key=lambda x: -rank(x))`: the bump type of highest precedence. Python's
   * `max` keeps the first of equal keys; here equal keys mean equal bump types.
   */
  function Highest(types: seq<BumpType>): (r: BumpType)
    requires |types| > 0
    ensures r in types
    ensures forall t :: t in types ==> Rank(r) <= Rank(t)
  {
    if |types| == 1 then types[0]
    else
      var rest := Highest(types[1..]);
      assert forall t :: t in types ==> t == types[0] || t in types[1..];
      if Rank(rest) < Rank(types[0]) then rest else types[0]
  }

  function BumpTypes(kept: seq<BumpableCommit>): (types: seq<BumpType>)
    ensures |types| == |kept| && forall i :: 0 <= i < |kept| ==> types[i] == kept[i].bumpType
  {
    seq(|kept|, i requires 0 <= i < |kept| => kept[i].bumpType)
  }

  /**
   * The bump decision of `work`: nothing when no commit was kept, otherwise the bump
   * type of a kept commit that no other kept commit outranks.
   */
  function Decide(kept: seq<BumpableCommit>): (r: Option<BumpType>)
    ensures r.None? <==> kept == []
    ensures r.Some? ==> exists i :: 0 <= i < |kept| && kept[i].bumpType == r.value
    ensures r.Some? ==> forall i :: 0 <= i < |kept| ==> Rank(r.value) <= Rank(kept[i].bumpType)
  {
    if kept == [] then None
    else
      var types := BumpTypes(kept);
      var h := Highest(types);
      assert forall i :: 0 <= i < |kept| ==> types[i] in types;
      Some(h)
  }

  /** The bump the whole commit range calls for. */
  function RangeBump(commits: seq<Commit>, ignorePaths: seq<string>, forcePatch: bool): Option<BumpType> {
    Decide(Kept(commits, ignorePaths, forcePatch))
  }

  /**
   * The specification of `work` once the commits are known: no output when nothing was
   * kept, the `RuntimeError` when the top bump is no-bump, and otherwise the next
   * version or the error `increment_bump` raises.
   */
  function WorkOutcome(versionTag: string, kept: seq<BumpableCommit>, versionStyle: string): Result<Option<string>, Error> {
    match Decide(kept)
    case None => Success(None)
    case Some(bump) =>
      if bump == NoBump then Failure(NoBumpAfterFiltering)
      else
        match IncrementBump(versionTag, bump, versionStyle)
        case Success(next) => Success(Some(next))
        case Failure(e) => Failure(e)
  }

  /**
   * `work`: gather the bumpable commits, decide the bump and return the next version
   * (what the source prints), or nothing.
   */
  method Work(versionTag: string, commits: seq<Commit>, versionStyle: string, ignorePaths: seq<string>, forcePatch: bool)
    returns (out: Result<Option<string>, Error>)
    ensures out == WorkOutcome(versionTag, Kept(commits, ignorePaths, forcePatch), versionStyle)
    ensures out.Success? && out.value.None? <==> RangeBump(commits, ignorePaths, forcePatch).None?
    ensures out.Success? && out.value.Some? ==>
      exists b :: RangeBump(commits, ignorePaths, forcePatch) == Some(b) &&
        IncrementBump(versionTag, b, versionStyle) == Success(out.value.value)
  {
    var kept := GetBumpableCommits(commits, ignorePaths, forcePatch);
    if kept == [] {
      return Success(None);
    }
    var maxBump := Highest(BumpTypes(kept));
    if maxBump == NoBump {
      return Failure(NoBumpAfterFiltering);
    }
    var next := IncrementBump(versionTag, maxBump, versionStyle);
    match next {
      case Success(v) => out := Success(Some(v));
      case Failure(e) => out := Failure(e);
    }
    KeptBounds(commits, ignorePaths, forcePatch);
  }

  /** The decision over the raw commits is nothing exactly when every commit is disqualified. */
  lemma RangeBumpNone(commits: seq<Commit>, ignorePaths: seq<string>, forcePatch: bool)
    ensures RangeBump(commits, ignorePaths, forcePatch).None? <==>
      forall c :: c in commits ==> !Qualifies(c, ignorePaths, forcePatch)
  {
    var kept, idx := Kept(commits, ignorePaths, forcePatch), KeptIndices(commits, ignorePaths, forcePatch);
    KeptIndicesAreQualifying(commits, ignorePaths, forcePatch);
    KeptIsSubsequence(commits, ignorePaths, forcePatch);
    if kept == [] {
      forall c | c in commits
        ensures !Qualifies(c, ignorePaths, forcePatch)
      {
        var i :| 0 <= i < |commits| && commits[i] == c;
        assert i !in idx;
      }
    } else {
      assert commits[idx[0]] in commits;
    }
  }

  /**
   * Otherwise the decision is the bump type of some commit that qualifies, which no
   * qualifying commit outranks, and which is never no-bump.
   */
  lemma RangeBumpSome(commits: seq<Commit>, ignorePaths: seq<string>, forcePatch: bool)
    ensures var r := RangeBump(commits, ignorePaths, forcePatch);
      r.Some? ==>
        && r.value != NoBump
        && (exists c :: c in commits && Classify(Lower(c.title), c.changedFiles, ignorePaths, forcePatch) == Qualified(r.value))
        && (forall c :: c in commits && Qualifies(c, ignorePaths, forcePatch) ==>
              Rank(r.value) <= Rank(Classify(Lower(c.title), c.changedFiles, ignorePaths, forcePatch).bump))
  {
    var kept, idx := Kept(commits, ignorePaths, forcePatch), KeptIndices(commits, ignorePaths, forcePatch);
    var r := Decide(kept);
    if r.Some? {
      KeptIndicesAreQualifying(commits, ignorePaths, forcePatch);
      KeptIsSubsequence(commits, ignorePaths, forcePatch);
      KeptBounds(commits, ignorePaths, forcePatch);
      var j :| 0 <= j < |kept| && kept[j].bumpType == r.value;
      assert kept[j] in kept;
      assert commits[idx[j]] in commits;
      forall c | c in commits && Qualifies(c, ignorePaths, forcePatch)
        ensures Rank(r.value) <= Rank(Classify(Lower(c.title), c.changedFiles, ignorePaths, forcePatch).bump)
      {
        var i :| 0 <= i < |commits| && commits[i] == c;
        assert i in idx;
        var j' :| 0 <= j' < |idx| && idx[j'] == i;
        assert kept[j'] == ToBumpable(c, ignorePaths, forcePatch);
      }
    }
  }

  /** Only which commits are in the range matters, not their order (nor how often they occur). */
  lemma SameCommitsSameBump(commits: seq<Commit>, others: seq<Commit>, ignorePaths: seq<string>, forcePatch: bool)
    requires forall c :: c in commits <==> c in others
    ensures RangeBump(commits, ignorePaths, forcePatch) == RangeBump(others, ignorePaths, forcePatch)
  {
    RangeBumpNone(commits, ignorePaths, forcePatch);
    RangeBumpNone(others, ignorePaths, forcePatch);
    RangeBumpSome(commits, ignorePaths, forcePatch);
    RangeBumpSome(others, ignorePaths, forcePatch);
    var r, r' := RangeBump(commits, ignorePaths, forcePatch), RangeBump(others, ignorePaths, forcePatch);
    assert r.None? <==> r'.None?;
    if r.Some? {
      var c :| c in commits && Classify(Lower(c.title), c.changedFiles, ignorePaths, forcePatch) == Qualified(r.value);
      var c' :| c' in others && Classify(Lower(c'.title), c'.changedFiles, ignorePaths, forcePatch) == Qualified(r'.value);
      assert Rank(r.value) == Rank(r'.value);
    }
  }

  /** Permuting the commits changes neither the decision nor the output. */
  lemma OrderIndependent(versionTag: string, commits: seq<Commit>, others: seq<Commit>,
                         versionStyle: string, ignorePaths: seq<string>, forcePatch: bool)
    requires multiset(commits) == multiset(others)
    ensures RangeBump(commits, ignorePaths, forcePatch) == RangeBump(others, ignorePaths, forcePatch)
    ensures WorkOutcome(versionTag, Kept(commits, ignorePaths, forcePatch), versionStyle) ==
            WorkOutcome(versionTag, Kept(others, ignorePaths, forcePatch), versionStyle)
  {
    forall c
      ensures c in commits <==> c in others
    {
      assert c in commits <==> c in multiset(commits);
      assert c in others <==> c in multiset(others);
    }
    SameCommitsSameBump(commits, others, ignorePaths, forcePatch);
  }

  /** The `RuntimeError("detected [no-bump] after commit filtering")` can never be raised. */
  lemma NoBumpErrorUnreachable(versionTag: string, commits: seq<Commit>, versionStyle: string,
                               ignorePaths: seq<string>, forcePatch: bool)
    ensures WorkOutcome(versionTag, Kept(commits, ignorePaths, forcePatch), versionStyle) != Failure(NoBumpAfterFiltering)
  {
    RangeBumpSome(commits, ignorePaths, forcePatch);
  }

  /**
   * Precedence across the range: a commit whose title carries a major, minor or patch
   * token forces a bump at least that high, whatever the files of any commit.
   */
  lemma TokenForcesBump(commits: seq<Commit>, ignorePaths: seq<string>, forcePatch: bool, c: Commit, bump: BumpType)
    requires c in commits
    requires TitleBump(Lower(c.title)) == Some(bump) && bump != NoBump
    ensures RangeBump(commits, ignorePaths, forcePatch).Some?
    ensures Rank(RangeBump(commits, ignorePaths, forcePatch).value) <= Rank(bump)
    ensures bump == Major ==> RangeBump(commits, ignorePaths, forcePatch) == Some(Major)
  {
    RangeBumpNone(commits, ignorePaths, forcePatch);
    RangeBumpSome(commits, ignorePaths, forcePatch);
    assert Qualifies(c, ignorePaths, forcePatch);
    var r := RangeBump(commits, ignorePaths, forcePatch);
    if bump == Major {
      assert Rank(r.value) == 0 && BumpTokens[0].0 == Major;
    }
  }

  /**
   * A no-bump commit is only dropped, not a veto over the range: next to a tokenless
   * commit that touches a file no pattern ignores, with force-patching on and no
   * other commit in the range, the decision is PATCH.
   */
  lemma NoBumpIsNotAVeto(noBump: Commit, tokenless: Commit, ignorePaths: seq<string>)
    requires TitleBump(Lower(noBump.title)) == Some(NoBump)
    requires TitleBump(Lower(tokenless.title)) == None
    requires !AllIgnored(tokenless.changedFiles, ignorePaths)
    ensures RangeBump([noBump, tokenless], ignorePaths, true) == Some(Patch)
  {
    var commits := [noBump, tokenless];
    assert commits[..1] == [noBump] && [noBump][..0] == [];
    assert !Qualifies(noBump, ignorePaths, true);
    assert Classify(Lower(tokenless.title), tokenless.changedFiles, ignorePaths, true) == Qualified(Patch);
    assert Kept([noBump], ignorePaths, true) == [];
    assert Kept(commits, ignorePaths, true) == [ToBumpable(tokenless, ignorePaths, true)];
  }

  /** `main`: the tag is lower-cased and stripped of every leading `v`. */
  function NormaliseTag(tag: string): (r: string)
    ensures r == [] || r[0] != 'v'
    ensures exists n :: 0 <= n <= |tag| && r == Lower(tag)[n..] && forall i :: 0 <= i < n ==> Lower(tag)[i] == 'v'
  {
    var lowered := Lower(tag);
    var n := LeadingVs(lowered);
    lowered[n..]
  }

  /** The number of `v` characters `lstrip("v")` removes. */
  function LeadingVs(s: string): (n: nat)
    ensures n <= |s|
    ensures forall i :: 0 <= i < n ==> s[i] == 'v'
    ensures n < |s| ==> s[n] != 'v'
  {
    if s != [] && s[0] == 'v' then 1 + LeadingVs(s[1..]) else 0
  }

  /** `main`: the style defaults to X.Y.Z and is upper-cased. */
  function NormaliseStyle(versionStyle: Option<string>): (r: string)
    ensures versionStyle.None? ==> r == VersionStyleXYZ
    ensures versionStyle.Some? ==> |r| == |versionStyle.value|
    ensures versionStyle.Some? ==> forall i :: 0 <= i < |r| ==> r[i] == UpperChar(versionStyle.value[i])
    ensures forall i :: 0 <= i < |r| ==> !('a' <= r[i] <= 'z')
  {
    Upper(versionStyle.GetOr(VersionStyleXYZ))
  }

  /**
   * `main`: normalise the inputs and run `work`. The environment, the git queries and
   * logging are outside the model: the tag, the optional style, the commits of the
   * range and the settings are parameters.
   */
  method Run(latestVersionTag: string, versionStyle: Option<string>, commits: seq<Commit>,
             ignorePaths: seq<string>, forcePatch: bool)
    returns (out: Result<Option<string>, Error>)
    ensures out == WorkOutcome(NormaliseTag(latestVersionTag), Kept(commits, ignorePaths, forcePatch), NormaliseStyle(versionStyle))
    ensures out != Failure(NoBumpAfterFiltering)
  {
    out := Work(NormaliseTag(latestVersionTag), commits, NormaliseStyle(versionStyle), ignorePaths, forcePatch);
    NoBumpErrorUnreachable(NormaliseTag(latestVersionTag), commits, NormaliseStyle(versionStyle), ignorePaths, forcePatch);
  }
}
