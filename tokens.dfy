/** The bump types and the commit-title tokens that request them. */
module Tokens {
  import opened Wrappers
  import opened Text

  datatype BumpType = Major | Minor | Patch | NoBump

  /** `BUMP_TOKENS`: each bump type with its tokens, in order of precedence. */
  const BumpTokens: seq<(BumpType, seq<string>)> := [
    (Major, ["[major]"]),
    (Minor, ["[minor]"]),
    (Patch, ["[patch]", "[fix]", "[bump]"]),
    (NoBump, ["[no-bump]", "[no_bump]", "[nobump]"])
  ]

  /** The position of a bump type in `BumpTokens`: a smaller rank takes precedence. */
  function Rank(bump: BumpType): (r: nat)
    ensures r < |BumpTokens| && BumpTokens[r].0 == bump
  {
    match bump
    case Major => 0
    case Minor => 1
    case Patch => 2
    case NoBump => 3
  }

  function TokensOf(bump: BumpType): seq<string> {
    BumpTokens[Rank(bump)].1
  }

  /** `_has_bump_token`: does the string contain any of the bump type's tokens? */
  predicate HasBumpToken(bump: BumpType, s: string) {
    exists t :: t in TokensOf(bump) && Contains(s, t)
  }

  /**
   * The first bump type, from position `from` of the table on, whose tokens occur in
   * the title.
   */
  function FirstTokenFrom(titleLower: string, from: nat): (r: Option<BumpType>)
    requires from <= |BumpTokens|
    ensures r.Some? ==> from <= Rank(r.value) && HasBumpToken(r.value, titleLower)
    ensures r.Some? ==> forall k :: from <= Rank(k) < Rank(r.value) ==> !HasBumpToken(k, titleLower)
    ensures r.None? ==> forall k :: from <= Rank(k) ==> !HasBumpToken(k, titleLower)
    decreases |BumpTokens| - from
  {
    if from == |BumpTokens| then None
    else if HasBumpToken(BumpTokens[from].0, titleLower) then Some(BumpTokens[from].0)
    else FirstTokenFrom(titleLower, from + 1)
  }

  /** The bump type a (lower-cased) commit title asks for, if it carries any token. */
  function TitleBump(titleLower: string): Option<BumpType> {
    FirstTokenFrom(titleLower, 0)
  }

  /**
   * Token precedence: a title asks for the bump type of highest precedence among
   * those whose tokens it contains, and for none when it contains no token at all.
   */
  lemma TokenPrecedence(titleLower: string, bump: BumpType)
    ensures TitleBump(titleLower) == Some(bump) <==>
      HasBumpToken(bump, titleLower) && forall k :: Rank(k) < Rank(bump) ==> !HasBumpToken(k, titleLower)
    ensures TitleBump(titleLower) == None <==> forall k :: !HasBumpToken(k, titleLower)
  {
    var r := TitleBump(titleLower);
    if r.Some? && r.value != bump {
      if Rank(r.value) < Rank(bump) {
        assert HasBumpToken(r.value, titleLower);
      } else {
        assert Rank(bump) != Rank(r.value);
      }
    }
  }

  /** Where in the title a token stands does not matter. */
  lemma TokenAnywhere(before: string, token: string, after: string, bump: BumpType)
    requires token in TokensOf(bump)
    ensures HasBumpToken(bump, before + token + after)
    ensures TitleBump(before + token + after).Some?
    ensures Rank(TitleBump(before + token + after).value) <= Rank(bump)
  {
    var s := before + token + after;
    assert s[|before|..|before| + |token|] == token;
    assert OccursAt(s, token, |before|);
    TokenPrecedence(s, bump);
  }

  /**
   * Tokens are matched against the lower-cased title, so a title asks for a bump type
   * exactly when some stretch of it equals one of that type's tokens up to ASCII case.
   */
  lemma CaseInsensitive(title: string, bump: BumpType)
    ensures HasBumpToken(bump, Lower(title)) <==>
      exists t, i :: t in TokensOf(bump) && OccursIgnoringCase(title, t, i)
  {
    forall t | t in TokensOf(bump)
      ensures Contains(Lower(title), t) <==> exists i :: OccursIgnoringCase(title, t, i)
    {
      LowerContains(title, t);
    }
  }

  /** A token opens with `[`, closes with `]`, and holds no other bracket of either kind. */
  predicate WellBracketed(t: string) {
    |t| >= 2 && t[0] == '[' && t[|t| - 1] == ']' && forall j :: 0 < j < |t| - 1 ==> t[j] != '[' && t[j] != ']'
  }

  /** Every token of the table is well bracketed and lower-case. */
  lemma TokenShape(bump: BumpType, t: string)
    requires t in TokensOf(bump)
    ensures WellBracketed(t)
    ensures forall c :: c in t ==> !('A' <= c <= 'Z')
  {
    match bump
    case Major =>
    case Minor =>
    case Patch =>
    case NoBump =>
  }

  /** No token belongs to two bump types. */
  lemma TokenOwner(a: BumpType, b: BumpType, t: string)
    requires t in TokensOf(a) && t in TokensOf(b)
    ensures a == b
  {
    match a
    case Major =>
    case Minor =>
    case Patch =>
    case NoBump =>
  }

  /** A well-bracketed token inside another one, starting where a `[` stands, is that token. */
  lemma BracketedInside(token: string, t: string, d: int)
    requires WellBracketed(token) && WellBracketed(t)
    requires 0 <= d && d + |t| <= |token| && token[d..d + |t|] == t
    ensures t == token
  {
    assert token[d] == t[0];
    assert token[d + |t| - 1] == t[|t| - 1];
  }

  /** Where no `[` precedes a well-bracketed token, the only well-bracketed string occurring in the whole is that token. */
  lemma OnlyTokenAtEnd(before: string, token: string, t: string, i: int)
    requires WellBracketed(token) && WellBracketed(t) && '[' !in before
    ensures OccursAt(before + token, t, i) ==> t == token
  {
    var s := before + token;
    if OccursAt(s, t, i) {
      assert s[i] == t[0];
      assert forall j :: 0 <= j < |before| ==> s[j] == before[j] && before[j] in before;
      var d := i - |before|;
      assert token[d..d + |t|] == s[i..i + |t|];
      BracketedInside(token, t, d);
    }
  }

  /** Where no `[` precedes a token, no token of another bump type occurs. */
  lemma NoOtherTokenAtEnd(before: string, token: string, bump: BumpType, k: BumpType)
    requires token in TokensOf(bump) && '[' !in before && k != bump
    ensures !HasBumpToken(k, before + token)
  {
    TokenShape(bump, token);
    forall t | t in TokensOf(k)
      ensures !Contains(before + token, t)
    {
      TokenShape(k, t);
      if t == token {
        TokenOwner(k, bump, t);
      }
      assert t != token;
      forall i
        ensures !OccursAt(before + token, t, i)
      {
        OnlyTokenAtEnd(before, token, t, i);
      }
    }
  }

  /**
   * A title that ends in a token, with no `[` before it, asks for that token's bump
   * type: no token of another type can occur in it.
   */
  lemma TokenAtEnd(before: string, token: string, bump: BumpType)
    requires token in TokensOf(bump) && '[' !in before
    ensures TitleBump(before + token) == Some(bump)
  {
    var s := before + token;
    assert s == before + token + [];
    TokenAnywhere(before, token, [], bump);
    var r := TitleBump(s);
    if r.value != bump {
      NoOtherTokenAtEnd(before, token, bump, r.value);
    }
  }

  /** A title without a `[` carries no token. */
  lemma NoBracketNoToken(s: string)
    requires '[' !in s
    ensures TitleBump(s) == None
  {
    forall k, t | t in TokensOf(k)
      ensures !Contains(s, t)
    {
      TokenShape(k, t);
      forall i | 0 <= i && i + |t| <= |s|
        ensures !OccursAt(s, t, i)
      {
        assert s[i] in s;
        assert s[i..i + |t|][0] == s[i];
      }
    }
    TokenPrecedence(s, Major);
  }
}
