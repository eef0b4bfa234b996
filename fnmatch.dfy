/**
 * Shell-style matching of a file name against an ignore pattern, as Python's
 * `fnmatch.fnmatch` does on a POSIX system (where `os.path.normcase` changes nothing,
 * so matching is case-sensitive): `*` matches any run of characters, including `/`
 * and the empty run, so `**` behaves as `*` followed by `*`; `?` matches any one
 * character; every other character matches itself.
 */
module Fnmatch {

  /** Does the whole of `name` match the whole of `pat`? */
  function Match(name: string, pat: string): bool
    decreases |pat|, |name|
  {
    if pat == [] then name == []
    else if pat[0] == '*' then Match(name, pat[1..]) || (name != [] && Match(name[1..], pat))
    else name != [] && (pat[0] == '?' || pat[0] == name[0]) && Match(name[1..], pat[1..])
  }

  /** Characters that `fnmatch` gives a special meaning to. */
  predicate IsWildcard(c: char) {
    c == '*' || c == '?' || c == '['
  }

  /** A pattern with no special characters in it. */
  predicate IsLiteral(lit: string) {
    forall c :: c in lit ==> !IsWildcard(c)
  }

  /** One or more `*`. */
  predicate IsStars(p: string) {
    |p| > 0 && forall c :: c in p ==> c == '*'
  }

  predicate EndsWith(s: string, suffix: string) {
    |suffix| <= |s| && s[|s| - |suffix|..] == suffix
  }

  /** A pattern of stars only matches every name. */
  lemma {:induction false} StarsMatchAnything(name: string, stars: string)
    requires IsStars(stars)
    ensures Match(name, stars)
    decreases |stars|, |name|
  {
    assert stars[0] in stars;
    if |stars| > 1 {
      assert forall c :: c in stars[1..] ==> c in stars;
      StarsMatchAnything(name, stars[1..]);
    } else if name != [] {
      StarsMatchAnything(name[1..], stars);
    }
  }

  /** A literal pattern matches exactly itself. */
  lemma {:induction false} LiteralMatchesItself(name: string, lit: string)
    requires IsLiteral(lit)
    ensures Match(name, lit) <==> name == lit
  {
    if lit != [] {
      assert lit[0] in lit;
    }
    if lit != [] && name != [] {
      assert forall c :: c in lit[1..] ==> c in lit;
      LiteralMatchesItself(name[1..], lit[1..]);
      assert name == [name[0]] + name[1..];
      assert lit == [lit[0]] + lit[1..];
    }
  }

  /** Directory patterns: a literal followed by one or more stars matches the names that start with it. */
  lemma {:induction false} PrefixPattern(name: string, lit: string, stars: string)
    requires IsLiteral(lit) && IsStars(stars)
    ensures Match(name, lit + stars) <==> lit <= name
  {
    if lit == [] {
      assert lit + stars == stars;
      StarsMatchAnything(name, stars);
    } else {
      var p := lit + stars;
      assert p[0] == lit[0] && p[1..] == lit[1..] + stars;
      assert lit[0] in lit && forall c :: c in lit[1..] ==> c in lit;
      if name != [] {
        PrefixPattern(name[1..], lit[1..], stars);
        assert lit <= name <==> lit[0] == name[0] && lit[1..] <= name[1..];
      }
    }
  }

  /** `*.ext`-style patterns: a star followed by a literal matches the names that end with it. */
  lemma {:induction false} SuffixPattern(name: string, lit: string)
    requires IsLiteral(lit)
    ensures Match(name, "*" + lit) <==> EndsWith(name, lit)
    decreases |name|
  {
    var p := "*" + lit;
    assert p[0] == '*' && p[1..] == lit;
    LiteralMatchesItself(name, lit);
    if name != [] {
      SuffixPattern(name[1..], lit);
      assert EndsWith(name, lit) <==> name == lit || EndsWith(name[1..], lit) by {
        if |lit| < |name| {
          assert name[1..][|name| - 1 - |lit|..] == name[|name| - |lit|..];
        }
      }
    }
  }
}
