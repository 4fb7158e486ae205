/**
 * Shell-style pattern matching as Python 2's `fnmatch.fnmatch` does it:
 * `*` matches any run of characters, `?` any one character, `[...]` one
 * character of a class (a leading `!` negates it, `a-z` is a range, a `]`
 * right after `[` or `[!` is a member), and a `[` with no closing `]` is a
 * literal character. Every other character matches itself.
 */
module Glob {
  import opened Outcomes

  /** Characters that mean something at the top level of a pattern. */
  predicate IsSpecial(c: char) { c == '*' || c == '?' || c == '[' }

  /** A pattern that contains no special character matches only itself. */
  predicate Literal(s: string) { forall i | 0 <= i < |s| :: !IsSpecial(s[i]) }

  /** A string that cannot close a bracket class opened before it. */
  predicate NoClose(s: string) { forall i | 0 <= i < |s| :: s[i] != ']' }

  /** Index of the first ']' in `q` at or after `j`. */
  function CloseFrom(q: string, j: nat): (r: Option<nat>)
    ensures r.Some? ==> j <= r.value < |q| && q[r.value] == ']'
    ensures r.None? ==> forall i | j <= i < |q| :: q[i] != ']'
    decreases |q| - j
  {
    if j >= |q| then None else if q[j] == ']' then Some(j) else CloseFrom(q, j + 1)
  }

  /** Where the search for the closing ']' starts in the text `q` after a '['. */
  function ClassStart(q: string): nat
  {
    var k := if 0 < |q| && q[0] == '!' then 1 else 0;
    if k < |q| && q[k] == ']' then k + 1 else k
  }

  /** Index in `q` (the text after a '[') of the ']' that closes the class, if any. */
  function ClassClose(q: string): Option<nat>
  {
    CloseFrom(q, ClassStart(q))
  }

  /** Membership in the items of a class: single characters and `a-z` ranges. */
  predicate InItems(items: string, c: char)
    decreases |items|
  {
    if items == [] then false
    else if |items| >= 3 && items[1] == '-' then (items[0] <= c <= items[2]) || InItems(items[3..], c)
    else items[0] == c || InItems(items[1..], c)
  }

  /** Membership in the class whose text between the brackets is `body`. */
  predicate InClass(body: string, c: char)
  {
    if 0 < |body| && body[0] == '!' then !InItems(body[1..], c) else InItems(body, c)
  }

  /** `fnmatch.fnmatch(s, p)`. */
  predicate Match(p: string, s: string)
    decreases |p| + |s|
  {
    if p == [] then s == []
    else if p[0] == '*' then Match(p[1..], s) || (s != [] && Match(p, s[1..]))
    else if s == [] then false
    else if p[0] == '?' then Match(p[1..], s[1..])
    else if p[0] == '[' then
      match ClassClose(p[1..])
      case None => s[0] == '[' && Match(p[1..], s[1..])
      case Some(j) => InClass(p[1..][..j], s[0]) && Match(p[j + 2..], s[1..])
    else s[0] == p[0] && Match(p[1..], s[1..])
  }

  /** A literal pattern matches exactly one string: itself. */
  lemma {:induction false} LiteralMatch(p: string, s: string)
    requires Literal(p)
    ensures Match(p, s) <==> s == p
    decreases |p|
  {
    if p != [] && s != [] {
      LiteralMatch(p[1..], s[1..]);
      assert s == p <==> s[0] == p[0] && s[1..] == p[1..];
    }
  }

  /** A literal head of a pattern must be the head of the text, character by character. */
  lemma {:induction false} LiteralPrefix(a: string, p: string, s: string)
    requires Literal(a)
    ensures Match(a + p, s) <==> |a| <= |s| && s[..|a|] == a && Match(p, s[|a|..])
    decreases |a|
  {
    if a == [] {
      assert a + p == p;
      assert s[..0] == a && s[0..] == s;
    } else {
      assert (a + p)[0] == a[0];
      assert (a + p)[1..] == a[1..] + p;
      if s != [] {
        LiteralPrefix(a[1..], p, s[1..]);
        if |a| <= |s| {
          assert s[1..][|a| - 1..] == s[|a|..];
          assert s[..|a|] == a <==> s[0] == a[0] && s[1..][..|a| - 1] == a[1..];
        }
      }
    }
  }

  /** A `*` followed by `p` matches any text followed by something `p` matches. */
  lemma {:induction false} StarAbsorbs(p: string, t: string, s: string)
    requires Match(p, s)
    ensures Match("*" + p, t + s)
    decreases |t|
  {
    var q := "*" + p;
    assert q[1..] == p;
    if t == [] {
      assert t + s == s;
    } else {
      StarAbsorbs(p, t[1..], s);
      assert (t + s)[1..] == t[1..] + s;
    }
  }

  /** The closing ']' of a class is not moved by appending text that has no ']'. */
  lemma {:induction false} CloseFromAppend(q: string, lit: string, j: nat)
    requires NoClose(lit)
    ensures CloseFrom(q + lit, j) == CloseFrom(q, j)
    decreases |q + lit| - j
  {
    if j < |q| {
      assert (q + lit)[j] == q[j];
      if q[j] != ']' {
        CloseFromAppend(q, lit, j + 1);
      }
    } else if j < |q + lit| {
      assert (q + lit)[j] == lit[j - |q|];
      CloseFromAppend(q, lit, j + 1);
    }
  }

  lemma ClassCloseAppend(q: string, lit: string)
    requires NoClose(lit)
    ensures ClassClose(q + lit) == ClassClose(q)
  {
    if q == [] {
      assert q + lit == lit;
      var k := ClassStart(lit);
      assert CloseFrom(lit, k).None?;
    } else {
      assert (q + lit)[0] == q[0];
      if |q| > 1 {
        assert (q + lit)[1] == q[1];
      } else if q[0] == '!' && |lit| > 0 {
        assert (q + lit)[1] == lit[0];
      }
      assert ClassStart(q + lit) == ClassStart(q) || (ClassStart(q) >= |q| && ClassStart(q + lit) >= |q|);
      CloseFromAppend(q, lit, ClassStart(q));
      if ClassStart(q + lit) != ClassStart(q) {
        assert CloseFrom(q, ClassStart(q)).None?;
        CloseFromAppend(q, lit, ClassStart(q + lit));
      }
    }
  }

  /** `p + lit` matches `s` exactly when `s` ends in `lit` and `p` matches the part before. */
  ghost predicate SuffixSplit(p: string, lit: string, s: string)
  {
    Match(p + lit, s) <==> |lit| <= |s| && s[|s| - |lit|..] == lit && Match(p, s[..|s| - |lit|])
  }

  /**
   * A pattern that ends in literal text without ']' matches only texts that
   * end in that literal text, and the rest of the pattern must match what
   * comes before it.
   */
  lemma {:induction false} LiteralSuffix(p: string, lit: string, s: string)
    requires Literal(lit) && NoClose(lit)
    ensures Match(p + lit, s) <==> |lit| <= |s| && s[|s| - |lit|..] == lit && Match(p, s[..|s| - |lit|])
    decreases |p| + |s|, 2
  {
    if p == [] {
      SuffixOfEmpty(lit, s);
    } else if p[0] == '*' {
      SuffixOfStar(p, lit, s);
    } else if s == [] {
      SuffixOfNothing(p, lit);
    } else if p[0] == '[' {
      SuffixOfClass(p, lit, s);
    } else {
      SuffixOfChar(p, lit, s);
    }
  }

  lemma SuffixOfEmpty(lit: string, s: string)
    requires Literal(lit)
    ensures SuffixSplit([], lit, s)
  {
    assert [] + lit == lit;
    LiteralMatch(lit, s);
    if |lit| <= |s| {
      assert s[..|s| - |lit|] == [] <==> |s| == |lit|;
      assert s == s[..|s| - |lit|] + s[|s| - |lit|..];
    }
  }

  /** Dropping the first character of the text keeps its tail and shortens what comes before. */
  lemma TailParts(s: string, lit: string)
    requires s != [] && |lit| <= |s| - 1
    ensures s[1..][|s| - 1 - |lit|..] == s[|s| - |lit|..]
    ensures s[1..][..|s| - 1 - |lit|] == s[..|s| - |lit|][1..]
    ensures s[..|s| - |lit|][0] == s[0]
  {
  }

  lemma {:induction false} SuffixOfStar(p: string, lit: string, s: string)
    requires Literal(lit) && NoClose(lit)
    requires p != [] && p[0] == '*'
    ensures SuffixSplit(p, lit, s)
    decreases |p| + |s|, 0
  {
    LiteralSuffix(p[1..], lit, s);
    if s != [] {
      LiteralSuffix(p, lit, s[1..]);
    }
    var pl := p + lit;
    assert pl[0] == p[0];
    assert pl[1..] == p[1..] + lit;
    if s != [] && |lit| <= |s| - 1 {
      TailParts(s, lit);
    }
  }

  lemma SuffixOfNothing(p: string, lit: string)
    requires p != [] && p[0] != '*'
    ensures SuffixSplit(p, lit, [])
  {
    assert (p + lit)[0] == p[0];
  }

  lemma {:induction false} SuffixOfChar(p: string, lit: string, s: string)
    requires Literal(lit) && NoClose(lit)
    requires p != [] && s != [] && p[0] != '*' && p[0] != '['
    ensures SuffixSplit(p, lit, s)
    decreases |p| + |s|, 0
  {
    LiteralSuffix(p[1..], lit, s[1..]);
    var pl := p + lit;
    assert pl[0] == p[0];
    assert pl[1..] == p[1..] + lit;
    if |lit| <= |s| - 1 {
      TailParts(s, lit);
    }
  }

  lemma {:induction false} SuffixOfClass(p: string, lit: string, s: string)
    requires Literal(lit) && NoClose(lit)
    requires p != [] && s != [] && p[0] == '['
    ensures SuffixSplit(p, lit, s)
    decreases |p| + |s|, 1
  {
    var pl := p + lit;
    assert pl[0] == p[0];
    assert pl[1..] == p[1..] + lit;
    ClassCloseAppend(p[1..], lit);
    if ClassClose(p[1..]).Some? {
      SuffixOfClosedClass(p, lit, s, ClassClose(p[1..]).value);
    } else {
      SuffixOfOpenBracket(p, lit, s);
    }
  }

  /** A '[' with no closing ']' is a literal character. */
  lemma {:induction false} SuffixOfOpenBracket(p: string, lit: string, s: string)
    requires Literal(lit) && NoClose(lit)
    requires p != [] && s != [] && p[0] == '['
    requires ClassClose((p + lit)[1..]) == ClassClose(p[1..]) == None
    ensures SuffixSplit(p, lit, s)
    decreases |p| + |s|, 0
  {
    LiteralSuffix(p[1..], lit, s[1..]);
    var pl := p + lit;
    assert pl[1..] == p[1..] + lit;
    assert Match(pl, s) == (s[0] == '[' && Match(p[1..] + lit, s[1..]));
    var n := |s| - |lit|;
    if 0 < n {
      TailParts(s, lit);
      assert Match(p, s[..n]) == (s[0] == '[' && Match(p[1..], s[..n][1..]));
    }
  }

  lemma {:induction false} SuffixOfClosedClass(p: string, lit: string, s: string, j: nat)
    requires Literal(lit) && NoClose(lit)
    requires p != [] && s != [] && p[0] == '['
    requires ClassClose((p + lit)[1..]) == ClassClose(p[1..]) == Some(j)
    ensures SuffixSplit(p, lit, s)
    decreases |p| + |s|, 0
  {
    LiteralSuffix(p[j + 2..], lit, s[1..]);
    var pl := p + lit;
    assert pl[1..][..j] == p[1..][..j];
    assert pl[j + 2..] == p[j + 2..] + lit;
    if |lit| <= |s| - 1 {
      TailParts(s, lit);
    }
  }

  /** `*` matches every text. */
  lemma StarMatchesAll(s: string)
    ensures Match("*", s)
  {
    assert "*" == "*" + [];
    StarAbsorbs([], s, []);
    assert s + [] == s;
  }
}
