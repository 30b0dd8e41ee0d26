/** Texts built from parts with colons between them. */
module ColonTexts {

  lemma CancelLeft(p: string, a: string, b: string)
    requires p + a == p + b
    ensures a == b
  {
    assert a == (p + a)[|p|..] && b == (p + b)[|p|..];
  }

  /** Where two splittings at a colon disagree, the surplus of the longer head opens the other tail. */
  lemma Surplus(a: string, x: string, b: string, y: string)
    requires a + ":" + x == b + ":" + y && |a| < |b|
    ensures b[..|a|] == a && b[|a|] == ':' && x == b[|a| + 1..] + ":" + y
  {
    var s := a + ":" + x;
    assert b[..|a|] == s[..|a|] && b[|a|] == s[|a|];
    assert x == s[|a| + 1..];
  }

  lemma SameHead(a: string, x: string, b: string, y: string)
    requires a + ":" + x == b + ":" + y && |a| == |b|
    ensures a == b && x == y
  {
    var s := a + ":" + x;
    assert a == s[..|a|] && b == s[..|a|] && x == s[|a| + 1..] && y == s[|a| + 1..];
  }

  lemma ColonWithin(z: string, y: string)
    ensures ':' in z + ":" + y
  {
    assert (z + ":" + y)[|z|] == ':';
  }

  lemma SplitAtLast(a: string, e: string, b: string, f: string)
    requires a + ":" + e == b + ":" + f && ':' !in e && ':' !in f
    ensures a == b && e == f
  {
    if |a| < |b| {
      Surplus(a, e, b, f);
      ColonWithin(b[|a| + 1..], f);
    } else if |b| < |a| {
      Surplus(b, f, a, e);
      ColonWithin(a[|b| + 1..], e);
    } else {
      SameHead(a, e, b, f);
    }
  }

  lemma SplitAtFirst(a: string, x: string, b: string, y: string)
    requires a + ":" + x == b + ":" + y && ':' !in a && ':' !in b
    ensures a == b && x == y
  {
    if |a| < |b| {
      Surplus(a, x, b, y);
    } else if |b| < |a| {
      Surplus(b, y, a, x);
    } else {
      SameHead(a, x, b, y);
    }
  }

  lemma JoinSurplus(a: string, z: string, y: string)
    ensures a + ":" + (z + ":" + y) == (a + ":" + z) + ":" + y
  {
  }

  /** z is the word, or goes on after it with a colon. */
  predicate Starts(z: string, w: string) {
    z == w || (|w| < |z| && z[..|w|] == w && z[|w|] == ':')
  }

  /** A text that is both a word and its rest, and z and its rest, has z start with the word. */
  lemma SurplusStarts(w: string, rest: string, z: string, y: string)
    requires w + ":" + rest == z + ":" + y && ':' !in w
    ensures Starts(z, w)
  {
    if |z| < |w| {
      Surplus(z, y, w, rest);
    } else if |z| == |w| {
      SameHead(z, y, w, rest);
    } else {
      Surplus(w, rest, z, y);
    }
  }

  /** What a word must be followed by to read as z followed by y. */
  function Filled(z: string, w: string, y: string): string
    requires Starts(z, w)
  {
    if z == w then y else z[|w| + 1..] + ":" + y
  }

  lemma FilledReads(z: string, w: string, y: string)
    requires Starts(z, w)
    ensures w + ":" + Filled(z, w, y) == z + ":" + y
  {
    if z != w {
      assert z == w + ":" + z[|w| + 1..];
      JoinSurplus(w, z[|w| + 1..], y);
    }
  }

  /** One id is the other followed by a colon and a surplus. */
  predicate Prolongs(short: string, long: string) {
    |short| < |long| && long[..|short|] == short && long[|short|] == ':'
  }

  predicate IsHex(c: char) {
    '0' <= c <= '9' || 'a' <= c <= 'f'
  }
}
