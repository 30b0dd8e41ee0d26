/** Fencing tokens as text: a node id, a colon and a decimal number below 2^64. */
module Fencing {
  import opened Prelude

  const LIMIT: nat := 0x1_0000_0000_0000_0000

  function Digit(d: nat): char
    requires d < 10
  {
    ('0' as int + d) as char
  }

  predicate IsDigit(c: char) {
    '0' <= c <= '9'
  }

  function Decimal(v: nat): string {
    if v < 10 then [Digit(v)] else Decimal(v / 10) + [Digit(v % 10)]
  }

  /** `FencingToken::next` after the counter reached v. */
  function Token(node: string, v: nat): string {
    node + ":" + Decimal(v)
  }

  /** Splits at the first colon. */
  function SplitOnce(s: string): (r: Option<(string, string)>)
    ensures r.None? <==> ':' !in s
    ensures r.Some? ==> s == r.value.0 + ":" + r.value.1 && ':' !in r.value.0
  {
    if s == [] then None
    else if s[0] == ':' then
      assert s == "" + ":" + s[1..];
      Some(("", s[1..]))
    else
      var rest := SplitOnce(s[1..]);
      if rest.None? then None
      else
        assert s == ([s[0]] + rest.value.0) + ":" + rest.value.1;
        Some(([s[0]] + rest.value.0, rest.value.1))
  }

  /** Digits read from the left; None on any other character. */
  function Digits(s: string): Option<nat> {
    if s == [] then Some(0)
    else
      var init, c := Digits(s[..|s| - 1]), s[|s| - 1];
      if init.None? || !IsDigit(c) then None else Some(init.value * 10 + (c as int - '0' as int))
  }

  /** Parsing a 64-bit unsigned number: at least one digit, an optional plus sign, no overflow. */
  function ParseNumber(s: string): Option<nat> {
    var digits := if s != [] && s[0] == '+' then s[1..] else s;
    if digits == [] then None
    else
      var v := Digits(digits);
      if v.Some? && v.value < LIMIT then v else None
  }

  function Parse(token: string): Option<(string, nat)> {
    var parts := SplitOnce(token);
    if parts.None? then None
    else
      var v := ParseNumber(parts.value.1);
      if v.None? then None else Some((parts.value.0, v.value))
  }

  predicate IsTokenValid(current: string, provided: string) {
    var c, p := Parse(current), Parse(provided);
    c.Some? && p.Some? && c.value == p.value
  }

  lemma {:induction false} DecimalDigits(v: nat)
    ensures Decimal(v) != [] && IsDigit(Decimal(v)[0]) && Digits(Decimal(v)) == Some(v)
  {
    var s := Decimal(v);
    if v < 10 {
      assert s[..0] == [];
      assert Digits(s[..0]) == Some(0);
    } else {
      DecimalDigits(v / 10);
      assert s[..|s| - 1] == Decimal(v / 10);
    }
  }

  /** A number reads back from its text exactly when it has 64 bits. */
  lemma NumberRoundTrip(v: nat)
    ensures ParseNumber(Decimal(v)) == if v < 0x1_0000_0000_0000_0000 then Some(v) else None
  {
    DecimalDigits(v);
  }

  lemma {:induction false} ColonIsNoDigit(s: string)
    requires ':' in s
    ensures Digits(s) == None
  {
    var n := |s| - 1;
    if s[n] != ':' {
      assert s == s[..n] + [s[n]];
      ColonIsNoDigit(s[..n]);
    }
  }

  lemma {:induction false} SplitAtFirst(a: string, b: string)
    requires ':' !in a
    ensures SplitOnce(a + ":" + b) == Some((a, b))
  {
    if a == [] {
      assert a + ":" + b == ":" + b;
    } else {
      assert (a + ":" + b)[1..] == a[1..] + ":" + b;
      SplitAtFirst(a[1..], b);
      assert [a[0]] + a[1..] == a && (a + ":" + b)[0] == a[0];
    }
  }

  /** A token reads back as its node and number exactly when the node id has no colon. */
  lemma TokenRoundTrip(node: string, v: nat)
    requires v < LIMIT
    ensures Parse(Token(node, v)) == Some((node, v)) <==> ':' !in node
    ensures ':' in node ==> Parse(Token(node, v)) == None
  {
    if ':' !in node {
      SplitAtFirst(node, Decimal(v));
      NumberRoundTrip(v);
    } else {
      var parts := SplitOnce(node).value;
      var rest := parts.1 + ":" + Decimal(v);
      assert Token(node, v) == parts.0 + ":" + rest;
      SplitAtFirst(parts.0, rest);
      assert rest[|parts.1|] == ':';
      if rest[0] == '+' {
        assert rest[1..][|parts.1| - 1] == ':';
        ColonIsNoDigit(rest[1..]);
      } else {
        ColonIsNoDigit(rest);
      }
    }
  }

  /** Tokens of one generator match exactly when they are the same, provided its node id has no colon; otherwise none matches even itself. */
  lemma ValidIffSame(node: string, v: nat, w: nat)
    requires v < LIMIT && w < LIMIT
    ensures IsTokenValid(Token(node, v), Token(node, w)) <==> ':' !in node && v == w
  {
    TokenRoundTrip(node, v);
    TokenRoundTrip(node, w);
  }
}
