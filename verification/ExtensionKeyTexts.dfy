/**
 The idempotency keys of the extension handlers as texts: `extension:`, an
 extension id, a content digest, a word and a caller's token, with colons
 between. `Extensions.Key` keeps them apart by construction; here is exactly
 when the texts do.
 */
module ExtensionKeyTexts {
  import opened ColonTexts
  import Extensions

  datatype Handler = Admit | Authorize | Execute | Revoke

  /** What follows the extension id; the token is an idempotency key or an approval id. */
  datatype Tail = Tail(digest: string, handler: Handler, token: string)

  function Word(h: Handler): string {
    match h
    case Admit => "admit"
    case Authorize => "authorize"
    case Execute => "execute"
    case Revoke => "revoke"
  }

  /** `sha256:` and 64 lower-case hexadecimal digits. */
  predicate IsDigest(s: string) {
    |s| == 71 && s[..7] == "sha256:" && forall i :: 7 <= i < |s| ==> IsHex(s[i])
  }

  /** What request validation lets through. */
  predicate Writable(t: Tail) {
    IsDigest(t.digest) && t.token != ""
  }

  function Command(t: Tail): string {
    Word(t.handler) + ":" + t.token
  }

  function TailText(t: Tail): string {
    t.digest + ":" + Command(t)
  }

  function Text(id: string, t: Tail): string {
    "extension:" + (id + ":" + TailText(t))
  }

  lemma WordsHaveNoColon(h: Handler)
    ensures ':' !in Word(h)
  {
  }

  lemma WordsDiffer(h: Handler, k: Handler)
    requires Word(h) == Word(k)
    ensures h == k
  {
    assert |Word(h)| == |Word(k)| && Word(h)[0] == Word(k)[0];
  }

  /** Equal tail texts are the same tail. */
  lemma TailsAreUnambiguous(t: Tail, u: Tail)
    requires TailText(t) == TailText(u) && |t.digest| == |u.digest|
    ensures t == u
  {
    SameHead(t.digest, Command(t), u.digest, Command(u));
    WordsHaveNoColon(t.handler);
    WordsHaveNoColon(u.handler);
    SplitAtFirst(Word(t.handler), t.token, Word(u.handler), u.token);
    WordsDiffer(t.handler, u.handler);
  }

  // ---------------------------------------------------------------------------
  // When two extensions can share a key
  // ---------------------------------------------------------------------------

  /** z begins with a digest, a colon and a handler's word. */
  predicate Branches(z: string) {
    |z| > 72 && IsDigest(z[..71]) && z[71] == ':' && exists h :: Starts(z[72..], Word(h))
  }

  /** The longer id is the shorter one followed by a colon, a digest and a handler's word. */
  predicate Extends(short: string, long: string) {
    Prolongs(short, long) && Branches(long[|short| + 1..])
  }

  ghost predicate Collide(id: string, id': string) {
    exists t, u :: Writable(t) && Writable(u) && (id != id' || t != u) && Text(id, t) == Text(id', u)
  }

  /** The one colon of a digest is its seventh character. */
  lemma DigestColon(d: string, i: nat)
    requires IsDigest(d) && i < 71 && d[i] == ':'
    ensures i == 6
  {
    assert i < 7 ==> d[i] == d[..7][i];
  }

  /** A tail that is also something followed by a tail begins with a whole digest. */
  lemma SurplusHoldsDigest(z: string, t: Tail, u: Tail)
    requires TailText(t) == z + ":" + TailText(u) && Writable(t) && Writable(u)
    ensures |z| > 71
  {
    var d := t.digest;
    assert u.digest[0] == u.digest[..7][0] == 's';
    assert TailText(u)[0] == 's';
    assert (z + ":" + TailText(u))[|z| + 1] == 's' && TailText(t)[|z|] == ':';
    assert forall i :: 0 <= i < 71 ==> TailText(t)[i] == d[i];
    assert IsHex(d[7]) && TailText(t)[72] == Word(t.handler)[0] != 's';
    if |z| < 71 {
      DigestColon(d, |z|);
    }
  }

  lemma SharedTextExtends(id: string, t: Tail, id': string, u: Tail)
    requires Text(id, t) == Text(id', u) && |id| < |id'| && Writable(t) && Writable(u)
    ensures Extends(id, id')
  {
    CancelLeft("extension:", id + ":" + TailText(t), id' + ":" + TailText(u));
    Surplus(id, TailText(t), id', TailText(u));
    var z := id'[|id| + 1..];
    SurplusHoldsDigest(z, t, u);
    Surplus(t.digest, Command(t), z, TailText(u));
    WordsHaveNoColon(t.handler);
    SurplusStarts(Word(t.handler), t.token, z[72..], TailText(u));
    assert |z| > 72;
  }

  /** A tail for the shorter id whose token swallows the surplus and a tail of the longer. */
  lemma Swallow(z: string) returns (t: Tail, u: Tail)
    requires Branches(z)
    ensures Writable(t) && Writable(u) && TailText(t) == z + ":" + TailText(u)
  {
    var d, rest := z[..71], z[72..];
    var h :| Starts(rest, Word(h));
    u := Tail(d, Admit, "t");
    t := Tail(d, h, Filled(rest, Word(h), TailText(u)));
    FilledReads(rest, Word(h), TailText(u));
    assert Command(t) == rest + ":" + TailText(u);
    JoinSurplus(d, rest, TailText(u));
    SplitThere(z);
  }

  lemma SplitThere(z: string)
    requires |z| > 72 && z[71] == ':'
    ensures z == z[..71] + ":" + z[72..]
  {
  }

  lemma ExtensionCollides(id: string, id': string)
    requires Extends(id, id')
    ensures Collide(id, id') && Collide(id', id)
  {
    var z := id'[|id| + 1..];
    var t, u := Swallow(z);
    assert id' == id + ":" + z;
    JoinSurplus(id, z, TailText(u));
    assert Writable(t) && Writable(u) && Text(id, t) == Text(id', u) && id != id';
  }

  /** Two extensions can write the same key text for different keys exactly when one id extends the other. */
  lemma CollideIffExtends(id: string, id': string)
    ensures Collide(id, id') <==> Extends(id, id') || Extends(id', id)
  {
    if Extends(id, id') {
      ExtensionCollides(id, id');
    } else if Extends(id', id) {
      ExtensionCollides(id', id);
    }
    if Collide(id, id') {
      var t, u :| Writable(t) && Writable(u) && (id != id' || t != u) && Text(id, t) == Text(id', u);
      if |id| < |id'| {
        SharedTextExtends(id, t, id', u);
      } else if |id'| < |id| {
        SharedTextExtends(id', u, id, t);
      } else {
        CancelLeft("extension:", id + ":" + TailText(t), id' + ":" + TailText(u));
        SameHead(id, TailText(t), id', TailText(u));
        TailsAreUnambiguous(t, u);
      }
    }
  }

  /**
   For two given ids the tokens decide: the shorter id's token has to hold the rest
   of the longer id and a whole tail. A token without a colon never does.
   */
  lemma ColonFreeTokensAreSafe(id: string, t: Tail, id': string, u: Tail)
    requires Writable(t) && Writable(u) && ':' !in t.token && ':' !in u.token && Text(id, t) == Text(id', u)
    ensures id == id' && t == u
  {
    CancelLeft("extension:", id + ":" + TailText(t), id' + ":" + TailText(u));
    if |id| < |id'| {
      LongerIdNeedsColon(id, t, id', u);
    } else if |id'| < |id| {
      LongerIdNeedsColon(id', u, id, t);
    } else {
      SameHead(id, TailText(t), id', TailText(u));
      TailsAreUnambiguous(t, u);
    }
  }

  lemma LongerIdNeedsColon(id: string, t: Tail, id': string, u: Tail)
    requires Writable(t) && Writable(u) && id + ":" + TailText(t) == id' + ":" + TailText(u) && |id| < |id'|
    ensures ':' in t.token
  {
    Surplus(id, TailText(t), id', TailText(u));
    var z := id'[|id| + 1..];
    SurplusHoldsDigest(z, t, u);
    Surplus(t.digest, Command(t), z, TailText(u));
    var rest, w := z[72..], Word(t.handler);
    WordsHaveNoColon(t.handler);
    SurplusStarts(w, t.token, rest, TailText(u));
    ColonWithin(u.digest, Command(u));
    if rest == w {
      SameHead(w, t.token, rest, TailText(u));
    } else {
      Surplus(w, t.token, rest, TailText(u));
      ColonWithin(rest[|w| + 1..], TailText(u));
    }
  }

  // ---------------------------------------------------------------------------
  // The keys of the extension handlers
  // ---------------------------------------------------------------------------

  /** How ids, digests, idempotency keys and approval ids are spelled. */
  datatype Names = Names(extension: nat -> string, digest: nat -> string, token: nat -> string, approval: nat -> string)

  function TailOf(n: Names, k: Extensions.Key): Tail {
    match k
    case AdmitKey(_, d, t) => Tail(n.digest(d), Admit, n.token(t))
    case AuthorizeKey(_, d, a) => Tail(n.digest(d), Authorize, n.approval(a))
    case ExecuteKey(_, d, t) => Tail(n.digest(d), Execute, n.token(t))
    case RevokeKey(_, d, t) => Tail(n.digest(d), Revoke, n.token(t))
  }

  function TextOf(n: Names, k: Extensions.Key): string {
    Text(n.extension(k.extension), TailOf(n, k))
  }

  ghost predicate OneToOne(f: nat -> string) {
    forall i: nat, j: nat :: f(i) == f(j) ==> i == j
  }

  /** The digests of a journal are digests, each spelled its own way. */
  ghost predicate Digests(n: Names, digests: set<nat>) {
    && (forall d :: d in digests ==> IsDigest(n.digest(d)))
    && forall d, e :: d in digests && e in digests && n.digest(d) == n.digest(e) ==> d == e
  }

  /** With ids that never extend one another, distinct keys of the handlers have distinct texts. */
  lemma HandlerKeysAreDistinct(n: Names, digests: set<nat>, k: Extensions.Key, k': Extensions.Key)
    requires OneToOne(n.extension) && OneToOne(n.token) && OneToOne(n.approval)
    requires Digests(n, digests) && k.digest in digests && k'.digest in digests
    requires TailOf(n, k).token != "" && TailOf(n, k').token != ""
    requires !Extends(n.extension(k.extension), n.extension(k'.extension)) && !Extends(n.extension(k'.extension), n.extension(k.extension))
    ensures TextOf(n, k) == TextOf(n, k') <==> k == k'
  {
    if TextOf(n, k) == TextOf(n, k') {
      CollideIffExtends(n.extension(k.extension), n.extension(k'.extension));
      assert Writable(TailOf(n, k)) && Writable(TailOf(n, k'));
      assert n.extension(k.extension) == n.extension(k'.extension) && TailOf(n, k) == TailOf(n, k');
    }
  }
}
