/** The micro runtime: frame checksums over 32-bit words and a ring buffer of frames. */
module Micro {
  const WORDS: nat := 0x1_0000_0000

  type Byte = x: nat | x < 0x100
  type Half = x: nat | x < 0x1_0000
  type Word = x: nat | x < 0x1_0000_0000
  type Long = x: nat | x < 0x1_0000_0000_0000_0000

  const PRIME: Word := 16777619
  const INVERSE: Word := 899433627
  const OFFSET: Word := 2166136261
  const MAGIC: Word := 0x4e4d5031
  const VERSION: Half := 1
  const ABI_VERSION: Word := 1
  const QUEUE_CAPACITY: nat := 8
  const PAYLOAD_CAPACITY: nat := 256

  datatype Frame = Frame(
    magic: Word,
    version: Half,
    messageType: Half,
    flags: Word,
    sequence: Long,
    payloadLength: Half,
    payload: seq<Byte>,
    checksum: Word)

  /** The payload array has its fixed size. */
  predicate Shaped(f: Frame) {
    |f.payload| == PAYLOAD_CAPACITY
  }

  // ---------------------------------------------------------------------------
  // Checksums
  // ---------------------------------------------------------------------------

  /** Bitwise exclusive or. */
  function Xor(a: nat, b: nat): nat
    decreases a + b
  {
    if b == 0 then a else if a == 0 then b else 2 * Xor(a / 2, b / 2) + (a + b) % 2
  }

  lemma {:induction false} XorBound(a: nat, b: nat, k: nat)
    requires a < Power(k) && b < Power(k)
    ensures Xor(a, b) < Power(k)
    decreases k
  {
    if k > 0 && !(a == 0 && b == 0) {
      XorBound(a / 2, b / 2, k - 1);
    }
  }

  function Power(k: nat): nat {
    if k == 0 then 1 else 2 * Power(k - 1)
  }

  lemma WordPower()
    ensures Power(32) == WORDS
  {
    assert Power(8) == 256;
    assert Power(16) == 65536;
    assert Power(24) == 16777216;
  }

  lemma XorBits(a: nat, b: nat)
    ensures Xor(a, b) / 2 == Xor(a / 2, b / 2) && Xor(a, b) % 2 == (a + b) % 2
  {}

  lemma ParityUndone(x: nat, a: nat, b: nat)
    requires x % 2 == (a + b) % 2
    ensures (x + b) % 2 == a % 2
  {}

  /** Xor with a fixed word is undone by itself. */
  lemma {:induction false} XorUndone(a: nat, b: nat)
    ensures Xor(Xor(a, b), b) == a
    decreases a + b
  {
    if !(a == 0 && b == 0) {
      var x := Xor(a, b);
      XorUndone(a / 2, b / 2);
      XorBits(a, b);
      XorBits(x, b);
      ParityUndone(x, a, b);
      assert Xor(x, b) / 2 == a / 2 && Xor(x, b) % 2 == a % 2;
    }
  }

  lemma {:induction false} XorCommutes(a: nat, b: nat)
    ensures Xor(a, b) == Xor(b, a)
    decreases a + b
  {
    if !(a == 0 && b == 0) {
      XorCommutes(a / 2, b / 2);
    }
  }

  /** `(h ^ w) * 16777619` in 32-bit arithmetic. */
  function Mix(h: Word, w: Word): Word {
    Xor(h, w) * PRIME % WORDS
  }

  /** A running hash, for any mixing step. */
  function FoldWith(mix: (Word, Word) -> Word, h: Word, words: seq<Word>): Word {
    if words == [] then h else mix(FoldWith(mix, h, words[..|words| - 1]), words[|words| - 1])
  }

  function Fold(h: Word, words: seq<Word>): Word {
    FoldWith(Mix, h, words)
  }

  function Low(n: Long): Word {
    n % WORDS
  }

  function High(n: Long): Word {
    n / WORDS
  }

  function HeaderWords(f: Frame): seq<Word> {
    [f.messageType, f.flags, Low(f.sequence), High(f.sequence)]
  }

  function PayloadWords(f: Frame, n: nat): seq<Word>
    requires Shaped(f) && n <= PAYLOAD_CAPACITY
  {
    seq(n, i requires 0 <= i < n => f.payload[i])
  }

  /** Everything the checksum covers. */
  function Words(f: Frame): seq<Word>
    requires Shaped(f) && f.payloadLength <= PAYLOAD_CAPACITY
  {
    HeaderWords(f) + PayloadWords(f, f.payloadLength)
  }

  function Checksum(f: Frame): Word
    requires Shaped(f)
  {
    if f.payloadLength > PAYLOAD_CAPACITY then 0 else Fold(OFFSET, Words(f))
  }

  method ComputeChecksum(f: Frame) returns (hash: Word)
    requires Shaped(f)
    ensures hash == Checksum(f)
  {
    if f.payloadLength > PAYLOAD_CAPACITY {
      return 0;
    }
    hash := OFFSET;
    hash := Mix(hash, f.messageType);
    hash := Mix(hash, f.flags);
    hash := Mix(hash, Low(f.sequence));
    hash := Mix(hash, High(f.sequence));
    HeaderFold(f);
    for i := 0 to f.payloadLength
      invariant hash == Fold(OFFSET, HeaderWords(f) + PayloadWords(f, i))
    {
      ghost var before, after := HeaderWords(f) + PayloadWords(f, i), HeaderWords(f) + PayloadWords(f, i + 1);
      assert after[..|after| - 1] == before && after[|after| - 1] == f.payload[i];
      hash := Mix(hash, f.payload[i]);
    }
  }

  lemma FoldSnoc(mix: (Word, Word) -> Word, h: Word, words: seq<Word>, w: Word)
    ensures FoldWith(mix, h, words + [w]) == mix(FoldWith(mix, h, words), w)
  {
    assert (words + [w])[..|words|] == words;
  }

  lemma HeaderFold(f: Frame)
    requires Shaped(f)
    ensures Fold(OFFSET, HeaderWords(f) + PayloadWords(f, 0)) == Mix(Mix(Mix(Mix(OFFSET, f.messageType), f.flags), Low(f.sequence)), High(f.sequence))
  {
    var w := HeaderWords(f);
    FoldSnoc(Mix, OFFSET, [], w[0]);
    FoldSnoc(Mix, OFFSET, [w[0]], w[1]);
    FoldSnoc(Mix, OFFSET, [w[0], w[1]], w[2]);
    FoldSnoc(Mix, OFFSET, [w[0], w[1], w[2]], w[3]);
    assert [] + [w[0]] == [w[0]] && [w[0]] + [w[1]] == [w[0], w[1]] && [w[0], w[1]] + [w[2]] == [w[0], w[1], w[2]];
    assert w + PayloadWords(f, 0) == [w[0], w[1], w[2]] + [w[3]];
  }

  /** The hashed words are the header fields and the used payload bytes, and lose nothing of them. */
  lemma WordsAreTheFrame(f: Frame, g: Frame)
    requires Shaped(f) && Shaped(g) && f.payloadLength == g.payloadLength <= PAYLOAD_CAPACITY
    ensures f.sequence == High(f.sequence) * 0x1_0000_0000 + Low(f.sequence) && Low(f.sequence) < 0x1_0000_0000
    ensures Words(f) == Words(g) <==>
            && f.messageType == g.messageType && f.flags == g.flags && f.sequence == g.sequence
            && forall i :: 0 <= i < f.payloadLength ==> f.payload[i] == g.payload[i]
  {
    if Words(f) == Words(g) {
      assert Words(f)[0] == Words(g)[0] && Words(f)[1] == Words(g)[1] && Words(f)[2] == Words(g)[2] && Words(f)[3] == Words(g)[3];
      forall i | 0 <= i < f.payloadLength ensures f.payload[i] == g.payload[i] {
        assert Words(f)[4 + i] == f.payload[i] && Words(g)[4 + i] == g.payload[i];
      }
    }
  }

  lemma SampleXors()
    ensures Xor(2166136261, 1) == 2166136260
    ensures Xor(67918732, 2) == 67918734
    ensures Xor(3983810698, 0) == 3983810698
    ensures Xor(1473198398, 1) == 1473198399
    ensures Xor(2050432557, 3) == 2050432558
  {}

  lemma SampleMixes()
    ensures Mix(2166136261, 1) == 67918732
    ensures Mix(67918732, 2) == 3983810698
    ensures Mix(3983810698, 0) == 1473198398
    ensures Mix(1473198398, 1) == 2050432557
    ensures Mix(2050432557, 3) == 2462351978
  {
    SampleXors();
  }

  /** One frame hashed out in full. */
  lemma SampleChecksum(f: Frame)
    requires Shaped(f) && f.messageType == 1 && f.flags == 2 && f.sequence == 0x1_0000_0000
    requires f.payloadLength == 1 && f.payload[0] == 3
    ensures Checksum(f) == 2462351978
  {
    HeaderFold(f);
    FoldSnoc(Mix, OFFSET, HeaderWords(f) + PayloadWords(f, 0), f.payload[0]);
    assert HeaderWords(f) + PayloadWords(f, 0) + [f.payload[0]] == Words(f);
    SampleMixes();
  }

  /** The multiplier is odd, hence invertible: 16777619 * 899433627 == 1 modulo 2^32. */
  lemma MultiplicationIsInjective(x: Word, y: Word)
    requires x * PRIME % WORDS == y * PRIME % WORDS
    ensures x == y
  {
    assert 16777619 * 899433627 == 3513497 * 0x1_0000_0000 + 1;
    var p, q := x * 16777619 / WORDS, y * 16777619 / WORDS;
    assert x * 16777619 - WORDS * p == y * 16777619 - WORDS * q;
    var d := x - y;
    assert d * 16777619 == WORDS * (p - q);
    assert d == WORDS * (899433627 * (p - q) - 3513497 * d);
  }

  /** Different words and different running hashes stay different through a step. */
  ghost predicate Separates(mix: (Word, Word) -> Word) {
    forall h: Word, k: Word, w: Word :: h != k ==> mix(h, w) != mix(k, w) && mix(w, h) != mix(w, k)
  }

  lemma MixSeparatesPair(h: Word, k: Word, w: Word)
    requires h != k
    ensures Mix(h, w) != Mix(k, w) && Mix(w, h) != Mix(w, k)
  {
    XorCommutes(w, h);
    XorCommutes(w, k);
    XorUndone(h, w);
    XorUndone(k, w);
    XorIsWord(h, w);
    XorIsWord(k, w);
    if Mix(h, w) == Mix(k, w) {
      MultiplicationIsInjective(Xor(h, w), Xor(k, w));
    }
  }

  lemma MixSeparates()
    ensures Separates(Mix)
  {
    forall h: Word, k: Word, w: Word | h != k ensures Mix(h, w) != Mix(k, w) && Mix(w, h) != Mix(w, k) {
      MixSeparatesPair(h, k, w);
    }
  }

  lemma XorIsWord(a: Word, b: Word)
    ensures Xor(a, b) < WORDS
  {
    WordPower();
    XorBound(a, b, 32);
  }

  ghost predicate DifferAt<T>(a: seq<T>, b: seq<T>, k: nat) {
    |a| == |b| && k < |a| && a[k] != b[k] && forall i :: 0 <= i < |a| && i != k ==> a[i] == b[i]
  }

  /** One changed word changes the hash, whatever follows it, for every separating step. */
  lemma {:induction false} OneWordChangesHash(mix: (Word, Word) -> Word, h: Word, a: seq<Word>, b: seq<Word>, k: nat)
    requires Separates(mix) && DifferAt(a, b, k)
    ensures FoldWith(mix, h, a) != FoldWith(mix, h, b)
    decreases |a|
  {
    var n := |a| - 1;
    if k == n {
      assert a[..n] == b[..n];
    } else {
      OneWordChangesHash(mix, h, a[..n], b[..n], k);
    }
  }

  /** Equal payload lengths, and exactly one hashed word or payload byte differs. */
  ghost predicate DamagedAt(f: Frame, g: Frame, k: nat)
    requires Shaped(f) && Shaped(g)
  {
    f.payloadLength == g.payloadLength <= PAYLOAD_CAPACITY && DifferAt(Words(f), Words(g), k)
  }

  /** Single-word damage always shows in the checksum. */
  lemma DamageIsVisible(f: Frame, g: Frame, k: nat)
    requires Shaped(f) && Shaped(g) && DamagedAt(f, g, k)
    ensures Checksum(f) != Checksum(g)
  {
    MixSeparates();
    OneWordChangesHash(Mix, OFFSET, Words(f), Words(g), k);
  }

  lemma {:induction false} SameTail(mix: (Word, Word) -> Word, h: Word, a: seq<Word>, b: seq<Word>, n: nat)
    requires |a| == |b| && n <= |a| && FoldWith(mix, h, a[..n]) == FoldWith(mix, h, b[..n]) && forall i :: n <= i < |a| ==> a[i] == b[i]
    ensures FoldWith(mix, h, a) == FoldWith(mix, h, b)
    decreases |a|
  {
    var m := |a| - 1;
    if n == |a| {
      assert a[..n] == a && b[..n] == b;
    } else {
      assert a[..m][..n] == a[..n] && b[..m][..n] == b[..n];
      SameTail(mix, h, a[..m], b[..m], n);
    }
  }

  lemma FirstTwo(mix: (Word, Word) -> Word, h: Word, words: seq<Word>)
    requires |words| >= 2
    ensures FoldWith(mix, h, words[..2]) == mix(mix(h, words[0]), words[1])
  {
    FoldSnoc(mix, h, [], words[0]);
    assert [] + [words[0]] == [words[0]];
    FoldSnoc(mix, h, [words[0]], words[1]);
    assert words[..2] == [words[0]] + [words[1]];
  }

  /** The flags that mask the change of running hash from a to b. */
  lemma XorCompensates(a: Word, b: Word, w: Word) returns (v: Word)
    ensures Xor(b, v) == Xor(a, w) && (a != b ==> v != w)
  {
    var t := Xor(a, w);
    XorIsWord(a, w);
    XorIsWord(t, b);
    v := Xor(t, b);
    XorUndone(t, b);
    XorCommutes(b, v);
    XorUndone(a, w);
    XorUndone(b, w);
  }

  /** Two damaged words can hide each other: any change of type is masked by one change of flags. */
  lemma TwoWordsCanHide(f: Frame, messageType: Half) returns (g: Frame)
    requires Shaped(f) && f.payloadLength <= PAYLOAD_CAPACITY && messageType != f.messageType
    ensures Shaped(g) && g == f.(messageType := messageType, flags := g.flags) && g.flags != f.flags
    ensures Checksum(g) == Checksum(f)
  {
    var a, b := Mix(OFFSET, f.messageType), Mix(OFFSET, messageType);
    MixSeparatesPair(f.messageType, messageType, OFFSET);
    var flags := XorCompensates(a, b, f.flags);
    g := f.(messageType := messageType, flags := flags);
    var u, v := Words(f), Words(g);
    FirstTwo(Mix, OFFSET, u);
    FirstTwo(Mix, OFFSET, v);
    forall i | 2 <= i < |u| ensures u[i] == v[i] {}
    SameTail(Mix, OFFSET, u, v, 2);
  }

  // ---------------------------------------------------------------------------
  // Damage to the payload length, which is not hashed
  // ---------------------------------------------------------------------------

  lemma ReadModulo(x: int, h: Word, k: int)
    requires x == h + WORDS * k
    ensures x % WORDS == h
  {
  }

  /** Multiplying by the inverse and then by the multiplier changes nothing. */
  lemma InverseUndone(h: Word)
    ensures h * INVERSE % WORDS * PRIME % WORDS == h
  {
    assert 16777619 * 899433627 == 3513497 * 0x1_0000_0000 + 1;
    var g, q := h * 899433627 % WORDS, h * 899433627 / WORDS;
    assert g == h * 899433627 - WORDS * q;
    assert g * 16777619 == h + WORDS * (3513497 * h - 16777619 * q);
    ReadModulo(g * 16777619, h, 3513497 * h - 16777619 * q);
  }

  /** The one word that a step mixes in without a trace. */
  function Silent(h: Word): nat {
    Xor(h, h * INVERSE % WORDS)
  }

  lemma MixFixedIff(h: Word, w: Word)
    ensures Mix(h, w) == h <==> w == Silent(h)
  {
    var g: Word := h * INVERSE % WORDS;
    InverseUndone(h);
    XorIsWord(h, w);
    XorCommutes(h, w);
    XorCommutes(h, g);
    XorUndone(w, h);
    XorUndone(g, h);
    if Mix(h, w) == h {
      MultiplicationIsInjective(Xor(h, w), g);
    }
  }

  function Shorter(f: Frame): Frame
    requires f.payloadLength > 0
  {
    f.(payloadLength := f.payloadLength - 1)
  }

  /** A frame that lost its last byte keeps its checksum exactly when that byte is the silent one. */
  lemma LostByteHidesIff(f: Frame)
    requires Shaped(f) && 0 < f.payloadLength <= PAYLOAD_CAPACITY
    ensures Checksum(f) == Checksum(Shorter(f)) <==> f.payload[f.payloadLength - 1] == Silent(Checksum(Shorter(f)))
  {
    var n := f.payloadLength - 1;
    assert Words(f) == Words(Shorter(f)) + [f.payload[n]];
    FoldSnoc(Mix, OFFSET, Words(Shorter(f)), f.payload[n]);
    MixFixedIff(Checksum(Shorter(f)), f.payload[n]);
  }

  lemma {:induction false} XorSelf(a: nat)
    ensures Xor(a, a) == 0
  {
    if a > 0 {
      XorSelf(a / 2);
    }
  }

  /** A frame whose header cancels the offset, with an empty payload. */
  function Blank(messageType: Half, n: Half): Frame {
    Frame(MAGIC, VERSION, messageType, Mix(OFFSET, messageType), 0, n, seq(PAYLOAD_CAPACITY, _ => 0), 0)
  }

  lemma {:induction false} BlankIsSilent(messageType: Half, n: Half)
    requires n <= PAYLOAD_CAPACITY
    ensures Checksum(Blank(messageType, n)) == 0
  {
    var f := Blank(messageType, n);
    if n == 0 {
      HeaderFold(f);
      XorSelf(Mix(OFFSET, messageType));
      assert Xor(0, 0) == 0;
    } else {
      BlankIsSilent(messageType, n - 1);
      assert Shorter(f) == Blank(messageType, n - 1);
      LostByteHidesIff(f);
      assert Silent(0) == 0;
    }
  }
}
