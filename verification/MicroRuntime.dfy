/** The micro runtime object: a fixed ring of frames that refines a bounded queue. */
module MicroRuntime {
  import opened Micro

  datatype Status = Ok | Invalid | QueueFull | SafetyDenied | EffectFailed

  predicate Acceptable(f: Frame)
    requires Shaped(f)
  {
    f.magic == MAGIC && f.version == VERSION && f.payloadLength <= PAYLOAD_CAPACITY && f.checksum == Checksum(f)
  }

  ghost predicate AllAcceptable(frames: seq<Frame>) {
    forall i :: 0 <= i < |frames| ==> Shaped(frames[i]) && Acceptable(frames[i])
  }

  /** The frames the gate allowed, in order. */
  function Allowed(gated: seq<Frame>, verdicts: seq<bool>): seq<Frame>
    requires |gated| == |verdicts|
  {
    if gated == [] then []
    else Allowed(gated[..|gated| - 1], verdicts[..|gated| - 1]) + if verdicts[|gated| - 1] then [gated[|gated| - 1]] else []
  }

  lemma AllowedSnoc(gated: seq<Frame>, verdicts: seq<bool>, f: Frame, v: bool)
    requires |gated| == |verdicts|
    ensures Allowed(gated + [f], verdicts + [v]) == Allowed(gated, verdicts) + if v then [f] else []
  {
    assert (gated + [f])[..|gated|] == gated && (verdicts + [v])[..|gated|] == verdicts;
  }

  lemma MoveHead(gated: seq<Frame>, queued: seq<Frame>)
    requires queued != []
    ensures gated + queued == (gated + [queued[0]]) + queued[1..]
  {}

  /** The i-th place after `head`, wrapping around. */
  function Slot(head: nat, i: nat): (k: nat)
    requires head < QUEUE_CAPACITY && i <= QUEUE_CAPACITY
    ensures k < QUEUE_CAPACITY && k == if head + i < QUEUE_CAPACITY then head + i else head + i - QUEUE_CAPACITY
  {
    (head + i) % QUEUE_CAPACITY
  }

  /** The ring read from `head`. */
  function Ring<T>(queue: seq<T>, head: nat, count: nat): (s: seq<T>)
    requires |queue| == QUEUE_CAPACITY && head < QUEUE_CAPACITY && count <= QUEUE_CAPACITY
    ensures |s| == count
  {
    seq(count, i requires 0 <= i < count => queue[Slot(head, i)])
  }

  lemma RingPush<T>(queue: seq<T>, head: nat, count: nat, f: T)
    requires |queue| == QUEUE_CAPACITY && head < QUEUE_CAPACITY && count < QUEUE_CAPACITY
    ensures Ring(queue[Slot(head, count) := f], head, count + 1) == Ring(queue, head, count) + [f]
  {}

  lemma RingPop<T>(queue: seq<T>, head: nat, count: nat)
    requires |queue| == QUEUE_CAPACITY && head < QUEUE_CAPACITY && 0 < count <= QUEUE_CAPACITY
    ensures Ring(queue, Slot(head, 1), count - 1) == Ring(queue, head, count)[1..]
  {}

  /**
   `accepted`, `gated`, `verdicts` and `effected` are history: what was queued,
   what the safety gate saw and said, and what the effector was given.
   */
  class Runtime {
    var abiVersion: Word
    const queue: array<Frame>
    var head: nat
    var tail: nat
    var count: nat
    ghost var accepted: seq<Frame>
    ghost var gated: seq<Frame>
    ghost var verdicts: seq<bool>
    ghost var effected: seq<Frame>

    ghost predicate Valid()
      reads this, queue
    {
      && queue.Length == QUEUE_CAPACITY && head < QUEUE_CAPACITY && count <= QUEUE_CAPACITY
      && tail == Slot(head, count) && abiVersion == ABI_VERSION
      && accepted == gated + Contents()
      && |gated| == |verdicts| && effected == Allowed(gated, verdicts)
      && AllAcceptable(accepted)
    }

    /** The queue as a sequence, oldest first. */
    ghost function Contents(): seq<Frame>
      requires queue.Length == QUEUE_CAPACITY && head < QUEUE_CAPACITY && count <= QUEUE_CAPACITY
      reads this, queue
    {
      Ring(queue[..], head, count)
    }

    constructor ()
      ensures Valid() && fresh(queue) && Contents() == [] && accepted == [] && gated == [] && verdicts == [] && effected == []
    {
      abiVersion, head, tail, count := ABI_VERSION, 0, 0, 0;
      var blank := Frame(0, 0, 0, 0, 0, 0, [], 0);
      queue := new Frame[QUEUE_CAPACITY](_ => blank);
      accepted, gated, verdicts, effected := [], [], [], [];
    }

    /** Queues exactly the intact frames that find room; nothing is overwritten. */
    method Submit(f: Frame) returns (r: Status)
      requires Valid() && Shaped(f)
      modifies this`tail, this`count, this`accepted, queue
      ensures Valid()
      ensures r == Invalid <==> !Acceptable(f)
      ensures r == QueueFull <==> Acceptable(f) && |old(Contents())| == QUEUE_CAPACITY
      ensures r == Ok <==> Acceptable(f) && |old(Contents())| < QUEUE_CAPACITY
      ensures Contents() == old(Contents()) + if r == Ok then [f] else []
      ensures accepted == old(accepted) + if r == Ok then [f] else []
    {
      if abiVersion != ABI_VERSION || f.magic != MAGIC || f.version != VERSION || f.payloadLength > PAYLOAD_CAPACITY {
        return Invalid;
      }
      var checksum := ComputeChecksum(f);
      if f.checksum != checksum {
        return Invalid;
      }
      if count == QUEUE_CAPACITY {
        return QueueFull;
      }
      RingPush(queue[..], head, count, f);
      ghost var before := Contents();
      queue[tail] := f;
      assert queue[..] == old(queue[..])[tail := f];
      tail := Slot(tail, 1);
      count := count + 1;
      accepted := accepted + [f];
      assert Contents() == before + [f];
      r := Ok;
    }

    /** Takes the oldest frame: the gate sees it once, the effector once more if it was allowed. */
    method Tick(allowed: bool, performed: bool) returns (r: Status)
      requires Valid()
      modifies this`head, this`count, this`gated, this`verdicts, this`effected
      ensures Valid() && accepted == old(accepted)
      ensures old(Contents()) == [] <==> r == Invalid
      ensures r == Invalid ==> Contents() == [] && gated == old(gated) && verdicts == old(verdicts) && effected == old(effected)
      ensures r != Invalid ==>
                && Contents() == old(Contents())[1..]
                && gated == old(gated) + [old(Contents())[0]] && verdicts == old(verdicts) + [allowed]
                && effected == old(effected) + (if allowed then [old(Contents())[0]] else [])
                && r == (if !allowed then SafetyDenied else if !performed then EffectFailed else Ok)
    {
      if abiVersion != ABI_VERSION || count == 0 {
        return Invalid;
      }
      ghost var before := Contents();
      ghost var frame := queue[head];
      assert before[0] == frame;
      MoveHead(gated, before);
      AllowedSnoc(gated, verdicts, frame, allowed);
      gated, verdicts := gated + [frame], verdicts + [allowed];
      if !allowed {
        r := SafetyDenied;
      } else {
        effected := effected + [frame];
        r := if performed then Ok else EffectFailed;
      }
      RingPop(queue[..], head, count);
      head := Slot(head, 1);
      count := count - 1;
      assert Contents() == before[1..];
    }
  }

  /** A frame damaged in one hashed word or payload byte is refused, whatever its sender computed. */
  lemma DamagedFramesAreRefused(f: Frame, g: Frame, k: nat)
    requires Shaped(f) && Shaped(g) && Acceptable(f) && DamagedAt(f, g, k) && g.checksum == f.checksum
    ensures !Acceptable(g)
  {
    DamageIsVisible(f, g, k);
  }

  /** An intact frame that lost its last byte is refused, unless that byte is the silent one. */
  lemma ShortenedIsAcceptedIff(f: Frame)
    requires Shaped(f) && Acceptable(f) && f.payloadLength > 0
    ensures Acceptable(Shorter(f)) <==> f.payload[f.payloadLength - 1] == Silent(Checksum(Shorter(f)))
  {
    LostByteHidesIff(f);
  }

  /** For every message type there are headers under which any two lengths of an empty payload pass for each other. */
  lemma LengthDamageCanPass(messageType: Half, n: Half, m: Half)
    requires n <= PAYLOAD_CAPACITY && m <= PAYLOAD_CAPACITY
    ensures Acceptable(Blank(messageType, n)) && Acceptable(Blank(messageType, n).(payloadLength := m))
  {
    BlankIsSilent(messageType, n);
    BlankIsSilent(messageType, m);
    assert Blank(messageType, n).(payloadLength := m) == Blank(messageType, m);
  }

  /** Effects follow the order of acceptance, each gated frame at most once. */
  lemma {:induction false} EffectsKeepOrder(gated: seq<Frame>, verdicts: seq<bool>, i: nat) returns (at: nat)
    requires |gated| == |verdicts| && i < |Allowed(gated, verdicts)|
    ensures at < |gated| && verdicts[at] && gated[at] == Allowed(gated, verdicts)[i]
    ensures |Allowed(gated[..at], verdicts[..at])| == i
  {
    var n := |gated| - 1;
    var init := Allowed(gated[..n], verdicts[..n]);
    if i < |init| {
      at := EffectsKeepOrder(gated[..n], verdicts[..n], i);
      assert gated[..n][..at] == gated[..at] && verdicts[..n][..at] == verdicts[..at];
    } else {
      at := n;
    }
  }
}
