/** The write-ahead log: framed records one after another, and what replaying them recovers. */
module WalLog {
  import opened Binary
  import opened Wrappers

  type Key(==, !new)
  type Value(==, !new)

  datatype Record = Set(key: Key, value: Value) | Delete(key: Key)

  /** How records become bytes, and the checksum of those bytes. */
  datatype Codec = Codec(encode: Record -> Bytes, decode: Bytes -> Option<Record>, crc: Bytes -> nat)

  /** All that is known of the codec: it round-trips, rejects empty input, and its checksum has 32 bits. */
  ghost predicate Lawful(codec: Codec) {
    && (forall r :: codec.decode(codec.encode(r)) == Some(r))
    && codec.decode([]) == None
    && (forall b :: codec.crc(b) < U32)
  }

  /** Replay takes longer records for corruption. */
  const MAX_RECORD: nat := 64 * 1024 * 1024

  const HEADER: nat := 8

  datatype Error = UnexpectedEof

  type Contents = map<Key, Value>

  function Apply(m: Contents, r: Record): Contents {
    match r
    case Set(k, v) => m[k := v]
    case Delete(k) => m - {k}
  }

  function ApplyAll(m: Contents, rs: seq<Record>): Contents
    decreases rs
  {
    if rs == [] then m else ApplyAll(Apply(m, rs[0]), rs[1..])
  }

  // ---------------------------------------------------------------------------
  // Frames
  // ---------------------------------------------------------------------------

  predicate Fits(codec: Codec, r: Record) {
    |codec.encode(r)| <= MAX_RECORD
  }

  predicate AllFit(codec: Codec, rs: seq<Record>) {
    forall i :: 0 <= i < |rs| ==> Fits(codec, rs[i])
  }

  /** Length, checksum, payload. */
  function Frame(codec: Codec, r: Record): (b: Bytes)
    ensures |b| == HEADER + |codec.encode(r)|
  {
    var payload := codec.encode(r);
    ToLe(|payload|) + ToLe(codec.crc(payload)) + payload
  }

  function Log(codec: Codec, rs: seq<Record>): Bytes {
    if rs == [] then [] else Frame(codec, rs[0]) + Log(codec, rs[1..])
  }

  /** What stands at the head of the bytes still to be replayed. */
  datatype Head = Stop | Short | Whole(record: Record, size: nat)

  function ParseHead(codec: Codec, b: Bytes): (h: Head)
    ensures h.Whole? ==> HEADER <= h.size <= |b|
  {
    if |b| < HEADER then Stop
    else
      var len := FromLe(b[..4]);
      if len > MAX_RECORD then Stop
      else if |b| - HEADER < len then Short
      else
        var payload := b[HEADER..HEADER + len];
        if codec.crc(payload) != FromLe(b[4..8]) then Stop
        else match codec.decode(payload)
             case Some(r) => Whole(r, HEADER + len)
             case None => Stop
  }

  /** The frames are applied up to the first thing that is none; a header without its payload is an error. */
  function Replay(codec: Codec, b: Bytes, m: Contents): Result<Contents, Error>
    decreases |b|
  {
    match ParseHead(codec, b)
    case Stop => Success(m)
    case Short => Failure(UnexpectedEof)
    case Whole(r, size) => Replay(codec, b[size..], Apply(m, r))
  }

  lemma FrameParses(codec: Codec, r: Record, rest: Bytes)
    requires Lawful(codec) && Fits(codec, r)
    ensures ParseHead(codec, Frame(codec, r) + rest) == Whole(r, |Frame(codec, r)|)
  {
    var payload, b := codec.encode(r), Frame(codec, r) + rest;
    LeRoundTrip(|payload|);
    LeRoundTrip(codec.crc(payload));
    assert b[..4] == ToLe(|payload|) && b[4..8] == ToLe(codec.crc(payload));
    assert b[HEADER..HEADER + |payload|] == payload;
  }

  /** A frame on disk: the payload's length and its checksum, four bytes each, and the payload. */
  lemma FrameLayout(codec: Codec, r: Record)
    requires Lawful(codec)
    ensures var b, payload := Frame(codec, r), codec.encode(r);
      && |b| == 8 + |payload| && b[8..] == payload
      && Number(b[0], b[1], b[2], b[3]) == |payload| % 0x1_0000_0000
      && Number(b[4], b[5], b[6], b[7]) == codec.crc(payload)
  {
    var b, payload := Frame(codec, r), codec.encode(r);
    LeTruncates(|payload|);
    LeRoundTrip(codec.crc(payload));
    assert ToLe(|payload|) == [b[0], b[1], b[2], b[3]];
    assert ToLe(codec.crc(payload)) == [b[4], b[5], b[6], b[7]];
  }

  /** The first byte counts least. */
  function Number(a: Byte, b: Byte, c: Byte, d: Byte): nat {
    a + 256 * b as int + 65536 * c as int + 16777216 * d as int
  }

  /**
   What replay makes of any eight bytes and what follows them: a length over 64 MiB or a payload that
   fails its checksum or its decoding ends it, a payload that is not all there is an error.
   */
  lemma HeaderRead(codec: Codec, h: Bytes, more: Bytes)
    requires |h| == 8
    ensures var len, head := Number(h[0], h[1], h[2], h[3]), ParseHead(codec, h + more);
      if len > 67_108_864 then head == Stop
      else if |more| < len then head == Short
      else if codec.crc(more[..len]) != Number(h[4], h[5], h[6], h[7]) || codec.decode(more[..len]).None? then
        head == Stop
      else head == Whole(codec.decode(more[..len]).value, 8 + len)
  {
    var b, len := h + more, Number(h[0], h[1], h[2], h[3]);
    assert b[..4] == [h[0], h[1], h[2], h[3]] && b[4..8] == [h[4], h[5], h[6], h[7]];
    if len <= |more| {
      assert b[8..8 + len] == more[..len];
    }
  }

  /** Fewer than eight bytes are no frame. */
  lemma NoHeader(codec: Codec, b: Bytes)
    ensures |b| < 8 ==> ParseHead(codec, b) == Stop
  {}

  lemma TornFrame(codec: Codec, r: Record, t: nat)
    requires Lawful(codec) && Fits(codec, r) && t < |Frame(codec, r)|
    ensures ParseHead(codec, Frame(codec, r)[..t]) == if t < HEADER then Stop else Short
  {
    if t >= HEADER {
      var payload := codec.encode(r);
      LeRoundTrip(|payload|);
      assert Frame(codec, r)[..t][..4] == ToLe(|payload|);
    }
  }

  /** Replay reaches whatever follows the whole frames. */
  lemma {:induction false} ReplayFromTail(codec: Codec, rs: seq<Record>, tail: Bytes, m: Contents)
    requires Lawful(codec) && AllFit(codec, rs)
    ensures Replay(codec, Log(codec, rs) + tail, m) == Replay(codec, tail, ApplyAll(m, rs))
  {
    if rs == [] {
      assert Log(codec, rs) + tail == tail;
    } else {
      var f, rest := Frame(codec, rs[0]), Log(codec, rs[1..]);
      assert Log(codec, rs) + tail == f + (rest + tail);
      FrameParses(codec, rs[0], rest + tail);
      assert (f + (rest + tail))[|f|..] == rest + tail;
      ReplayFromTail(codec, rs[1..], tail, Apply(m, rs[0]));
    }
  }

  // ---------------------------------------------------------------------------
  // Cuts
  // ---------------------------------------------------------------------------

  /** How many frames lie wholly before the cut. */
  function WholeFrames(codec: Codec, rs: seq<Record>, cut: nat): (k: nat)
    ensures k <= |rs|
  {
    if rs == [] || cut < |Frame(codec, rs[0])| then 0
    else 1 + WholeFrames(codec, rs[1..], cut - |Frame(codec, rs[0])|)
  }

  /** The frames before the cut are the longest sequence of whole frames that fits. */
  lemma {:induction false} WholeFramesFit(codec: Codec, rs: seq<Record>, cut: nat)
    requires cut <= |Log(codec, rs)|
    ensures var k := WholeFrames(codec, rs, cut);
      && |Log(codec, rs[..k])| <= cut
      && (k < |rs| ==> cut < |Log(codec, rs[..k])| + |Frame(codec, rs[k])|)
  {
    if rs != [] && cut >= |Frame(codec, rs[0])| {
      var k := WholeFrames(codec, rs, cut);
      WholeFramesFit(codec, rs[1..], cut - |Frame(codec, rs[0])|);
      assert rs[..k][1..] == rs[1..][..k - 1] && rs[..k][0] == rs[0];
    }
  }

  /** The part of the torn frame that is left before the cut, if any frame is torn. */
  function TornPart(codec: Codec, rs: seq<Record>, k: nat, t: nat): Bytes
    requires k <= |rs| && if k < |rs| then t < |Frame(codec, rs[k])| else t == 0
  {
    if k < |rs| then Frame(codec, rs[k])[..t] else []
  }

  lemma {:induction false} LogConcat(codec: Codec, rs: seq<Record>, more: seq<Record>)
    ensures Log(codec, rs + more) == Log(codec, rs) + Log(codec, more)
  {
    if rs == [] {
      assert rs + more == more;
    } else {
      assert (rs + more)[1..] == rs[1..] + more;
      LogConcat(codec, rs[1..], more);
    }
  }

  lemma CutSplits(codec: Codec, rs: seq<Record>, cut: nat)
    requires cut <= |Log(codec, rs)|
    ensures var k := WholeFrames(codec, rs, cut);
      && |Log(codec, rs[..k])| <= cut
      && (if k < |rs| then cut < |Log(codec, rs[..k])| + |Frame(codec, rs[k])| else cut == |Log(codec, rs[..k])|)
      && Log(codec, rs)[..cut] == Log(codec, rs[..k]) + TornPart(codec, rs, k, cut - |Log(codec, rs[..k])|)
  {
    var k := WholeFrames(codec, rs, cut);
    WholeFramesFit(codec, rs, cut);
    LogSplit(codec, rs, k);
    if k < |rs| {
      var f := Frame(codec, rs[k]);
      LogSplit(codec, rs[k..], 1);
      assert rs[k..][..1] == [rs[k]] && rs[k..][..1][1..] == [];
      PrefixOfThree(Log(codec, rs[..k]), f, Log(codec, rs[k..][1..]), cut - |Log(codec, rs[..k])|);
    } else {
      assert rs[k..] == [] && Log(codec, rs[k..]) == [];
    }
  }

  lemma LogSplit(codec: Codec, rs: seq<Record>, k: nat)
    requires k <= |rs|
    ensures Log(codec, rs) == Log(codec, rs[..k]) + Log(codec, rs[k..])
  {
    LogConcat(codec, rs[..k], rs[k..]);
    assert rs == rs[..k] + rs[k..];
  }

  lemma PrefixOfThree(a: Bytes, b: Bytes, c: Bytes, t: nat)
    requires t <= |b|
    ensures (a + (b + c))[..|a| + t] == a + b[..t]
  {}

  lemma TornReplay(codec: Codec, rs: seq<Record>, k: nat, t: nat, m: Contents)
    requires Lawful(codec) && AllFit(codec, rs) && k <= |rs| && if k < |rs| then t < |Frame(codec, rs[k])| else t == 0
    ensures Replay(codec, TornPart(codec, rs, k, t), m) == if t < HEADER then Success(m) else Failure(UnexpectedEof)
  {
    if k < |rs| {
      TornFrame(codec, rs[k], t);
    }
  }

  /**
   Every byte-level cut of a log: what survives is the map after the whole frames before the cut,
   unless eight or more bytes of a torn frame remain, and then the log cannot be opened at all.
   */
  lemma CutOutcome(codec: Codec, rs: seq<Record>, cut: nat)
    requires Lawful(codec) && AllFit(codec, rs) && cut <= |Log(codec, rs)|
    ensures var k := WholeFrames(codec, rs, cut);
      && |Log(codec, rs[..k])| <= cut
      && Replay(codec, Log(codec, rs)[..cut], map[])
         == if cut - |Log(codec, rs[..k])| < HEADER then Success(ApplyAll(map[], rs[..k])) else Failure(UnexpectedEof)
  {
    var k := WholeFrames(codec, rs, cut);
    CutSplits(codec, rs, cut);
    var t := cut - |Log(codec, rs[..k])|;
    ReplayFromTail(codec, rs[..k], TornPart(codec, rs, k, t), map[]);
    TornReplay(codec, rs, k, t, ApplyAll(map[], rs[..k]));
  }

  /** An uncut log replays to the effect of all its records. */
  lemma WholeLog(codec: Codec, rs: seq<Record>)
    requires Lawful(codec) && AllFit(codec, rs)
    ensures Replay(codec, Log(codec, rs), map[]) == Success(ApplyAll(map[], rs))
  {
    ReplayFromTail(codec, rs, [], map[]);
    assert Log(codec, rs) + [] == Log(codec, rs);
  }

  /** Zero bytes after the last frame, however many, are ignored. */
  lemma ZeroTail(codec: Codec, rs: seq<Record>, n: nat)
    requires Lawful(codec) && AllFit(codec, rs)
    ensures Replay(codec, Log(codec, rs) + Zeros(n), map[]) == Success(ApplyAll(map[], rs))
  {
    ReplayFromTail(codec, rs, Zeros(n), map[]);
    if n >= HEADER {
      assert FromLe(Zeros(n)[..4]) == 0;
      assert Zeros(n)[HEADER..HEADER + 0] == [];
    }
  }

  // ---------------------------------------------------------------------------
  // Appending
  // ---------------------------------------------------------------------------

  lemma LogAppend(codec: Codec, rs: seq<Record>, r: Record)
    ensures Log(codec, rs + [r]) == Log(codec, rs) + Frame(codec, r)
  {
    LogConcat(codec, rs, [r]);
    assert Log(codec, [r][1..]) == [];
  }

  lemma {:induction false} ApplyAppend(m: Contents, rs: seq<Record>, r: Record)
    ensures ApplyAll(m, rs + [r]) == Apply(ApplyAll(m, rs), r)
    decreases rs
  {
    if rs == [] {
      assert ApplyAll(Apply(m, r), [r][1..]) == Apply(m, r);
    } else {
      assert (rs + [r])[1..] == rs[1..] + [r];
      ApplyAppend(Apply(m, rs[0]), rs[1..], r);
    }
  }

  /**
   A crash while one more record is being appended to a log of whole frames, after `t` of its bytes:
   the old map is recovered, or the new one if all bytes are there, or opening fails; it fails exactly
   if the header is complete and the payload is not.
   */
  lemma AppendCrash(codec: Codec, rs: seq<Record>, r: Record, t: nat)
    requires Lawful(codec) && AllFit(codec, rs) && Fits(codec, r) && t <= |Frame(codec, r)|
    ensures Replay(codec, Log(codec, rs) + Frame(codec, r)[..t], map[])
      == if t == |Frame(codec, r)| then Success(Apply(ApplyAll(map[], rs), r))
         else if t < HEADER then Success(ApplyAll(map[], rs))
         else Failure(UnexpectedEof)
  {
    ReplayFromTail(codec, rs, Frame(codec, r)[..t], map[]);
    if t < |Frame(codec, r)| {
      TornFrame(codec, r, t);
    } else {
      FrameParses(codec, r, []);
      assert Frame(codec, r)[..t] == Frame(codec, r) + [];
    }
  }
}
