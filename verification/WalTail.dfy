/**
 What becomes of records appended after an `open`. Replay never truncates, so they land behind
 whatever it left unread; how much that is decides whether they can be read back.
 */
module WalTail {
  import opened Binary
  import opened Wrappers
  import opened L = WalLog

  /** The bytes at which replay gives up; none if it read the file to its end. */
  function Unread(codec: Codec, b: Bytes): (tail: Bytes)
    ensures |tail| <= |b|
    decreases |b|
  {
    match ParseHead(codec, b)
    case Whole(_, size) => Unread(codec, b[size..])
    case _ => b
  }

  lemma {:induction false} UnreadIsNoFrame(codec: Codec, b: Bytes, m: Contents)
    ensures !ParseHead(codec, Unread(codec, b)).Whole?
    ensures Replay(codec, b, m).Success? <==> ParseHead(codec, Unread(codec, b)).Stop?
    decreases |b|
  {
    if ParseHead(codec, b).Whole? {
      var h := ParseHead(codec, b);
      UnreadIsNoFrame(codec, b[h.size..], Apply(m, h.record));
    }
  }

  /** A whole frame at the head stays one when the file grows. */
  lemma WholeStays(codec: Codec, b: Bytes, more: Bytes)
    requires ParseHead(codec, b).Whole?
    ensures ParseHead(codec, b + more) == ParseHead(codec, b)
    ensures (b + more)[ParseHead(codec, b).size..] == b[ParseHead(codec, b).size..] + more
  {
    var len := FromLe(b[..4]);
    assert (b + more)[..4] == b[..4] && (b + more)[4..8] == b[4..8];
    assert (b + more)[HEADER..HEADER + len] == b[HEADER..HEADER + len];
  }

  /** And what was refused with its header in full stays refused. */
  lemma StopStays(codec: Codec, b: Bytes, more: Bytes)
    requires ParseHead(codec, b).Stop? && |b| >= HEADER
    ensures ParseHead(codec, b + more).Stop?
  {
    var len := FromLe(b[..4]);
    assert (b + more)[..4] == b[..4] && (b + more)[4..8] == b[4..8];
    if len <= MAX_RECORD {
      assert (b + more)[HEADER..HEADER + len] == b[HEADER..HEADER + len];
    }
  }

  /** Once the file has grown, replay comes to the same place with the same map. */
  lemma {:induction false} GrownReplay(codec: Codec, b: Bytes, more: Bytes, m: Contents)
    requires Replay(codec, b, m).Success?
    ensures Replay(codec, b + more, m) == Replay(codec, Unread(codec, b) + more, Replay(codec, b, m).value)
    decreases |b|
  {
    var h := ParseHead(codec, b);
    if h.Whole? {
      WholeStays(codec, b, more);
      GrownReplay(codec, b[h.size..], more, Apply(m, h.record));
    }
  }

  // ---------------------------------------------------------------------------
  // Nothing unread: everything lasts
  // ---------------------------------------------------------------------------

  /** After an `open` that read its file to the end, all later records are read back. */
  lemma CleanOpenLasts(codec: Codec, b: Bytes, later: seq<Record>)
    requires Lawful(codec) && AllFit(codec, later) && Replay(codec, b, map[]).Success? && Unread(codec, b) == []
    ensures Replay(codec, b + Log(codec, later), map[])
         == Success(ApplyAll(Replay(codec, b, map[]).value, later))
    ensures Unread(codec, b + Log(codec, later)) == []
  {
    GrownReplay(codec, b, Log(codec, later), map[]);
    ReplayFromTail(codec, later, [], Replay(codec, b, map[]).value);
    assert Unread(codec, b) + Log(codec, later) == Log(codec, later) == Log(codec, later) + [];
    GrownUnread(codec, b, Log(codec, later));
    UnreadOfLog(codec, later, []);
  }

  lemma {:induction false} GrownUnread(codec: Codec, b: Bytes, more: Bytes)
    ensures Unread(codec, b + more) == Unread(codec, Unread(codec, b) + more)
    decreases |b|
  {
    var h := ParseHead(codec, b);
    if h.Whole? {
      WholeStays(codec, b, more);
      GrownUnread(codec, b[h.size..], more);
    }
  }

  lemma {:induction false} UnreadOfLog(codec: Codec, rs: seq<Record>, tail: Bytes)
    requires Lawful(codec) && AllFit(codec, rs)
    ensures Unread(codec, Log(codec, rs) + tail) == Unread(codec, tail)
  {
    if rs == [] {
      assert Log(codec, rs) + tail == tail;
    } else {
      var f, rest := Frame(codec, rs[0]), Log(codec, rs[1..]);
      assert Log(codec, rs) + tail == f + (rest + tail);
      FrameParses(codec, rs[0], rest + tail);
      assert (f + (rest + tail))[|f|..] == rest + tail;
      UnreadOfLog(codec, rs[1..], tail);
    }
  }

  // ---------------------------------------------------------------------------
  // A header or more unread: nothing lasts
  // ---------------------------------------------------------------------------

  /** Whatever is appended behind eight or more unread bytes is never looked at. */
  lemma DirtyOpenLosesAll(codec: Codec, b: Bytes, more: Bytes)
    requires Replay(codec, b, map[]).Success? && |Unread(codec, b)| >= HEADER
    ensures Replay(codec, b + more, map[]) == Replay(codec, b, map[])
    ensures |Unread(codec, b + more)| >= HEADER
  {
    GrownReplay(codec, b, more, map[]);
    UnreadIsNoFrame(codec, b, map[]);
    StopStays(codec, Unread(codec, b), more);
    GrownUnread(codec, b, more);
  }

  /** Zero bytes behind the last frame do no harm to what is there, and from eight on lose all that follows. */
  lemma ZerosLoseAll(codec: Codec, rs: seq<Record>, n: nat, later: seq<Record>)
    requires Lawful(codec) && AllFit(codec, rs) && n >= HEADER
    ensures Replay(codec, Log(codec, rs) + Zeros(n) + Log(codec, later), map[]) == Success(ApplyAll(map[], rs))
  {
    var b := Log(codec, rs) + Zeros(n);
    ZeroTail(codec, rs, n);
    UnreadOfLog(codec, rs, Zeros(n));
    ZerosStop(codec, n);
    DirtyOpenLosesAll(codec, b, Log(codec, later));
  }

  lemma ZerosStop(codec: Codec, n: nat)
    requires Lawful(codec)
    ensures ParseHead(codec, Zeros(n)).Stop? && Unread(codec, Zeros(n)) == Zeros(n)
  {
    if n >= HEADER {
      assert FromLe(Zeros(n)[..4]) == 0;
      assert Zeros(n)[HEADER..HEADER + 0] == [];
    }
  }

  // ---------------------------------------------------------------------------
  // One to seven bytes unread: the next frame is read shifted
  // ---------------------------------------------------------------------------

  /** The length replay finds at the unread bytes once `more` follows them. */
  function ShiftedLength(tail: Bytes, more: Bytes): nat
    requires |tail| < HEADER <= |more|
  {
    FromLe((tail + more)[..4])
  }

  /** That length alone refuses what stands there, or there are not as many bytes. */
  predicate HeaderDecides(tail: Bytes, more: Bytes)
    requires |tail| < HEADER <= |more|
  {
    ShiftedLength(tail, more) > MAX_RECORD || |tail| + |more| < HEADER + ShiftedLength(tail, more)
  }

  /**
   What the next `open` finds if one to seven bytes were unread. Either the shifted length decides
   and the map is the old one or the log cannot be opened; or a checksum of misaligned bytes does.
   */
  lemma ShiftedOutcome(codec: Codec, b: Bytes, more: Bytes)
    requires Replay(codec, b, map[]).Success? && 0 < |Unread(codec, b)| < HEADER <= |more|
    ensures var tail, m, found := Unread(codec, b), Replay(codec, b, map[]).value, Replay(codec, b + more, map[]);
      var len, all := ShiftedLength(tail, more), tail + more;
      if len > MAX_RECORD then found == Success(m)
      else if |all| < HEADER + len then found == Failure(UnexpectedEof)
      else if codec.crc(all[HEADER..HEADER + len]) != FromLe(all[4..8]) then found == Success(m)
      else if codec.decode(all[HEADER..HEADER + len]).None? then found == Success(m)
      else found == Replay(codec, all[HEADER + len..], Apply(m, codec.decode(all[HEADER..HEADER + len]).value))
  {
    GrownReplay(codec, b, more, map[]);
  }

  /** One record behind one to three unread bytes: their own length field pushes the record's out of place. */
  lemma ShortRecordsDecide(codec: Codec, tail: Bytes, r: Record)
    requires Lawful(codec)
    requires (|tail| == 1 && |codec.encode(r)| < 0x100_0000) || (|tail| == 2 && |codec.encode(r)| < 0x1_0000)
          || (|tail| == 3 && |codec.encode(r)| < 0x100)
    ensures HeaderDecides(tail, Frame(codec, r))
  {
    var n, f := |codec.encode(r)|, Frame(codec, r);
    assert n > 0 by { assert codec.decode(codec.encode(r)) == Some(r); }
    assert f[..4] == ToLe(n);
    assert (tail + f)[..4] == tail + ToLe(n)[..4 - |tail|];
    LeRoundTrip(n);
  }

  /**
   A log torn one byte into a record opens, and a record appended to it is then lost: the torn byte
   shifts the new frame, so that its length is misread and the log cannot be opened, or, from 262,144
   bytes on, the record is taken for corruption.
   */
  lemma TornByteLosesNextSet(codec: Codec, rs: seq<Record>, torn: Byte, r: Record)
    requires Lawful(codec) && AllFit(codec, rs) && |codec.encode(r)| < 0x100_0000
    ensures Replay(codec, Log(codec, rs) + [torn], map[]) == Success(ApplyAll(map[], rs))
    ensures Replay(codec, Log(codec, rs) + [torn] + Frame(codec, r), map[])
         == if torn + 256 * |codec.encode(r)| > MAX_RECORD then Success(ApplyAll(map[], rs)) else Failure(UnexpectedEof)
  {
    var b, n, f := Log(codec, rs) + [torn], |codec.encode(r)|, Frame(codec, r);
    ReplayFromTail(codec, rs, [torn], map[]);
    UnreadOfLog(codec, rs, [torn]);
    ShiftedOutcome(codec, b, f);
    ShortRecordsDecide(codec, [torn], r);
    assert ([torn] + f)[..4] == [torn] + ToLe(n)[..3];
    LeRoundTrip(n);
  }

  /** Behind four to seven bytes of a torn frame, the torn record's length decides if it exceeds what follows. */
  lemma TornLengthDecides(codec: Codec, torn: Record, t: nat, more: Bytes)
    requires Fits(codec, torn) && 4 <= t < HEADER <= |more|
    ensures HeaderDecides(Frame(codec, torn)[..t], more) <==> t + |more| < |Frame(codec, torn)|
  {
    var tail := Frame(codec, torn)[..t];
    assert (tail + more)[..4] == ToLe(|codec.encode(torn)|);
    LeRoundTrip(|codec.encode(torn)|);
  }

  // ---------------------------------------------------------------------------
  // The exact condition
  // ---------------------------------------------------------------------------

  /** Whether the next `open` finds the map with this record applied. */
  predicate Lasts(codec: Codec, b: Bytes, r: Record)
    requires Replay(codec, b, map[]).Success?
  {
    Replay(codec, b + Frame(codec, r), map[]) == Success(Apply(Replay(codec, b, map[]).value, r))
  }

  /**
   A record acknowledged after an `open` can be read back: always, if no byte was left unread;
   never, if eight or more were, unless it changes nothing; and for one to seven, if the shifted
   header decides, never either, unless it changes nothing and its frame is refused, not short.
   */
  lemma LastsExactly(codec: Codec, b: Bytes, r: Record)
    requires Lawful(codec) && Fits(codec, r) && Replay(codec, b, map[]).Success?
    ensures var tail, f, m := Unread(codec, b), Frame(codec, r), Replay(codec, b, map[]).value;
      && (|tail| == 0 ==> Lasts(codec, b, r))
      && (|tail| >= HEADER ==> (Lasts(codec, b, r) <==> Apply(m, r) == m))
      && (0 < |tail| < HEADER && HeaderDecides(tail, f) ==>
            (Lasts(codec, b, r) <==> Apply(m, r) == m && ShiftedLength(tail, f) > MAX_RECORD))
  {
    var tail, f := Unread(codec, b), Frame(codec, r);
    if tail == [] {
      LogOfOne(codec, r);
      CleanOpenLasts(codec, b, [r]);
      assert [r][1..] == [];
    } else if |tail| >= HEADER {
      DirtyOpenLosesAll(codec, b, f);
    } else {
      ShiftedOutcome(codec, b, f);
    }
  }

  lemma LogOfOne(codec: Codec, r: Record)
    ensures Log(codec, [r]) == Frame(codec, r)
  {
    assert [r][1..] == [] && Log(codec, []) == [];
  }

  /** The same for any number of later records, where no byte or at least a header was unread. */
  lemma AllLastExactly(codec: Codec, b: Bytes, later: seq<Record>)
    requires Lawful(codec) && AllFit(codec, later) && Replay(codec, b, map[]).Success?
    requires !(0 < |Unread(codec, b)| < HEADER)
    ensures var m, found := Replay(codec, b, map[]).value, Replay(codec, b + Log(codec, later), map[]);
      found == Success(ApplyAll(m, later)) <==> Unread(codec, b) == [] || ApplyAll(m, later) == m
  {
    if Unread(codec, b) == [] {
      CleanOpenLasts(codec, b, later);
    } else {
      DirtyOpenLosesAll(codec, b, Log(codec, later));
    }
  }

  // ---------------------------------------------------------------------------
  // Files a crash leaves, and records over the limit
  // ---------------------------------------------------------------------------

  /** Frames of records that replay accepts, and nothing else. */
  ghost predicate IsWholeLog(codec: Codec, b: Bytes) {
    exists rs :: AllFit(codec, rs) && b == Log(codec, rs)
  }

  /** The first part of such a log. */
  ghost predicate IsCutLog(codec: Codec, b: Bytes) {
    exists rs :: AllFit(codec, rs) && b <= Log(codec, rs)
  }

  lemma WholeLogUnread(codec: Codec, b: Bytes)
    requires Lawful(codec) && IsWholeLog(codec, b)
    ensures Unread(codec, b) == []
  {
    var rs :| AllFit(codec, rs) && b == Log(codec, rs);
    UnreadOfLog(codec, rs, []);
    assert b + [] == b;
  }

  /**
   Of the files a crash can leave, those that open without a byte unread are exactly the logs of
   whole frames; the others leave one to seven bytes unread or do not open.
   */
  lemma CutLogUnread(codec: Codec, b: Bytes)
    requires Lawful(codec) && IsCutLog(codec, b)
    ensures IsWholeLog(codec, b) <==> Replay(codec, b, map[]).Success? && Unread(codec, b) == []
    ensures Replay(codec, b, map[]).Success? ==> |Unread(codec, b)| < HEADER
  {
    var rs :| AllFit(codec, rs) && b <= Log(codec, rs);
    var k := WholeFrames(codec, rs, |b|);
    CutSplits(codec, rs, |b|);
    var torn := TornPart(codec, rs, k, |b| - |Log(codec, rs[..k])|);
    assert b == Log(codec, rs[..k]) + torn;
    TornUnread(codec, rs, k, |b| - |Log(codec, rs[..k])|);
    UnreadOfLog(codec, rs[..k], torn);
    ReplayFromTail(codec, rs[..k], torn, map[]);
    if torn == [] {
      assert b == Log(codec, rs[..k]);
    }
    if IsWholeLog(codec, b) {
      WholeLogUnread(codec, b);
      var whole :| AllFit(codec, whole) && b == Log(codec, whole);
      WholeLog(codec, whole);
    }
  }

  lemma TornUnread(codec: Codec, rs: seq<Record>, k: nat, t: nat)
    requires Lawful(codec) && AllFit(codec, rs) && k <= |rs| && if k < |rs| then t < |Frame(codec, rs[k])| else t == 0
    ensures var torn := TornPart(codec, rs, k, t);
      Unread(codec, torn) == torn && ParseHead(codec, torn) == if t < HEADER then Stop else Short
  {
    if k < |rs| {
      TornFrame(codec, rs[k], t);
    }
  }

  /**
   A record over the limit is acknowledged like any other, and then neither it nor anything after
   it is ever read back (its length fits 32 bits; a longer one is truncated).
   */
  lemma OverLimitLosesAll(codec: Codec, b: Bytes, r: Record, more: Bytes)
    requires Replay(codec, b, map[]).Success? && Unread(codec, b) == []
    requires MAX_RECORD < |codec.encode(r)| < U32
    ensures Replay(codec, b + (Frame(codec, r) + more), map[]) == Replay(codec, b, map[])
  {
    GrownReplay(codec, b, Frame(codec, r) + more, map[]);
    var all := Unread(codec, b) + (Frame(codec, r) + more);
    assert all[..4] == ToLe(|codec.encode(r)|);
    LeRoundTrip(|codec.encode(r)|);
  }

  /**
   Behind a log read to its end, a record below four gigabytes lasts exactly if it is within the
   limit or changes nothing.
   */
  lemma FitsExactly(codec: Codec, b: Bytes, r: Record)
    requires Lawful(codec) && Replay(codec, b, map[]).Success? && Unread(codec, b) == []
    requires |codec.encode(r)| < U32
    ensures var m := Replay(codec, b, map[]).value;
      Lasts(codec, b, r) <==> Fits(codec, r) || Apply(m, r) == m
  {
    if Fits(codec, r) {
      LastsExactly(codec, b, r);
    } else {
      OverLimitLosesAll(codec, b, r, []);
      assert Frame(codec, r) + [] == Frame(codec, r);
    }
  }
}
