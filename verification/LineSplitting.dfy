/** Lines of a byte stream, and what a reader that is fed it piece by piece returns. */
module LineSplitting {
  import opened Binary

  const LF: Byte := 10
  const CR: Byte := 13

  /** A line this long without its end in sight is given up. */
  const MAX_LINE: nat := 4096

  /** Where the first newline is; the length if there is none. */
  function FirstNewline(b: Bytes): (i: nat)
    ensures i <= |b| && (i < |b| ==> b[i] == LF)
  {
    if b == [] || b[0] == LF then 0 else 1 + FirstNewline(b[1..])
  }

  lemma {:induction false} NoneBefore(b: Bytes, j: nat)
    requires j < FirstNewline(b)
    ensures b[j] != LF
  {
    if j > 0 {
      NoneBefore(b[1..], j - 1);
    }
  }

  /** The only such place. */
  lemma {:induction false} FirstIs(b: Bytes, i: nat)
    requires i <= |b| && (i < |b| ==> b[i] == LF) && (forall j :: 0 <= j < i ==> b[j] != LF)
    ensures FirstNewline(b) == i
  {
    if i > 0 {
      FirstIs(b[1..], i - 1);
    }
  }

  /** Without one trailing carriage return. */
  function Strip(line: Bytes): Bytes {
    if line != [] && line[|line| - 1] == CR then line[..|line| - 1] else line
  }

  /** The complete lines of the stream. */
  function Lines(b: Bytes): seq<Bytes>
    decreases |b|
  {
    var i := FirstNewline(b);
    if i == |b| then [] else [Strip(b[..i])] + Lines(b[i + 1..])
  }

  /** The unfinished line at its end. */
  function Rest(b: Bytes): Bytes
    decreases |b|
  {
    var i := FirstNewline(b);
    if i == |b| then b else Rest(b[i + 1..])
  }

  /** Every line and the unfinished one are shorter than the limit. */
  predicate Short(b: Bytes)
    decreases |b|
  {
    var i := FirstNewline(b);
    i < MAX_LINE && (i < |b| ==> Short(b[i + 1..]))
  }

  /** Meaning of `Lines`: joined with their newlines, and before stripping, they and the rest are the stream. */
  function Unsplit(lines: seq<Bytes>, rest: Bytes): Bytes {
    if lines == [] then rest else lines[0] + [LF] + Unsplit(lines[1..], rest)
  }

  predicate IsLine(b: Bytes) {
    LF !in b
  }

  lemma LineIsLine(b: Bytes)
    ensures IsLine(b[..FirstNewline(b)])
  {
    forall j | 0 <= j < FirstNewline(b)
      ensures b[j] != LF
    {
      NoneBefore(b, j);
    }
  }

  lemma NoNewline(b: Bytes)
    requires IsLine(b)
    ensures FirstNewline(b) == |b|
  {
    assert forall i :: 0 <= i < |b| ==> b[i] in b;
    FirstIs(b, |b|);
  }

  lemma NewlineAt(line: Bytes, more: Bytes)
    requires IsLine(line)
    ensures FirstNewline(line + [LF] + more) == |line|
  {
    var b := line + [LF] + more;
    assert b[|line|] == LF;
    assert forall j :: 0 <= j < |line| ==> b[j] == line[j] && line[j] in line;
    FirstIs(b, |line|);
  }

  function StripAll(lines: seq<Bytes>): (r: seq<Bytes>)
    ensures |r| == |lines| && forall i :: 0 <= i < |lines| ==> r[i] == Strip(lines[i])
  {
    if lines == [] then [] else [Strip(lines[0])] + StripAll(lines[1..])
  }

  /** Splitting undoes joining: any lines and rest free of newlines come back, but for carriage returns. */
  lemma {:induction false} SplitUnsplit(lines: seq<Bytes>, rest: Bytes)
    requires IsLine(rest) && forall i :: 0 <= i < |lines| ==> IsLine(lines[i])
    ensures Lines(Unsplit(lines, rest)) == StripAll(lines) && Rest(Unsplit(lines, rest)) == rest
  {
    if lines == [] {
      NoNewline(rest);
    } else {
      var more := Unsplit(lines[1..], rest);
      NewlineAt(lines[0], more);
      SplitUnsplit(lines[1..], rest);
      var b := lines[0] + [LF] + more;
      assert b[..|lines[0]|] == lines[0] && b[|lines[0]| + 1..] == more;
    }
  }

  // ---------------------------------------------------------------------------
  // Feeding
  // ---------------------------------------------------------------------------

  datatype Output = Line(bytes: Bytes) | Nothing | TooLong

  /** What asking for a line returns when `b` is buffered, ... */
  function NextOutput(b: Bytes): Output {
    var i := FirstNewline(b);
    if i < |b| then Line(Strip(b[..i])) else if |b| >= MAX_LINE then TooLong else Nothing
  }

  /** ... and what stays buffered. */
  function NextLeft(b: Bytes): Bytes {
    var i := FirstNewline(b);
    if i < |b| then b[i + 1..] else if |b| >= MAX_LINE then [] else b
  }

  /** A line ends at the first byte 10 and loses one byte 13 before it. */
  lemma LineGiven(line: Bytes, more: Bytes)
    requires 10 !in line
    ensures NextOutput(line + [10] + more)
         == Line(if line != [] && line[|line| - 1] == 13 then line[..|line| - 1] else line)
    ensures NextLeft(line + [10] + more) == more
  {
    NewlineAt(line, more);
    var b := line + [LF] + more;
    assert b[..|line|] == line && b[|line| + 1..] == more;
  }

  /** Without a byte 10 there is none yet, and from 4096 bytes on it is given up and dropped. */
  lemma LineNotGiven(b: Bytes)
    requires 10 !in b
    ensures NextOutput(b) == if |b| >= 4096 then TooLong else Nothing
    ensures NextLeft(b) == if |b| >= 4096 then [] else b
  {
    NoNewline(b);
  }

  /** The stream delivers some bytes, or the owner asks for a line. */
  datatype Event = Feed(bytes: Bytes) | Ask

  function Fed(events: seq<Event>): Bytes {
    if events == [] then []
    else (if events[0].Feed? then events[0].bytes else []) + Fed(events[1..])
  }

  function Outputs(b: Bytes, events: seq<Event>): seq<Output>
    decreases events
  {
    if events == [] then []
    else match events[0]
         case Feed(x) => Outputs(b + x, events[1..])
         case Ask => [NextOutput(b)] + Outputs(NextLeft(b), events[1..])
  }

  function Buffered(b: Bytes, events: seq<Event>): Bytes
    decreases events
  {
    if events == [] then b
    else match events[0]
         case Feed(x) => Buffered(b + x, events[1..])
         case Ask => Buffered(NextLeft(b), events[1..])
  }

  function Returned(outputs: seq<Output>): seq<Bytes> {
    if outputs == [] then []
    else (if outputs[0].Line? then [outputs[0].bytes] else []) + Returned(outputs[1..])
  }

  lemma {:induction false} FirstNewlineAppend(b: Bytes, more: Bytes)
    ensures FirstNewline(b + more) == if FirstNewline(b) < |b| then FirstNewline(b) else |b| + FirstNewline(more)
  {
    if b == [] {
      assert b + more == more;
    } else {
      assert (b + more)[1..] == b[1..] + more;
      FirstNewlineAppend(b[1..], more);
    }
  }

  lemma FirstLineStays(b: Bytes, more: Bytes)
    requires FirstNewline(b) < |b|
    ensures var i := FirstNewline(b);
      FirstNewline(b + more) == i && (b + more)[..i] == b[..i] && (b + more)[i + 1..] == b[i + 1..] + more
  {
    FirstNewlineAppend(b, more);
  }

  lemma Assoc<T>(a: seq<T>, b: seq<T>, c: seq<T>)
    ensures a + (b + c) == a + b + c
  {}

  lemma AskStep(b: Bytes, events: seq<Event>)
    requires events != [] && events[0].Ask?
    ensures Outputs(b, events) == [NextOutput(b)] + Outputs(NextLeft(b), events[1..])
    ensures Buffered(b, events) == Buffered(NextLeft(b), events[1..]) && Fed(events) == Fed(events[1..])
    ensures TooLong in Outputs(b, events) <==> NextOutput(b) == TooLong || TooLong in Outputs(NextLeft(b), events[1..])
    ensures Returned(Outputs(b, events))
         == (if NextOutput(b).Line? then [NextOutput(b).bytes] else []) + Returned(Outputs(NextLeft(b), events[1..]))
  {
    var outputs := Outputs(b, events);
    assert outputs[1..] == Outputs(NextLeft(b), events[1..]);
    assert [] + Fed(events[1..]) == Fed(events[1..]);
  }

  lemma FeedStep(b: Bytes, events: seq<Event>)
    requires events != [] && events[0].Feed?
    ensures b + events[0].bytes + Fed(events[1..]) == b + Fed(events)
  {}

  lemma AskKeepsLines(b: Bytes, more: Bytes)
    requires NextOutput(b) != TooLong
    ensures Lines(b + more) == (if NextOutput(b).Line? then [NextOutput(b).bytes] else []) + Lines(NextLeft(b) + more)
    ensures Rest(b + more) == Rest(NextLeft(b) + more)
  {
    var i, c := FirstNewline(b), b + more;
    if i < |b| {
      FirstLineStays(b, more);
      assert Lines(c) == [Strip(c[..i])] + Lines(c[i + 1..]) && Rest(c) == Rest(c[i + 1..]);
    } else {
      assert NextOutput(b) == Nothing && NextLeft(b) == b;
      assert [] + Lines(c) == Lines(c);
    }
  }

  /**
   However the stream is cut into pieces and whenever lines are asked for: unless a line was given
   up, the lines returned, followed by those still buffered, are the lines of all that was fed.
   */
  lemma {:induction false} NothingLost(b: Bytes, events: seq<Event>)
    requires TooLong !in Outputs(b, events)
    ensures Returned(Outputs(b, events)) + Lines(Buffered(b, events)) == Lines(b + Fed(events))
    ensures Rest(Buffered(b, events)) == Rest(b + Fed(events))
    decreases events
  {
    if events == [] {
      assert b + [] == b;
    } else if events[0].Feed? {
      NothingLost(b + events[0].bytes, events[1..]);
      FeedStep(b, events);
    } else {
      AskStep(b, events);
      NothingLost(NextLeft(b), events[1..]);
      AskKeepsLines(b, Fed(events));
      Assoc(if NextOutput(b).Line? then [NextOutput(b).bytes] else [],
            Returned(Outputs(NextLeft(b), events[1..])), Lines(Buffered(b, events)));
    }
  }

  lemma AskShort(b: Bytes, more: Bytes)
    requires Short(b + more)
    ensures NextOutput(b) != TooLong && Short(NextLeft(b) + more)
  {
    var i := FirstNewline(b);
    if i < |b| {
      FirstLineStays(b, more);
      assert Short(b[i + 1..] + more);
    } else {
      FirstNewlineAppend(b, more);
      assert |b| < MAX_LINE;
    }
  }

  /** Short lines are never given up. */
  lemma {:induction false} ShortNeverTooLong(b: Bytes, events: seq<Event>)
    requires Short(b + Fed(events))
    ensures TooLong !in Outputs(b, events)
    decreases events
  {
    if events != [] {
      if events[0].Feed? {
        FeedStep(b, events);
        ShortNeverTooLong(b + events[0].bytes, events[1..]);
      } else {
        AskStep(b, events);
        AskShort(b, Fed(events));
        ShortNeverTooLong(NextLeft(b), events[1..]);
      }
    }
  }

  function Asks(n: nat): (r: seq<Event>)
    ensures |r| == n && forall i :: 0 <= i < n ==> r[i] == Ask
  {
    if n == 0 then [] else [Ask] + Asks(n - 1)
  }

  lemma {:induction false} AsksFeedNothing(n: nat, more: Bytes)
    ensures Fed(Asks(n) + [Feed(more)]) == more
  {
    if n == 0 {
      assert Asks(0) + [Feed(more)] == [Feed(more)] && Fed([Feed(more)][1..]) == [];
    } else {
      assert (Asks(n) + [Feed(more)])[1..] == Asks(n - 1) + [Feed(more)];
      AsksFeedNothing(n - 1, more);
    }
  }

  /** Asking once more than there are lines comes to the unfinished one, and gives it up if it is long. */
  lemma {:induction false} AskingGivesUp(b: Bytes, after: seq<Event>)
    requires |Rest(b)| >= MAX_LINE
    ensures TooLong in Outputs(b, Asks(|Lines(b)| + 1) + after)
    decreases |b|
  {
    var n, i := |Lines(b)|, FirstNewline(b);
    var events := Asks(n + 1) + after;
    assert events[0] == Ask && events[1..] == Asks(n) + after;
    if i < |b| {
      AskingGivesUp(b[i + 1..], after);
    } else {
      assert Outputs(b, events)[0] == TooLong;
    }
  }

  /** A stream with a long line has a first part that ends a limit's length into it. */
  lemma {:induction false} LongLinePrefix(b: Bytes) returns (cut: nat)
    requires !Short(b)
    ensures cut <= |b| && |Rest(b[..cut])| >= MAX_LINE
    decreases |b|
  {
    var i := FirstNewline(b);
    if i >= MAX_LINE {
      cut := i;
      LineIsLine(b);
      NoNewline(b[..i]);
    } else {
      cut := LongLinePrefix(b[i + 1..]);
      cut := cut + i + 1;
      assert b[..cut] == b[..i] + [LF] + b[i + 1..][..cut - i - 1];
      LineIsLine(b);
      NewlineAt(b[..i], b[i + 1..][..cut - i - 1]);
      assert b[..cut][i + 1..] == b[i + 1..][..cut - i - 1];
    }
  }

  /** A way for a stream with a long line to arrive that has it given up. */
  lemma LongLineGivenUp(stream: Bytes) returns (events: seq<Event>)
    requires !Short(stream)
    ensures Fed(events) == stream && TooLong in Outputs([], events)
  {
    var cut := LongLinePrefix(stream);
    CutJoins(stream, cut);
    events := GiveUpAt(stream[..cut], stream[cut..]);
  }

  lemma CutJoins(b: Bytes, cut: nat)
    requires cut <= |b|
    ensures b[..cut] + b[cut..] == b
  {}

  lemma GiveUpAt(head: Bytes, tail: Bytes) returns (events: seq<Event>)
    requires |Rest(head)| >= MAX_LINE
    ensures Fed(events) == head + tail && TooLong in Outputs([], events)
  {
    var later := Asks(|Lines(head)| + 1) + [Feed(tail)];
    AskingGivesUp(head, [Feed(tail)]);
    AsksFeedNothing(|Lines(head)| + 1, tail);
    events := [Feed(head)] + later;
    FeedFirst([], head, later);
    assert [] + head == head;
  }

  lemma FeedFirst(b: Bytes, x: Bytes, later: seq<Event>)
    ensures Fed([Feed(x)] + later) == x + Fed(later) && Outputs(b, [Feed(x)] + later) == Outputs(b + x, later)
  {
    var events := [Feed(x)] + later;
    assert events[0] == Feed(x) && events[1..] == later;
  }

  /**
   Whether lines are given up may depend on how the stream arrives. It never happens, whatever the
   arrival, exactly if every line and the unfinished one are shorter than the limit.
   */
  lemma NeverTooLong(stream: Bytes)
    ensures Short(stream) <==> forall events :: Fed(events) == stream ==> TooLong !in Outputs([], events)
  {
    if Short(stream) {
      forall events | Fed(events) == stream
        ensures TooLong !in Outputs([], events)
      {
        assert [] + Fed(events) == stream;
        ShortNeverTooLong([], events);
      }
    } else {
      var events := LongLineGivenUp(stream);
    }
  }

  /** Yet a stream that arrives at once is split completely, however long its complete lines are. */
  lemma {:induction false} AtOnce(b: Bytes)
    requires |Rest(b)| < MAX_LINE
    ensures Returned(Outputs(b, Asks(|Lines(b)|))) == Lines(b) && Buffered(b, Asks(|Lines(b)|)) == Rest(b)
    ensures TooLong !in Outputs(b, Asks(|Lines(b)|))
    decreases |b|
  {
    var n, i := |Lines(b)|, FirstNewline(b);
    if i < |b| {
      AtOnce(b[i + 1..]);
      var events := Asks(n);
      assert events[0] == Ask && events[1..] == Asks(n - 1);
      assert Outputs(b, events)[1..] == Outputs(b[i + 1..], Asks(n - 1));
    }
  }

  lemma {:induction false} AsksFeed(n: nat)
    ensures Fed(Asks(n)) == []
  {
    if n > 0 {
      assert Asks(n)[1..] == Asks(n - 1);
      AsksFeed(n - 1);
    }
  }

  /**
   So the same stream, with a complete line over the limit, is split completely or has a line given
   up, depending on how it arrives.
   */
  lemma ArrivalMatters(stream: Bytes) returns (smooth: seq<Event>, broken: seq<Event>)
    requires !Short(stream) && |Rest(stream)| < MAX_LINE
    ensures Fed(smooth) == Fed(broken) == stream
    ensures Returned(Outputs([], smooth)) == Lines(stream) && TooLong !in Outputs([], smooth)
    ensures TooLong in Outputs([], broken)
  {
    var later := Asks(|Lines(stream)|);
    smooth := [Feed(stream)] + later;
    FeedFirst([], stream, later);
    AsksFeed(|Lines(stream)|);
    AtOnce(stream);
    assert [] + stream == stream && stream + [] == stream;
    broken := LongLineGivenUp(stream);
  }

  lemma {:induction false} OutputsConcat(b: Bytes, events: seq<Event>, more: seq<Event>)
    ensures Outputs(b, events + more) == Outputs(b, events) + Outputs(Buffered(b, events), more)
    decreases events
  {
    var all := events + more;
    if events == [] {
      assert all == more;
    } else {
      assert all[0] == events[0] && all[1..] == events[1..] + more;
      if events[0].Feed? {
        OutputsConcat(b + events[0].bytes, events[1..], more);
      } else {
        OutputsConcat(NextLeft(b), events[1..], more);
        Assoc([NextOutput(b)], Outputs(NextLeft(b), events[1..]), Outputs(Buffered(b, events), more));
      }
    }
  }

  lemma {:induction false} AsksSplit(n: nat, k: nat)
    ensures Asks(n + k) == Asks(n) + Asks(k)
  {
    if n > 0 {
      AsksSplit(n - 1, k);
    }
  }

  lemma AskingMoreGivesUp(b: Bytes, n: nat)
    requires |Rest(b)| >= MAX_LINE && n > |Lines(b)|
    ensures TooLong in Outputs(b, Asks(n))
  {
    AsksSplit(|Lines(b)| + 1, n - (|Lines(b)| + 1));
    AskingGivesUp(b, Asks(n - (|Lines(b)| + 1)));
  }

  /** A long unfinished line is given up once as many lines were asked for as the stream has, and one more. */
  lemma LongRestGivenUp(events: seq<Event>)
    requires |Rest(Fed(events))| >= MAX_LINE
    ensures TooLong in Outputs([], events + Asks(|Lines(Fed(events))| + 1))
  {
    var n := |Lines(Fed(events))| + 1;
    OutputsConcat([], events, Asks(n));
    if TooLong !in Outputs([], events) {
      assert [] + Fed(events) == Fed(events);
      NothingLost([], events);
      AskingMoreGivesUp(Buffered([], events), n);
    }
  }

  /** A stream that arrives at once and does not end in a long line can be asked to the end. */
  lemma AtOnceToTheEnd(b: Bytes)
    requires |Rest(b)| < MAX_LINE
    ensures TooLong !in Outputs(b, Asks(|Lines(b)| + 1))
  {
    AtOnce(b);
    AsksSplit(|Lines(b)|, 1);
    OutputsConcat(b, Asks(|Lines(b)|), Asks(1));
    RestIsLine(b);
    assert Asks(1)[1..] == [] && Outputs(Rest(b), Asks(1)) == [NextOutput(Rest(b))];
  }

  lemma {:induction false} RestIsLine(b: Bytes)
    ensures FirstNewline(Rest(b)) == |Rest(b)|
    decreases |b|
  {
    if FirstNewline(b) < |b| {
      RestIsLine(b[FirstNewline(b) + 1..]);
    }
  }

  /**
   A line is given up for every arrival that is asked to the end exactly if the unfinished line is of the
   limit's length or longer. So, with `NeverTooLong`, the outcome depends on the arrival exactly for the
   streams with such a complete line and a shorter unfinished one.
   */
  lemma AlwaysTooLong(stream: Bytes)
    ensures |Rest(stream)| >= MAX_LINE
       <==> forall events :: Fed(events) == stream ==> TooLong in Outputs([], events + Asks(|Lines(stream)| + 1))
  {
    if |Rest(stream)| >= MAX_LINE {
      forall events | Fed(events) == stream
        ensures TooLong in Outputs([], events + Asks(|Lines(stream)| + 1))
      {
        LongRestGivenUp(events);
      }
    } else {
      FedAtOnce(stream, Asks(|Lines(stream)| + 1));
      AtOnceToTheEnd(stream);
    }
  }

  lemma FedAtOnce(stream: Bytes, asks: seq<Event>)
    ensures Fed([Feed(stream)]) == stream && Outputs([], [Feed(stream)] + asks) == Outputs(stream, asks)
  {
    FeedFirst([], stream, asks);
    FeedFirst([], stream, []);
    assert [Feed(stream)] + [] == [Feed(stream)] && stream + [] == stream && [] + stream == stream;
  }

  /** A line of exactly the limit's length is among those whose fate depends on the arrival. */
  lemma LimitIsNotShort(line: Bytes)
    requires IsLine(line) && |line| == MAX_LINE
    ensures !Short(line + [LF]) && Rest(line + [LF]) == [] && Lines(line + [LF]) == [Strip(line)]
  {
    NewlineAt(line, []);
    var b := line + [LF];
    assert b == line + [LF] + [] && b[..|line|] == line && b[|line| + 1..] == [];
  }

  /**
   Chunking does not matter: for a stream of short lines, any arrival and any asking return the first
   of its lines, in order, and leave the others and the same unfinished line to be returned.
   */
  lemma ChunkingIndependence(events: seq<Event>)
    requires Short(Fed(events))
    ensures TooLong !in Outputs([], events)
    ensures Returned(Outputs([], events)) + Lines(Buffered([], events)) == Lines(Fed(events))
    ensures Rest(Buffered([], events)) == Rest(Fed(events))
  {
    assert [] + Fed(events) == Fed(events);
    ShortNeverTooLong([], events);
    NothingLost([], events);
  }
}
