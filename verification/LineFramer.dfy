/** The line framer of the event server: a compacting read buffer and a double write buffer. */
module LineFramer {
  import opened Binary
  import opened LineSplitting
  import opened Utf8

  /** How a read that drained the stream ended. */
  datatype StreamEnd = Eof | NotReady | Broken

  datatype RefreshResult = Refreshed | UnexpectedEof | ReadFailed

  /** What asking for a line returns: a complete line is handed out only if it is text. */
  datatype LineResult = Text(line: Bytes) | NoLine | LineTooLong | InvalidUtf8

  /** One attempt to write to the stream. */
  datatype Attempt = Accepts(n: nat) | Interrupted | NotNow | Fails

  datatype FlushResult = Flushed | Blocked | WriteZero | WriteFailed

  class Reader {
    var buf: Bytes
    /** Index of the next unconsumed byte. */
    var tail: nat
    // Totals: bytes handed out or purged, and bytes moved by compactions.
    ghost var consumed: nat
    ghost var moved: nat

    /**
     Less than half of the buffer is dead, and all compactions together moved at most twice the
     bytes consumed, even without counting those that are still to be compacted away.
     */
    ghost predicate Valid()
      reads this
    {
      && tail <= |buf| && (tail == 0 || 2 * tail < |buf|)
      && tail <= consumed && moved <= 2 * (consumed - tail)
    }

    ghost function Unconsumed(): Bytes
      reads this
      requires tail <= |buf|
    {
      buf[tail..]
    }

    constructor ()
      ensures Valid() && Unconsumed() == [] && consumed == 0
    {
      buf, tail, consumed, moved := [], 0, 0, 0;
    }

    /** Append all the stream has; only an end without any bytes before it counts as one. */
    method Refresh(available: Bytes, end: StreamEnd) returns (r: RefreshResult)
      requires Valid()
      modifies this`buf
      ensures Valid() && Unconsumed() == old(Unconsumed()) + available
      ensures r == match end
                   case Eof => if available == [] then UnexpectedEof else Refreshed
                   case NotReady => Refreshed
                   case Broken => ReadFailed
    {
      buf := buf + available;
      match end {
        case Eof => r := if available == [] then UnexpectedEof else Refreshed;
        case NotReady => r := Refreshed;
        case Broken => r := ReadFailed;
      }
    }

    /**
     The next complete line, if there is one, which is consumed even if it is no text; a line
     without its end in sight is purged when too long.
     */
    method NextLine() returns (r: LineResult)
      requires Valid()
      modifies this
      ensures Valid()
      ensures r == match NextOutput(old(Unconsumed()))
                   case Line(bytes) => if IsUtf8(bytes) then Text(bytes) else InvalidUtf8
                   case Nothing => NoLine
                   case TooLong => LineTooLong
      ensures Unconsumed() == NextLeft(old(Unconsumed()))
      ensures consumed == old(consumed) + |old(Unconsumed())| - |Unconsumed()|
    {
      var end := Position();
      if end < |buf| {
        var line := TakeLine(end);
        r := if IsUtf8(line) then Text(line) else InvalidUtf8;
      } else if |buf| - tail >= MAX_LINE {
        consumed := consumed + |buf| - tail;
        buf := [];
        tail := 0;
        r := LineTooLong;
      } else {
        r := NoLine;
      }
    }

    /** Hand out the line that ends at the newline at `end`, without a carriage return before it. */
    method TakeLine(end: nat) returns (line: Bytes)
      requires Valid() && end < |buf| && end == tail + FirstNewline(Unconsumed())
      modifies this
      ensures Valid() && consumed == old(consumed) + |old(Unconsumed())| - |Unconsumed()|
      ensures line == Strip(old(Unconsumed())[..end - old(tail)])
      ensures Unconsumed() == old(Unconsumed())[end - old(tail) + 1..]
    {
      ghost var slice := Unconsumed();
      var lineEnd := end;
      if lineEnd > tail && buf[lineEnd - 1] == CR {
        lineEnd := lineEnd - 1;
      }
      line := buf[tail..lineEnd];
      assert line == Strip(slice[..end - tail]);
      assert buf[end + 1..] == slice[end - tail + 1..];
      consumed := consumed + (end + 1 - tail);
      tail := end + 1;
      Compact();
    }

    /** Search for a newline from the first unconsumed byte on. */
    method Position() returns (end: nat)
      requires tail <= |buf|
      ensures end == tail + FirstNewline(Unconsumed())
    {
      end := tail;
      ghost var slice := Unconsumed();
      while end < |buf| && buf[end] != LF
        invariant tail <= end <= |buf| && forall j :: 0 <= j < end - tail ==> slice[j] != LF
      {
        assert buf[end] == slice[end - tail];
        end := end + 1;
      }
      assert end < |buf| ==> slice[end - tail] == LF;
      FirstIs(slice, end - tail);
    }

    /** Drop the consumed bytes once they are half of the buffer, moving the others to its front. */
    method Compact()
      requires 0 < tail <= |buf| && tail <= consumed && moved <= 2 * (consumed - tail)
      modifies this`buf, this`tail, this`moved
      ensures Valid() && Unconsumed() == old(Unconsumed())
    {
      if |buf| == tail {
        buf := [];
        tail := 0;
      } else if |buf| / 2 <= tail {
        moved := moved + |buf| - tail;
        buf := buf[tail..];
        tail := 0;
      }
    }
  }

  lemma StripKeepsText(line: Bytes)
    ensures IsUtf8(Strip(line)) <==> IsUtf8(line)
  {
    if line != [] && line[|line| - 1] == CR {
      var n := |line| - 1;
      assert line == line[..n] + [CR] + [];
      CutAtAscii(line[..n], CR, []);
    }
  }

  /** No line of a stream is refused as invalid exactly if the stream up to its unfinished line is text. */
  lemma {:induction false} LinesAreText(b: Bytes)
    ensures (forall i :: 0 <= i < |Lines(b)| ==> IsUtf8(Lines(b)[i])) && IsUtf8(Rest(b)) <==> IsUtf8(b)
    decreases |b|
  {
    var i := FirstNewline(b);
    if i < |b| {
      var line, more := b[..i], b[i + 1..];
      assert b == line + [LF] + more;
      CutAtAscii(line, LF, more);
      StripKeepsText(line);
      LinesAreText(more);
      assert Lines(b) == [Strip(line)] + Lines(more) && Rest(b) == Rest(more);
      assert Lines(b)[0] == Strip(line) && Lines(b)[1..] == Lines(more);
      if forall k :: 0 <= k < |Lines(b)| ==> IsUtf8(Lines(b)[k]) {
        assert forall k :: 0 <= k < |Lines(more)| ==> Lines(more)[k] == Lines(b)[k + 1];
      }
    }
  }

  /** The attempt writes something, or can simply be repeated. */
  predicate GoesOn(a: Attempt) {
    a.Interrupted? || (a.Accepts? && a.n > 0)
  }

  /** Attempts that take at least one byte. */
  function Taking(script: seq<Attempt>): nat {
    if script == [] then 0
    else Taking(script[..|script| - 1]) + if script[|script| - 1].Accepts? && script[|script| - 1].n > 0 then 1 else 0
  }

  /** How many bytes the stream offers to take in all. */
  function Offered(script: seq<Attempt>): nat {
    if script == [] then 0
    else Offered(script[..|script| - 1]) + if script[|script| - 1].Accepts? then script[|script| - 1].n else 0
  }

  class Writer {
    var bufs: seq<Bytes>
    /** Which buffer takes writes; the other one is being drained. */
    var active: nat
    /** Where draining is to go on. */
    var cursor: nat
    // Everything ever written by the owner, and everything the stream took.
    ghost var accepted: Bytes
    ghost var delivered: Bytes

    ghost predicate Shape()
      reads this
    {
      |bufs| == 2 && active < 2 && cursor <= |bufs[1 - active]|
    }

    ghost function Pending(): Bytes
      reads this
      requires Shape()
    {
      bufs[1 - active][cursor..] + bufs[active]
    }

    /** Nothing is lost, repeated or reordered. */
    ghost predicate Valid()
      reads this
    {
      Shape() && accepted == delivered + Pending()
    }

    constructor ()
      ensures Valid() && accepted == [] && Pending() == []
    {
      bufs, active, cursor, accepted, delivered := [[], []], 0, 0, [], [];
    }

    predicate WriteBufferEmpty()
      reads this
      requires Shape()
      ensures WriteBufferEmpty() <==> Pending() == []
    {
      bufs[active] == [] && cursor >= |bufs[1 - active]|
    }

    /** Queue the bytes; the stream is not touched. */
    method Write(data: Bytes)
      requires Valid()
      modifies this`bufs, this`accepted
      ensures Valid() && accepted == old(accepted) + data && Pending() == old(Pending()) + data
    {
      bufs := bufs[active := bufs[active] + data];
      accepted := accepted + data;
    }

    /**
     Write to the stream until nothing is pending or it stops taking bytes; `script` is what the
     stream answers, attempt by attempt, and it is not ready any more after that.
     */
    method FlushNonblocking(script: seq<Attempt>) returns (r: FlushResult, used: nat)
      requires Valid()
      modifies this`bufs, this`active, this`cursor, this`delivered
      ensures Valid() && old(delivered) <= delivered && used <= |script|
      ensures |delivered| <= |old(delivered)| + Offered(script[..used])
      ensures r.Flushed? <==> Pending() == []
      ensures r.Blocked? ==> (if used > 0 && script[used - 1].NotNow? then true else used == |script|)
      ensures r.WriteZero? ==> used > 0 && script[used - 1] == Accepts(0)
      ensures r.WriteFailed? ==> used > 0 && script[used - 1].Fails?
      ensures (forall k :: 0 <= k < |script| ==> GoesOn(script[k])) && Taking(script) >= |old(Pending())| ==> r.Flushed?
    {
      used := 0;
      assert script[..0] == [];
      while true
        invariant Valid() && old(delivered) <= delivered && used <= |script|
        invariant |old(delivered)| + Taking(script[..used]) <= |delivered| <= |old(delivered)| + Offered(script[..used])
        decreases |script| - used, |bufs[active]|
      {
        var drain := 1 - active;
        if cursor >= |bufs[drain]| {
          if bufs[active] == [] {
            return Flushed, used;
          }
          bufs := bufs[drain := []];
          cursor := 0;
          active := drain;
          continue;
        }
        if used == |script| {
          assert script[..used] == script;
          return Blocked, used;
        }
        assert script[..used + 1][..used] == script[..used];
        used := used + 1;
        match script[used - 1] {
          case Accepts(n) =>
            if n == 0 {
              return WriteZero, used;
            }
            Deliver(n);
          case Interrupted =>
          case NotNow =>
            return Blocked, used;
          case Fails =>
            return WriteFailed, used;
        }
      }
    }

    /** The stream takes up to `n` bytes of the buffer being drained. */
    method Deliver(n: nat)
      requires Valid() && cursor < |bufs[1 - active]| && n > 0
      modifies this`cursor, this`delivered
      ensures Valid() && old(delivered) < delivered && |delivered| <= |old(delivered)| + n
      ensures |delivered| == |old(delivered)| + n || cursor == |bufs[1 - active]|
    {
      var drain := bufs[1 - active];
      var taken := if n < |drain| - cursor then n else |drain| - cursor;
      delivered := delivered + drain[cursor..cursor + taken];
      assert drain[cursor..] == drain[cursor..cursor + taken] + drain[cursor + taken..];
      cursor := cursor + taken;
    }
  }
}
