/** What a crash can leave of the log in each state of the disk. */
module WalCrash {
  import opened Binary
  import opened Wrappers
  import opened L = WalLog
  import opened WalDisk
  import opened WalTail

  /** The file holds exactly this log, all of it durable. */
  ghost predicate Keeps(d: Image, path: Path, i: Inode, log: Bytes) {
    && path in d.dir && d.dir[path] == i && i in d.files && i in d.durable
    && d.files[i] == log && d.durable[i] == log
  }

  /** Whatever a crash leaves of the file opens to this map, and is a log of whole frames. */
  ghost predicate Recovers(d: Image, codec: Codec, path: Path, m: Contents) {
    && path in d.dir
    && forall b :: AfterCrash(d, path, b) ==> IsWholeLog(codec, b) && Replay(codec, b, map[]) == Success(m)
  }

  /** Whatever a crash leaves of the file is the log and some first part of one more frame. */
  ghost predicate TornAtMost(d: Image, path: Path, log: Bytes, frame: Bytes) {
    path in d.dir && forall b :: AfterCrash(d, path, b) ==> exists n :: 0 <= n <= |frame| && b == log + frame[..n]
  }

  lemma SamePrefixes(a: Bytes, b: Bytes)
    requires a <= b && b <= a
    ensures a == b
  {}

  /** A file that is durable in full is what a crash leaves. */
  lemma KeepsExactly(d: Image, path: Path, i: Inode, log: Bytes)
    requires Keeps(d, path, i, log)
    ensures forall b :: AfterCrash(d, path, b) ==> b == log
  {
    forall b | AfterCrash(d, path, b)
      ensures b == log
    {
      SamePrefixes(b, log);
    }
  }

  lemma KeepsRecovers(d: Image, codec: Codec, path: Path, i: Inode, rs: seq<Record>)
    requires Keeps(d, path, i, Log(codec, rs)) && Lawful(codec) && AllFit(codec, rs)
    ensures Recovers(d, codec, path, ApplyAll(map[], rs))
  {
    WholeLog(codec, rs);
    KeepsExactly(d, path, i, Log(codec, rs));
  }

  lemma KeepsTornAtMost(d: Image, path: Path, i: Inode, log: Bytes, frame: Bytes)
    requires Keeps(d, path, i, log + frame)
    ensures TornAtMost(d, path, log, frame)
  {
    KeepsExactly(d, path, i, log + frame);
    assert frame[..|frame|] == frame;
  }

  lemma RecordAppended(codec: Codec, rs: seq<Record>, r: Record)
    ensures Log(codec, rs + [r]) == Log(codec, rs) + Frame(codec, r)
    ensures AllFit(codec, rs) && Fits(codec, r) ==> AllFit(codec, rs + [r])
    ensures ApplyAll(map[], rs + [r]) == Apply(ApplyAll(map[], rs), r)
  {
    LogAppend(codec, rs, r);
    ApplyAppend(map[], rs, r);
  }

  /** While a frame is being written to the log, only that frame can be torn. */
  lemma PartTornAtMost(before: Image, d: Image, path: Path, i: Inode, log: Bytes, frame: Bytes)
    requires Keeps(before, path, i, log) && PartlyAppended(before, i, frame, d)
    ensures TornAtMost(d, path, log, frame)
  {
    forall b | AfterCrash(d, path, b)
      ensures exists n :: 0 <= n <= |frame| && b == log + frame[..n]
    {
      var n :| 0 <= n <= |frame| && d == Appended(before, i, frame[..n]);
      PrefixBetween(log, frame[..n], b);
      assert frame[..n][..|b| - |log|] == frame[..|b| - |log|];
    }
  }

  lemma PrefixBetween(log: Bytes, part: Bytes, b: Bytes)
    requires log <= b <= log + part
    ensures |b| - |log| <= |part| && b == log + part[..|b| - |log|]
  {}

  /**
   A crash during a `Set` or `Delete`, at whatever point: the next replay finds the new map if all of
   the frame is there, the old one if fewer than eight bytes of it are, and fails otherwise.
   */
  lemma CrashDuringAppend(d: Image, codec: Codec, path: Path, rs: seq<Record>, r: Record, b: Bytes)
    requires Lawful(codec) && AllFit(codec, rs) && Fits(codec, r)
    requires TornAtMost(d, path, Log(codec, rs), Frame(codec, r)) && AfterCrash(d, path, b)
    ensures var t := |b| - |Log(codec, rs)|;
      && 0 <= t <= |Frame(codec, r)|
      && Replay(codec, b, map[])
         == if t == |Frame(codec, r)| then Success(Apply(ApplyAll(map[], rs), r))
            else if t < HEADER then Success(ApplyAll(map[], rs))
            else Failure(UnexpectedEof)
  {
    var n :| 0 <= n <= |Frame(codec, r)| && b == Log(codec, rs) + Frame(codec, r)[..n];
    AppendCrash(codec, rs, r, n);
  }

  /** The log is untouched in every state since. */
  ghost predicate KeptSince(trace: seq<Image>, from: nat, path: Path, i: Inode, log: Bytes) {
    forall t :: from <= t < |trace| ==> Keeps(trace[t], path, i, log)
  }

  lemma KeptOn(trace: seq<Image>, more: seq<Image>, from: nat, path: Path, i: Inode, log: Bytes)
    requires from <= |trace| && trace <= more
    requires KeptSince(trace, from, path, i, log) && KeptSince(more, |trace|, path, i, log)
    ensures KeptSince(more, from, path, i, log)
  {
    assert forall t :: from <= t < |trace| ==> more[t] == trace[t];
  }

  /** What the file holds; a missing one is created empty. */
  function FileAt(d: Image, path: Path): Bytes {
    if path in d.dir && d.dir[path] in d.files then d.files[d.dir[path]] else []
  }

  /** Nothing of the file is still to be made durable, as after a restart. */
  ghost predicate Settled(d: Image, path: Path) {
    path in d.dir ==>
      && d.dir[path] in d.files && d.dir[path] in d.durable
      && d.durable[d.dir[path]] == d.files[d.dir[path]]
  }

  /** The disk as found after a restart: the same names, of each file what was durable or more, and nothing pending. */
  ghost predicate Restarted(d: Image, later: Image) {
    && later.dir == d.dir && later.files.Keys == d.files.Keys && later.durable == later.files
    && forall i :: i in d.files ==> i in d.durable && d.durable[i] <= later.files[i] <= d.files[i]
  }
}
