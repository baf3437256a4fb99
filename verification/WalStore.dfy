/** The store: a map in memory, and its log on disk. */
module WalStore {
  import opened Binary
  import opened Wrappers
  import opened L = WalLog
  import opened WalCompaction
  import opened WalCrash
  import opened WalDisk
  import opened WalTail

  const TMP := "tmp"

  lemma SnapshotGrows(w: seq<Record>, m: Contents, k: Key, v: Value)
    requires IsSnapshot(w, m) && k !in m
    ensures IsSnapshot(w + [Record.Set(k, v)], m[k := v])
  {
    forall i | 0 <= i < |w|
      ensures w[i].key != k
    {
      assert IsEntry(w[i], m);
    }
  }

  lemma NothingWritten(m: Contents)
    ensures IsSnapshot([], m - m.Keys)
  {
    assert m - m.Keys == map[];
  }

  lemma EntryWritten(codec: Codec, w: seq<Record>, m: Contents, todo: set<Key>, k: Key)
    requires k in todo && todo <= m.Keys && IsSnapshot(w, m - todo)
    ensures IsSnapshot(w + [Record.Set(k, m[k])], m - (todo - {k}))
    ensures Log(codec, w + [Record.Set(k, m[k])]) == Log(codec, w) + Frame(codec, Record.Set(k, m[k]))
  {
    SnapshotGrows(w, m - todo, k, m[k]);
    assert (m - todo)[k := m[k]] == m - (todo - {k});
    LogAppend(codec, w, Record.Set(k, m[k]));
  }

  class Store {
    const codec: Codec
    const path: Path
    const disk: Disk
    var handle: Inode
    var contents: Contents
    // What the log holds, and the records appended to it as far as they are known.
    ghost var file: Bytes
    ghost var records: seq<Record>

    /** The open file is the one the path names, whatever it holds; nothing of it is pending. */
    ghost predicate Ready()
      reads this, disk
    {
      path.extension != "tmp" && disk.Valid() && Keeps(disk.State(), path, handle, file)
    }

    /** And it is a log of whole frames, of which the map is the effect. */
    ghost predicate Valid()
      reads this, disk
    {
      && Ready() && Lawful(codec) && file == Log(codec, records) && AllFit(codec, records)
      && contents == ApplyAll(map[], records)
    }

    constructor (codec: Codec, path: Path, disk: Disk, handle: Inode, contents: Contents,
                 ghost file: Bytes, ghost records: seq<Record>)
      ensures this.codec == codec && this.path == path && this.disk == disk && this.handle == handle
      ensures this.contents == contents && this.file == file && this.records == records
    {
      this.codec, this.path, this.disk := codec, path, disk;
      this.handle, this.contents, this.file, this.records := handle, contents, file, records;
    }

    /** A crash now, and the next `Open` finds a log of whole frames and the same map. */
    lemma SurvivesCrash()
      requires Valid()
      ensures Recovers(disk.State(), codec, path, contents)
    {
      KeepsRecovers(disk.State(), codec, path, handle, records);
    }

    method Get(k: Key) returns (r: Option<Value>)
      ensures r == if k in contents then Some(contents[k]) else None
    {
      r := if k in contents then Some(contents[k]) else None;
    }

    /**
     Acknowledged only when durable; a crash before that tears at most the new frame. On any store and
     for any record the file just grows; on a log of whole frames a record within the limit keeps it one.
     */
    method Set(k: Key, v: Value)
      requires Ready()
      modifies this`contents, this`file, this`records, disk
      ensures Ready() && contents == old(contents)[k := v]
      ensures file == old(file) + Frame(codec, Record.Set(k, v)) && records == old(records) + [Record.Set(k, v)]
      ensures old(Valid()) && Fits(codec, Record.Set(k, v)) ==> Valid()
      ensures old(disk.trace) <= disk.trace
      ensures forall t :: |old(disk.trace)| <= t < |disk.trace| ==>
        TornAtMost(disk.trace[t], path, old(file), Frame(codec, Record.Set(k, v)))
    {
      AppendRecord(Record.Set(k, v));
      contents := contents[k := v];
    }

    /** Deleting a missing key is logged too, and no error. */
    method Delete(k: Key)
      requires Ready()
      modifies this`contents, this`file, this`records, disk
      ensures Ready() && contents == old(contents) - {k}
      ensures file == old(file) + Frame(codec, Record.Delete(k)) && records == old(records) + [Record.Delete(k)]
      ensures old(Valid()) && Fits(codec, Record.Delete(k)) ==> Valid()
      ensures old(disk.trace) <= disk.trace
      ensures forall t :: |old(disk.trace)| <= t < |disk.trace| ==>
        TornAtMost(disk.trace[t], path, old(file), Frame(codec, Record.Delete(k)))
    {
      AppendRecord(Record.Delete(k));
      contents := contents - {k};
    }

    /** Write a frame to the log, and make it durable. */
    method AppendRecord(r: Record)
      requires Ready()
      modifies this`file, this`records, disk
      ensures Ready() && file == old(file) + Frame(codec, r) && records == old(records) + [r]
      ensures old(Valid()) && Fits(codec, r) ==>
        file == Log(codec, records) && AllFit(codec, records) && ApplyAll(map[], records) == Apply(contents, r)
      ensures old(disk.trace) <= disk.trace
      ensures forall t :: |old(disk.trace)| <= t < |disk.trace| ==>
        TornAtMost(disk.trace[t], path, old(file), Frame(codec, r))
    {
      LogFrame(r);
      RecordAppended(codec, records, r);
      file, records := file + Frame(codec, r), records + [r];
    }

    method LogFrame(r: Record)
      requires Ready()
      modifies disk
      ensures disk.Valid() && Keeps(disk.State(), path, handle, file + Frame(codec, r))
      ensures old(disk.trace) <= disk.trace
      ensures forall t :: |old(disk.trace)| <= t < |disk.trace| ==>
        TornAtMost(disk.trace[t], path, file, Frame(codec, r))
    {
      ghost var before := disk.State();
      WriteFrame(handle, r);
      forall t | |old(disk.trace)| <= t < |disk.trace|
        ensures TornAtMost(disk.trace[t], path, file, Frame(codec, r))
      {
        PartTornAtMost(before, disk.trace[t], path, handle, file, Frame(codec, r));
      }
      disk.Sync(handle);
      KeepsTornAtMost(disk.State(), path, handle, file, Frame(codec, r));
    }

    /** Length, checksum and payload, each by a complete write. */
    method WriteFrame(i: Inode, r: Record)
      requires disk.Valid() && i in disk.files
      modifies disk`files, disk`trace
      ensures disk.Valid() && disk.State() == Appended(old(disk.State()), i, Frame(codec, r))
      ensures old(disk.trace) <= disk.trace
      ensures WrittenSince(disk.trace, |old(disk.trace)|, old(disk.State()), i, Frame(codec, r))
    {
      ghost var before, from := disk.State(), |disk.trace|;
      var payload := codec.encode(r);
      var len, crc := ToLe(|payload|), ToLe(codec.crc(payload));
      disk.Append(i, len);
      disk.AppendMore(i, crc, before, len, from);
      disk.AppendMore(i, payload, before, len + crc, from);
    }

    /** Write one entry to the temporary file; the log is not touched. */
    method WriteEntry(temp: Inode, r: Record, ghost log: Bytes)
      requires disk.Valid() && Keeps(disk.State(), path, handle, log) && temp in disk.files && temp != handle
      modifies disk`files, disk`trace
      ensures disk.Valid() && disk.files == old(disk.files)[temp := old(disk.files[temp]) + Frame(codec, r)]
      ensures old(disk.trace) <= disk.trace && KeptSince(disk.trace, |old(disk.trace)|, path, handle, log)
    {
      ghost var before := disk.State();
      WriteFrame(temp, r);
      forall t | |old(disk.trace)| <= t < |disk.trace|
        ensures Keeps(disk.trace[t], path, handle, log)
      {
        assert PartlyAppended(before, temp, Frame(codec, r), disk.trace[t]);
      }
    }

    /** The loop over the map's entries. */
    method WriteSnapshot(temp: Inode, ghost log: Bytes) returns (ghost written: seq<Record>)
      requires disk.Valid() && Keeps(disk.State(), path, handle, log)
      requires temp in disk.files && temp != handle && disk.files[temp] == []
      modifies disk`files, disk`trace
      ensures disk.Valid() && IsSnapshot(written, contents)
      ensures disk.files == old(disk.files)[temp := Log(codec, written)]
      ensures old(disk.trace) <= disk.trace && KeptSince(disk.trace, |old(disk.trace)|, path, handle, log)
    {
      written := [];
      var todo := contents.Keys;
      assert disk.files == disk.files[temp := []];
      NothingWritten(contents);
      while todo != {}
        invariant todo <= contents.Keys && IsSnapshot(written, contents - todo)
        invariant disk.Valid() && disk.files == old(disk.files)[temp := Log(codec, written)]
        invariant old(disk.trace) <= disk.trace && KeptSince(disk.trace, |old(disk.trace)|, path, handle, log)
        decreases todo
      {
        var k :| k in todo;
        ghost var trace := disk.trace;
        WriteEntry(temp, Record.Set(k, contents[k]), log);
        KeptOn(trace, disk.trace, |old(disk.trace)|, path, handle, log);
        EntryWritten(codec, written, contents, todo, k);
        todo := todo - {k};
        written := written + [Record.Set(k, contents[k])];
      }
      assert contents - {} == contents;
    }

    /** An empty temporary file beside the log. */
    method CreateTemp(ghost log: Bytes) returns (temp: Inode)
      requires disk.Valid() && path.extension != "tmp" && Keeps(disk.State(), path, handle, log)
      modifies disk
      ensures disk.Valid() && Keeps(disk.State(), path, handle, log) && temp != handle
      ensures var tmp := Path(path.stem, "tmp"); tmp in disk.dir && disk.dir[tmp] == temp && temp in disk.files
      ensures disk.files[temp] == []
      ensures old(disk.trace) <= disk.trace && KeptSince(disk.trace, |old(disk.trace)|, path, handle, log)
    {
      temp := disk.CreateTruncated(WithExtension(path, TMP));
    }

    /** All of the new log is durable in the temporary file, while the old log stays in place. */
    method PrepareTemp(ghost log: Bytes) returns (temp: Inode, ghost written: seq<Record>)
      requires disk.Valid() && path.extension != "tmp" && Keeps(disk.State(), path, handle, log)
      modifies disk
      ensures disk.Valid() && IsSnapshot(written, contents) && Keeps(disk.State(), path, handle, log)
      ensures Keeps(disk.State(), Path(path.stem, "tmp"), temp, Log(codec, written))
      ensures old(disk.trace) <= disk.trace && KeptSince(disk.trace, |old(disk.trace)|, path, handle, log)
    {
      temp := CreateTemp(log);
      ghost var trace := disk.trace;
      written := WriteSnapshot(temp, log);
      KeptOn(trace, disk.trace, |old(disk.trace)|, path, handle, log);
      disk.Sync(temp);
    }

    /** The steps of a compaction: until the rename the old log is in place, and from then on the new one. */
    method ReplaceLog(ghost log: Bytes) returns (ghost written: seq<Record>)
      requires disk.Valid() && path.extension != "tmp" && Keeps(disk.State(), path, handle, log)
      modifies this`handle, disk
      ensures disk.Valid() && Keeps(disk.State(), path, handle, Log(codec, written)) && IsSnapshot(written, contents)
      ensures old(disk.trace) <= disk.trace
      ensures forall t :: |old(disk.trace)| <= t < |disk.trace| ==>
        Keeps(disk.trace[t], path, old(handle), log) || Keeps(disk.trace[t], path, handle, Log(codec, written))
    {
      var temp;
      temp, written := PrepareTemp(log);
      disk.Rename(WithExtension(path, TMP), path);
      handle := disk.OpenAppend(path);
    }

    /**
     Rewrite the log with one record per entry: into a temporary file, made durable, and then renamed
     over the log. In every state on the way the whole old or the whole new file is in place. A log of
     whole frames is never made longer, and a crash leaves the map as it was; a log with a torn tail is
     one of whole frames afterwards.
     */
    method Compact()
      requires Ready()
      modifies this`handle, this`file, this`records, disk
      ensures Ready() && file == Log(codec, records) && IsSnapshot(records, contents)
      ensures Lawful(codec) && AllFit(codec, records) ==> Valid()
      ensures old(disk.trace) <= disk.trace
      ensures forall t :: |old(disk.trace)| <= t < |disk.trace| ==>
        Keeps(disk.trace[t], path, old(handle), old(file)) || Keeps(disk.trace[t], path, handle, file)
      ensures old(Valid()) ==>
        && Valid() && |file| <= |old(file)|
        && (|file| < |old(file)| <==> exists i :: 0 <= i < |old(records)| && Dead(old(records), i))
      ensures old(Valid()) ==> forall t :: |old(disk.trace)| <= t < |disk.trace| ==>
        Recovers(disk.trace[t], codec, path, contents)
    {
      ghost var sound := Valid();
      ghost var written := ReplaceLog(file);
      if Lawful(codec) {
        SnapshotReplays(written, contents);
      }
      if sound {
        SnapshotAllFits(codec, records, written);
        CompactedSize(codec, records, written);
        forall t | |old(disk.trace)| <= t < |disk.trace|
          ensures Recovers(disk.trace[t], codec, path, contents)
        {
          if Keeps(disk.trace[t], path, handle, Log(codec, written)) {
            KeepsRecovers(disk.trace[t], codec, path, handle, written);
          } else {
            KeepsRecovers(disk.trace[t], codec, path, old(handle), records);
          }
        }
      }
      file, records := Log(codec, written), written;
    }
  }

  /** Read the next frame, field by field; `remaining` bytes are left from `cursor` on. */
  method ReadFrame(codec: Codec, b: Bytes, cursor: nat, remaining: nat) returns (h: Head)
    requires cursor + remaining == |b|
    ensures h == ParseHead(codec, b[cursor..])
  {
    if remaining < HEADER {
      return Stop;
    }
    ghost var rest := b[cursor..];
    assert rest[..4] == b[cursor..cursor + 4] && rest[4..8] == b[cursor + 4..cursor + 8];
    var len := FromLe(b[cursor..cursor + 4]);
    if len > MAX_RECORD {
      return Stop;
    }
    var crc := FromLe(b[cursor + 4..cursor + 8]);
    if |b| - (cursor + HEADER) < len {
      return Short;
    }
    var payload := b[cursor + HEADER..cursor + HEADER + len];
    assert rest[HEADER..HEADER + len] == payload;
    if codec.crc(payload) != crc {
      return Stop;
    }
    match codec.decode(payload) {
      case Some(r) => h := Whole(r, HEADER + len);
      case None => h := Stop;
    }
  }

  /**
   The loop of `open`: apply frames until something is no frame. The counter of remaining bytes never
   underflows, and at the end is the number of bytes left unread.
   */
  method ReplayFile(codec: Codec, b: Bytes) returns (r: Result<Contents, Error>, remaining: nat)
    ensures r == Replay(codec, b, map[]) && remaining == |Unread(codec, b)|
  {
    var contents: Contents := map[];
    var cursor: nat := 0;
    remaining := |b|;
    ghost var rest := b;
    while true
      invariant cursor + remaining == |b| && rest == b[cursor..]
      invariant Replay(codec, b, map[]) == Replay(codec, rest, contents) && Unread(codec, b) == Unread(codec, rest)
      decreases remaining
    {
      var h := ReadFrame(codec, b, cursor, remaining);
      ReplayHead(codec, rest, contents);
      match h {
        case Stop =>
          return Success(contents), remaining;
        case Short =>
          return Failure(UnexpectedEof), remaining;
        case Whole(record, size) =>
          contents := ApplyRecord(contents, record);
          cursor := cursor + size;
          remaining := remaining - size;
          rest := rest[size..];
      }
    }
  }

  method ApplyRecord(contents: Contents, record: Record) returns (m: Contents)
    ensures m == Apply(contents, record)
  {
    match record {
      case Set(k, v) => m := contents[k := v];
      case Delete(k) => m := contents - {k};
    }
  }

  lemma ReplayHead(codec: Codec, b: Bytes, m: Contents)
    ensures var h := ParseHead(codec, b);
      if h.Whole? then
        && Replay(codec, b, m) == Replay(codec, b[h.size..], Apply(m, h.record))
        && Unread(codec, b) == Unread(codec, b[h.size..])
      else
        Replay(codec, b, m) == (if h.Stop? then Success(m) else Failure(UnexpectedEof)) && Unread(codec, b) == b
  {}

  /** Remove what a compaction left behind, and open the log, creating it if there is none. */
  method OpenFile(path: Path, disk: Disk) returns (handle: Inode)
    requires path.extension != "tmp" && disk.Valid()
    modifies disk
    ensures disk.Valid() && path in disk.dir && disk.dir[path] == handle && handle in disk.files
    ensures Path(path.stem, "tmp") !in disk.dir
    ensures disk.files[handle] == FileAt(old(disk.State()), path)
    ensures path in old(disk.dir) ==>
      handle == old(disk.dir[path]) && disk.durable[handle] == old(disk.durable[disk.dir[path]])
    ensures path !in old(disk.dir) ==> disk.durable[handle] == []
    ensures forall p :: p !in {path, Path(path.stem, "tmp")} ==>
      (p in disk.dir <==> p in old(disk.dir)) && FileAt(disk.State(), p) == FileAt(old(disk.State()), p)
  {
    var temp := WithExtension(path, TMP);
    assert temp == Path(path.stem, "tmp");
    if temp in disk.dir {
      disk.Remove(temp);
    }
    handle := disk.OpenAppend(path);
  }

  /**
   Open the store: the map is what the log replays to, and the log itself is left as it is, torn
   or not, with `unread` bytes at its end that replay gave up at. If it consists of whole frames,
   the store is ready for records that last; of the files a crash can leave, these are the ones
   without a byte unread.
   */
  method Open(codec: Codec, path: Path, disk: Disk) returns (r: Result<Store, Error>, unread: nat)
    requires Lawful(codec) && path.extension != "tmp" && disk.Valid()
    modifies disk
    ensures disk.Valid() && path in disk.dir && FileAt(disk.State(), path) == FileAt(old(disk.State()), path)
    ensures Path(path.stem, "tmp") !in disk.dir
    ensures var file := FileAt(old(disk.State()), path);
      match Replay(codec, file, map[])
      case Success(m) =>
        && r.Success? && fresh(r.value) && r.value.contents == m && r.value.file == file
        && r.value.codec == codec && r.value.path == path && r.value.disk == disk
        && unread == |Unread(codec, file)|
      case Failure(e) => r == Failure(e)
    ensures r.Success? && Settled(old(disk.State()), path) ==> r.value.Ready()
    ensures Settled(old(disk.State()), path) && IsWholeLog(codec, FileAt(old(disk.State()), path)) ==>
      r.Success? && unread == 0 && r.value.Valid()
    ensures Settled(old(disk.State()), path) && IsCutLog(codec, FileAt(old(disk.State()), path)) ==>
      (r.Success? && unread == 0 ==> r.value.Valid())
  {
    var handle := OpenFile(path, disk);
    var file := disk.files[handle];
    ghost var records: seq<Record> := [];
    if IsWholeLog(codec, file) {
      records := WholeLogOpens(codec, file);
    }
    if IsCutLog(codec, file) {
      CutLogUnread(codec, file);
    }
    var replayed;
    replayed, unread := ReplayFile(codec, file);
    if replayed.Failure? {
      return Failure(replayed.error), unread;
    }
    var store := new Store(codec, path, disk, handle, replayed.value, file, records);
    r := Success(store);
  }

  lemma WholeLogOpens(codec: Codec, b: Bytes) returns (rs: seq<Record>)
    requires Lawful(codec) && IsWholeLog(codec, b)
    ensures AllFit(codec, rs) && b == Log(codec, rs) && Replay(codec, b, map[]) == Success(ApplyAll(map[], rs))
    ensures Unread(codec, b) == []
  {
    WholeLogUnread(codec, b);
    rs :| AllFit(codec, rs) && b == Log(codec, rs);
    WholeLog(codec, rs);
  }

  /**
   A crash, and the next `Open`: if it happens in a state that recovers the map (between operations, or
   anywhere in a compaction), the new store has that map and a log on which further records last.
   */
  method OpenAfterCrash(codec: Codec, path: Path, disk: Disk, ghost before: Image, ghost m: Contents)
    returns (r: Result<Store, Error>, unread: nat)
    requires Lawful(codec) && path.extension != "tmp" && disk.Valid()
    requires Recovers(before, codec, path, m) && Restarted(before, disk.State()) && Sane(before)
    modifies disk
    ensures r.Success? && unread == 0 && fresh(r.value) && r.value.Valid() && r.value.contents == m
    ensures r.value.codec == codec && r.value.path == path && r.value.disk == disk
  {
    assert AfterCrash(before, path, FileAt(disk.State(), path));
    r, unread := Open(codec, path, disk);
  }
}
