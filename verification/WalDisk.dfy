/** A directory of files, what of them is durable, and every state a crash could find it in. */
module WalDisk {
  import opened Binary

  datatype Path = Path(stem: string, extension: string)

  function WithExtension(path: Path, extension: string): Path {
    path.(extension := extension)
  }

  type Inode = nat

  datatype Image = Image(dir: map<Path, Inode>, files: map<Inode, Bytes>, durable: map<Inode, Bytes>)

  /** Names lead to files, no two to the same one, and what is durable is a prefix of what was written. */
  ghost predicate Sane(d: Image) {
    && (forall p :: p in d.dir ==> d.dir[p] in d.files)
    && (forall p, q :: p in d.dir && q in d.dir && d.dir[p] == d.dir[q] ==> p == q)
    && d.durable.Keys == d.files.Keys
    && (forall i :: i in d.files ==> d.durable[i] <= d.files[i])
  }

  /** What the file may contain after a crash: all that is durable, and any part of what followed it. */
  ghost predicate AfterCrash(d: Image, path: Path, b: Bytes) {
    && path in d.dir && d.dir[path] in d.files && d.dir[path] in d.durable
    && d.durable[d.dir[path]] <= b <= d.files[d.dir[path]]
  }

  function Created(d: Image, path: Path, i: Inode): Image {
    Image(d.dir[path := i], d.files[i := []], d.durable[i := []])
  }

  function Appended(d: Image, i: Inode, data: Bytes): Image
    requires i in d.files
  {
    d.(files := d.files[i := d.files[i] + data])
  }

  function Synced(d: Image, i: Inode): Image
    requires i in d.files
  {
    d.(durable := d.durable[i := d.files[i]])
  }

  function Renamed(d: Image, from: Path, to: Path): Image
    requires from in d.dir
  {
    d.(dir := (d.dir - {from})[to := d.dir[from]])
  }

  function Removed(d: Image, path: Path): Image {
    d.(dir := d.dir - {path})
  }

  class Disk {
    var dir: map<Path, Inode>
    var files: map<Inode, Bytes>
    var durable: map<Inode, Bytes>
    var nextInode: Inode
    // Every state so far; a crash may find the disk in any of them.
    ghost var trace: seq<Image>

    ghost function State(): Image
      reads this
    {
      Image(dir, files, durable)
    }

    ghost predicate Valid()
      reads this
    {
      Sane(State()) && forall i :: i in files ==> i < nextInode
    }

    /** Open a file for appending, creating it if there is none. */
    method OpenAppend(path: Path) returns (i: Inode)
      requires Valid()
      modifies this
      ensures Valid() && path in dir && dir[path] == i && trace == old(trace) + [State()]
      ensures path in old(dir) ==> State() == old(State())
      ensures path !in old(dir) ==> i !in old(files) && State() == Created(old(State()), path, i)
    {
      if path in dir {
        i := dir[path];
      } else {
        i := NewFile(path);
      }
      trace := trace + [State()];
    }

    method NewFile(path: Path) returns (i: Inode)
      requires Valid() && path !in dir
      modifies this`dir, this`files, this`durable, this`nextInode
      ensures Valid() && i !in old(files) && State() == Created(old(State()), path, i)
    {
      i := nextInode;
      nextInode := nextInode + 1;
      dir, files, durable := dir[path := i], files[i := []], durable[i := []];
    }

    /** Create a file, or empty the one there is. */
    method CreateTruncated(path: Path) returns (i: Inode)
      requires Valid()
      modifies this
      ensures Valid() && trace == old(trace) + [State()]
      ensures State() == Created(old(State()), path, i) && (i in old(files) ==> path in old(dir) && old(dir)[path] == i)
    {
      if path in dir {
        i := dir[path];
        files, durable := files[i := []], durable[i := []];
        assert dir == dir[path := i];
      } else {
        i := NewFile(path);
      }
      trace := trace + [State()];
    }

    /** The loop of a complete write: any non-empty part is written at a time. */
    method Append(i: Inode, data: Bytes)
      requires Valid() && i in files
      modifies this`files, this`trace
      ensures Valid() && State() == Appended(old(State()), i, data)
      ensures old(trace) <= trace && WrittenSince(trace, |old(trace)|, old(State()), i, data)
    {
      ghost var before, start := State(), trace;
      var done := 0;
      assert files[i] + data[..0] == files[i] && files == files[i := files[i]];
      while done < |data|
        invariant done <= |data| && Valid() && State() == Appended(before, i, data[..done])
        invariant start <= trace && WrittenSince(trace, |start|, before, i, data)
        decreases |data| - done
      {
        var n :| done < n <= |data|;
        assert before.files[i] + data[..done] + data[done..n] == before.files[i] + data[..n];
        WritePart(i, data[done..n]);
        assert State() == Appended(before, i, data[..n]);
        done := n;
      }
      assert data[..|data|] == data;
    }

    /** One write, of as much as the system took. */
    method WritePart(i: Inode, part: Bytes)
      requires Valid() && i in files
      modifies this`files, this`trace
      ensures Valid() && State() == Appended(old(State()), i, part) && trace == old(trace) + [State()]
    {
      files := files[i := files[i] + part];
      trace := trace + [State()];
    }

    /** Complete writes one after another pass through the same states as one write of all the data. */
    method AppendMore(i: Inode, data: Bytes, ghost before: Image, ghost done: Bytes, ghost from: nat)
      requires Valid() && i in before.files && State() == Appended(before, i, done)
      requires from <= |trace| && WrittenSince(trace, from, before, i, done)
      modifies this`files, this`trace
      ensures Valid() && State() == Appended(before, i, done + data)
      ensures old(trace) <= trace && WrittenSince(trace, from, before, i, done + data)
    {
      Append(i, data);
      assert before.files[i] + done + data == before.files[i] + (done + data);
      WrittenOn(old(trace), trace, from, before, i, done, data);
    }

    method Sync(i: Inode)
      requires Valid() && i in files
      modifies this`durable, this`trace
      ensures Valid() && State() == Synced(old(State()), i) && trace == old(trace) + [State()]
    {
      durable := durable[i := files[i]];
      trace := trace + [State()];
    }

    /** The new name leads to the file from now on, whatever it led to before. */
    method Rename(from: Path, to: Path)
      requires Valid() && from in dir && from != to
      modifies this`dir, this`trace
      ensures Valid() && State() == Renamed(old(State()), from, to) && trace == old(trace) + [State()]
    {
      dir := (dir - {from})[to := dir[from]];
      trace := trace + [State()];
    }

    method Remove(path: Path)
      requires Valid()
      modifies this`dir, this`trace
      ensures Valid() && State() == Removed(old(State()), path) && trace == old(trace) + [State()]
    {
      dir := dir - {path};
      trace := trace + [State()];
    }
  }

  /** The state after some first part of the data was written. */
  ghost predicate PartlyAppended(before: Image, i: Inode, data: Bytes, d: Image)
    requires i in before.files
  {
    exists n :: 0 <= n <= |data| && d == Appended(before, i, data[..n])
  }

  /** Every state from `from` on is one in which some first part of the data was written. */
  ghost predicate WrittenSince(trace: seq<Image>, from: nat, before: Image, i: Inode, data: Bytes)
    requires i in before.files
  {
    forall t :: from <= t < |trace| ==> PartlyAppended(before, i, data, trace[t])
  }

  lemma PartlyOfMore(before: Image, i: Inode, done: Bytes, data: Bytes, d: Image)
    requires i in before.files
    requires PartlyAppended(before, i, done, d) || PartlyAppended(Appended(before, i, done), i, data, d)
    ensures PartlyAppended(before, i, done + data, d)
  {
    if PartlyAppended(before, i, done, d) {
      var n :| 0 <= n <= |done| && d == Appended(before, i, done[..n]);
      assert done[..n] == (done + data)[..n];
    } else {
      var n :| 0 <= n <= |data| && d == Appended(Appended(before, i, done), i, data[..n]);
      assert (done + data)[..|done| + n] == done + data[..n];
      assert before.files[i] + done + data[..n] == before.files[i] + (done + data[..n]);
      assert d == Appended(before, i, (done + data)[..|done| + n]);
    }
  }

  lemma WrittenOn(trace: seq<Image>, more: seq<Image>, from: nat, before: Image, i: Inode, done: Bytes, data: Bytes)
    requires i in before.files && from <= |trace| && trace <= more
    requires WrittenSince(trace, from, before, i, done)
    requires WrittenSince(more, |trace|, Appended(before, i, done), i, data)
    ensures WrittenSince(more, from, before, i, done + data)
  {
    forall t | from <= t < |more|
      ensures PartlyAppended(before, i, done + data, more[t])
    {
      assert t < |trace| ==> more[t] == trace[t];
      PartlyOfMore(before, i, done, data, more[t]);
    }
  }
}
