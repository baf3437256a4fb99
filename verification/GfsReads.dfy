/** Reading a file back: slices, replica fallback, and whole `get`s spread over a run. */
module GfsReads {
  import opened Binary
  import opened Wrappers
  import opened Arithmetic
  import opened M = GfsMetadata
  import opened C = GfsCluster
  import opened GfsGuarantees

  // ---------------------------------------------------------------------------
  // Slices
  // ---------------------------------------------------------------------------

  function Joined(parts: seq<Bytes>): Bytes {
    if parts == [] then [] else Joined(parts[..|parts| - 1]) + parts[|parts| - 1]
  }

  /** Two adjacent pieces of the data, cut off at its end, make one. */
  lemma NextPiece(data: Bytes, x: nat, y: nat)
    requires x <= y
    ensures data[..Min(x, |data|)] + data[Min(x, |data|)..Min(y, |data|)] == data[..Min(y, |data|)]
  {}

  lemma {:induction false} FirstSlices(content: Content, parts: seq<Bytes>)
    requires forall i :: 0 <= i < |parts| ==> parts[i] == Slice(content, i)
    ensures Joined(parts) == content.data[..Min(Offset(content.chunkSize, |parts|), |content.data|)]
  {
    if parts == [] {
      assert content.data[..0] == [];
    } else {
      var k := |parts| - 1;
      FirstSlices(content, parts[..k]);
      var x := Offset(content.chunkSize, k);
      NextPiece(content.data, x, x + content.chunkSize);
    }
  }

  lemma {:induction false} OffsetIsProduct(chunkSize: nat, i: nat)
    ensures Offset(chunkSize, i) == i * chunkSize
  {
    if i > 0 {
      OffsetIsProduct(chunkSize, i - 1);
      Scale(i - 1, i - 1, chunkSize);
    }
  }

  /** The chunks are just enough: they cover the file, and one fewer would not. */
  lemma ChunksCover(len: nat, chunkSize: nat)
    requires chunkSize > 0
    ensures len <= ChunkCount(len, chunkSize) * chunkSize
    ensures forall i :: 0 <= i < ChunkCount(len, chunkSize) ==> i * chunkSize < len
  {
    var q, r := len / chunkSize, len % chunkSize;
    assert len == q * chunkSize + r;
    Scale(q, q, chunkSize);
    forall i | 0 <= i < ChunkCount(len, chunkSize)
      ensures i * chunkSize < len
    {
      if i < q {
        Scale(i, q, chunkSize);
        Scale(i + 1, q, chunkSize);
      } else {
        assert i == q;
      }
    }
  }

  /** The slices `put` writes are the file. */
  lemma SlicesRebuild(content: Content, parts: seq<Bytes>)
    requires content.chunkSize > 0 && |parts| == ChunkCount(|content.data|, content.chunkSize)
    requires forall i :: 0 <= i < |parts| ==> parts[i] == Slice(content, i)
    ensures Joined(parts) == content.data
  {
    FirstSlices(content, parts);
    ChunksCover(|content.data|, content.chunkSize);
    OffsetIsProduct(content.chunkSize, |parts|);
    assert content.data[..|content.data|] == content.data;
  }

  /** No offset `put` computes overflows 64 bits, for any file that fits in memory. */
  lemma OffsetsFit(len: nat, chunkSize: nat, i: nat)
    requires 0 < chunkSize < 0x1_0000_0000_0000_0000 && len < 0x8000_0000_0000_0000
    requires i < ChunkCount(len, chunkSize)
    ensures (i + 1) * chunkSize < 0x1_0000_0000_0000_0000
  {
    ChunksCover(len, chunkSize);
    Scale(i, i, chunkSize);
    if i > 0 {
      Scale(1, i, chunkSize);
    }
  }

  // ---------------------------------------------------------------------------
  // One chunk
  // ---------------------------------------------------------------------------

  /** When a replica was asked, and whether it answered. */
  datatype Attempt = Attempt(at: nat, up: bool)

  /** The attempts for one chunk. */
  datatype Fetch = Fetch(primary: Attempt, secondary: Attempt)

  function Ask(states: seq<Cluster>, server: ServerId, c: ChunkId, a: Attempt): Option<Bytes>
    requires a.at < |states|
  {
    if a.up && Holds(states[a.at], server, c) then Some(states[a.at].stores[server][c]) else None
  }

  /** What the replicas of one chunk answer to a read; none for any failure. */
  datatype Replies = Replies(primary: Option<Bytes>, secondary: Option<Bytes>)

  /** The secondary's answer counts only if the primary fails and a secondary is listed. */
  function FullRead(r: ReplicaSet, replies: Replies): Option<Bytes> {
    if replies.primary.Some? then replies.primary
    else if r.secondary.Some? then replies.secondary
    else None
  }

  function ReadChunk(states: seq<Cluster>, c: ChunkId, r: ReplicaSet, f: Fetch): Option<Bytes>
    requires f.primary.at < |states| && f.secondary.at < |states|
  {
    FullRead(r, Replies(Ask(states, r.primary, c, f.primary),
                        if r.secondary.Some? then Ask(states, r.secondary.value, c, f.secondary) else None))
  }

  /** Some listed replica answers. */
  predicate Answers(r: ReplicaSet, f: Fetch) {
    f.primary.up || (r.secondary.Some? && f.secondary.up)
  }

  /** No step from `i` on and before `n` deletes the file. */
  ghost predicate Undisturbed(actions: seq<Action>, path: Path, i: nat, n: nat) {
    forall k :: i <= k < n && k < |actions| ==> actions[k] != Remove(path)
  }

  lemma FileStays(s: Cluster, a: Action, path: Path)
    requires Enabled(s, a) && a != Remove(path) && path in s.master.files
    ensures path in Step(s, a).master.files && Step(s, a).master.files[path] == s.master.files[path]
  {}

  lemma {:induction false} FileLasts(states: seq<Cluster>, actions: seq<Action>, path: Path, i: nat, n: nat)
    requires IsRun(states, actions) && i <= n < |states|
    requires path in states[i].master.files && Undisturbed(actions, path, i, n)
    ensures path in states[n].master.files && states[n].master.files[path] == states[i].master.files[path]
    decreases n
  {
    if i < n {
      FileLasts(states, actions, path, i, n - 1);
      FileStays(states[n - 1], actions[n - 1], path);
    }
  }

  /** A chunk of a file that is still there: any server that has it has the right bytes. */
  lemma AskIsRight(states: seq<Cluster>, actions: seq<Action>, i: nat, server: ServerId, c: ChunkId, a: Attempt)
    requires IsRun(states, actions) && i <= a.at < |states| && c in states[i].jobs
    ensures var r := Ask(states, server, c, a); r.Some? ==> r.value == states[i].jobs[c].payload
  {
    RunKeepsInv(states, actions, a.at);
    JobLasts(states, actions, i, a.at, c);
    assert HeldRight(states[a.at], server, c);
  }

  lemma FileChunkIsLive(states: seq<Cluster>, actions: seq<Action>, path: Path, i: nat, n: nat, k: nat)
    requires IsRun(states, actions) && i <= n < |states|
    requires path in states[i].master.files && Undisturbed(actions, path, i, n)
    requires k < |states[i].master.files[path]|
    ensures IsLive(states[n].master, states[i].master.files[path][k])
  {
    FileLasts(states, actions, path, i, n);
    RunKeepsInv(states, actions, n);
    assert ListedOk(states[n].master, path, k, states[n].master.files[path][k]);
  }

  /** An acknowledged chunk of a file that is still there: both replicas have it. */
  lemma AskSucceeds(states: seq<Cluster>, actions: seq<Action>, path: Path, i: nat, k: nat,
                    server: ServerId, a: Attempt)
    requires IsRun(states, actions) && i <= a.at < |states|
    requires path in states[i].master.files && Undisturbed(actions, path, i, a.at)
    requires k < |states[i].master.files[path]|
    requires var c := states[i].master.files[path][k];
      c in states[i].jobs && states[i].jobs[c].progress.Acked? && server in states[i].jobs[c].homes
    requires a.up
    ensures Ask(states, server, states[i].master.files[path][k], a).Some?
  {
    var c := states[i].master.files[path][k];
    FileChunkIsLive(states, actions, path, i, a.at, k);
    RunKeepsInv(states, actions, a.at);
    JobLasts(states, actions, i, a.at, c);
    assert InPlace(states[a.at], c);
    assert server == states[a.at].jobs[c].homes[0] || server == states[a.at].jobs[c].homes[1] by {
      assert KnownRight(states[a.at].master, c, states[a.at].jobs[c]);
    }
  }

  // ---------------------------------------------------------------------------
  // Whole files
  // ---------------------------------------------------------------------------

  /** A `get`: looked up at step `i`, its chunks read at any steps from then on. */
  ghost predicate IsGet(states: seq<Cluster>, actions: seq<Action>, path: Path, i: nat, fetches: seq<Fetch>) {
    && IsRun(states, actions) && i < |states| && Lookup(states[i].master, path).Success?
    && path in states[i].master.files && |fetches| == |states[i].master.files[path]|
    && |Lookup(states[i].master, path).value| == |fetches|
    && forall k :: 0 <= k < |fetches| ==> ReadAfter(states, actions, path, i, fetches[k])
  }

  ghost predicate ReadAfter(states: seq<Cluster>, actions: seq<Action>, path: Path, i: nat, f: Fetch) {
    && i <= f.primary.at < |states| && i <= f.secondary.at < |states|
    && Undisturbed(actions, path, i, f.primary.at) && Undisturbed(actions, path, i, f.secondary.at)
  }

  /** What the read of the file's chunk `k` returns. */
  ghost function Got(states: seq<Cluster>, actions: seq<Action>, path: Path, i: nat,
                     fetches: seq<Fetch>, k: nat): Option<Bytes>
    requires IsGet(states, actions, path, i, fetches) && k < |fetches|
  {
    var (c, replicas) := Lookup(states[i].master, path).value[k];
    assert ReadAfter(states, actions, path, i, fetches[k]);
    ReadChunk(states, c, replicas, fetches[k])
  }

  lemma Listed(states: seq<Cluster>, actions: seq<Action>, path: Path, i: nat, k: nat)
    requires IsRun(states, actions) && i < |states| && Lookup(states[i].master, path).Success?
    requires path in states[i].master.files
    requires k < |states[i].master.files[path]| == |Lookup(states[i].master, path).value|
    ensures var (c, r), job := Lookup(states[i].master, path).value[k], states[i].jobs;
      && c == states[i].master.files[path][k] && c in job && r.primary in job[c].homes
      && (r.secondary.Some? ==> r.secondary.value in job[c].homes)
      && path in states[i].contents && job[c].payload == Slice(states[i].contents[path], k)
  {
    RunKeepsInv(states, actions, i);
    LookupOutcome(states[i].master, path);
    var c := states[i].master.files[path][k];
    assert FileOk(states[i], path) && SliceOk(states[i], states[i].contents[path], c, k);
    assert KnownRight(states[i].master, c, states[i].jobs[c]);
    assert ListedOk(states[i].master, path, k, c);
  }

  /** A chunk that is read at all is read right, whether or not the file's `put` has finished. */
  lemma GotIsSlice(states: seq<Cluster>, actions: seq<Action>, path: Path, i: nat, fetches: seq<Fetch>, k: nat)
    requires IsGet(states, actions, path, i, fetches) && k < |fetches|
    ensures path in states[i].contents
    ensures var r := Got(states, actions, path, i, fetches, k);
      r.Some? ==> r.value == Slice(states[i].contents[path], k)
  {
    Listed(states, actions, path, i, k);
    var (c, r) := Lookup(states[i].master, path).value[k];
    assert ReadAfter(states, actions, path, i, fetches[k]);
    AskIsRight(states, actions, i, r.primary, c, fetches[k].primary);
    if r.secondary.Some? {
      AskIsRight(states, actions, i, r.secondary.value, c, fetches[k].secondary);
    }
  }

  /** Once its write was acknowledged, a chunk is read as soon as one listed replica answers. */
  lemma GotIfAcked(states: seq<Cluster>, actions: seq<Action>, path: Path, i: nat, fetches: seq<Fetch>, k: nat)
    requires IsGet(states, actions, path, i, fetches) && k < |fetches|
    requires var (c, r) := Lookup(states[i].master, path).value[k];
      c in states[i].jobs && states[i].jobs[c].progress.Acked? && Answers(r, fetches[k])
    ensures Got(states, actions, path, i, fetches, k).Some?
  {
    Listed(states, actions, path, i, k);
    var (c, r) := Lookup(states[i].master, path).value[k];
    assert ReadAfter(states, actions, path, i, fetches[k]);
    if fetches[k].primary.up {
      AskSucceeds(states, actions, path, i, k, r.primary, fetches[k].primary);
    } else {
      AskSucceeds(states, actions, path, i, k, r.secondary.value, fetches[k].secondary);
    }
  }

  /**
   A `get` whose chunk reads all succeed returns exactly the bytes its file was put with, however the
   reads are spread over a run in which the file is not deleted.
   */
  lemma GetRebuilds(states: seq<Cluster>, actions: seq<Action>, path: Path, i: nat,
                    fetches: seq<Fetch>, parts: seq<Bytes>)
    requires IsGet(states, actions, path, i, fetches) && |parts| == |fetches|
    requires forall k :: 0 <= k < |parts| ==> Got(states, actions, path, i, fetches, k) == Some(parts[k])
    ensures path in states[i].contents && Joined(parts) == states[i].contents[path].data
  {
    RunKeepsInv(states, actions, i);
    assert FileOk(states[i], path);
    forall k | 0 <= k < |parts|
      ensures parts[k] == Slice(states[i].contents[path], k)
    {
      GotIsSlice(states, actions, path, i, fetches, k);
    }
    SlicesRebuild(states[i].contents[path], parts);
  }

  /**
   A `get` of a file all of whose chunks were acknowledged succeeds, and with the bytes that were put,
   as soon as one listed replica of each chunk answers.
   */
  lemma GetSucceeds(states: seq<Cluster>, actions: seq<Action>, path: Path, i: nat, fetches: seq<Fetch>)
    returns (parts: seq<Bytes>)
    requires IsGet(states, actions, path, i, fetches)
    requires forall k :: 0 <= k < |fetches| ==> AckedAndAnswered(states, path, i, fetches, k)
    ensures |parts| == |fetches|
    ensures forall k :: 0 <= k < |parts| ==> Got(states, actions, path, i, fetches, k) == Some(parts[k])
    ensures path in states[i].contents && Joined(parts) == states[i].contents[path].data
  {
    parts := [];
    for n := 0 to |fetches|
      invariant |parts| == n
      invariant forall k :: 0 <= k < n ==> Got(states, actions, path, i, fetches, k) == Some(parts[k])
    {
      assert AckedAndAnswered(states, path, i, fetches, n);
      GotIfAcked(states, actions, path, i, fetches, n);
      parts := parts + [Got(states, actions, path, i, fetches, n).value];
    }
    GetRebuilds(states, actions, path, i, fetches, parts);
  }

  /** The write of chunk `k` was acknowledged before the look-up, and one of its listed replicas answers the read. */
  ghost predicate AckedAndAnswered(states: seq<Cluster>, path: Path, i: nat, fetches: seq<Fetch>, k: nat)
    requires i < |states| && k < |fetches| && Lookup(states[i].master, path).Success?
    requires |Lookup(states[i].master, path).value| == |fetches|
  {
    var (c, r) := Lookup(states[i].master, path).value[k];
    c in states[i].jobs && states[i].jobs[c].progress.Acked? && Answers(r, fetches[k])
  }

  /** Step `k` puts the file with this content, and no later step before `n` deletes it. */
  ghost predicate PutAt(states: seq<Cluster>, actions: seq<Action>, path: Path, content: Content, k: nat, n: nat)
    requires |states| == |actions| + 1
  {
    && k < n < |states| && actions[k] == Put(path, content)
    && AllocateError(states[k].master, path, content.chunkSize).None? && Undisturbed(actions, path, k, n)
  }

  lemma FileBefore(s: Cluster, a: Action, path: Path)
    requires Enabled(s, a) && path in Step(s, a).master.files && path in Step(s, a).contents
    requires path in s.master.files ==> path in s.contents
    ensures (a == Put(path, Step(s, a).contents[path]) && AllocateError(s.master, path, a.content.chunkSize).None?)
         || (a != Remove(path) && path in s.master.files && s.contents[path] == Step(s, a).contents[path])
  {}

  /** An existing file's content is what the latest successful `put` of its path was given. */
  lemma {:induction false} ContentWasPut(states: seq<Cluster>, actions: seq<Action>, path: Path, n: nat)
    requires IsRun(states, actions) && n < |states| && path in states[n].master.files
    ensures path in states[n].contents && exists k: nat :: PutAt(states, actions, path, states[n].contents[path], k, n)
  {
    RunKeepsInv(states, actions, n);
    assert n > 0 && FileOk(states[n], path);
    var s, a, content := states[n - 1], actions[n - 1], states[n].contents[path];
    if a == Put(path, content) && AllocateError(s.master, path, content.chunkSize).None? {
      assert PutAt(states, actions, path, content, n - 1, n);
    } else {
      RunKeepsInv(states, actions, n - 1);
      FileBefore(s, a, path);
      ContentWasPut(states, actions, path, n - 1);
      var k: nat :| PutAt(states, actions, path, content, k, n - 1);
      assert PutAt(states, actions, path, content, k, n);
    }
  }
}
