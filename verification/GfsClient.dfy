/** The client's `put` and `get`. */
module GfsClient {
  import opened Binary
  import opened Wrappers
  import opened Arithmetic
  import opened M = GfsMetadata
  import opened C = GfsCluster
  import opened R = GfsReads

  datatype WriteRequest = WriteRequest(chunk: ChunkId, replicas: ReplicaSet, payload: Bytes)

  /** How many of the writes are attempted: up to and including the first that is not acknowledged. */
  function Attempted(acks: seq<bool>): nat {
    if acks == [] then 0
    else if acks[0] then 1 + Attempted(acks[1..])
    else 1
  }

  lemma {:induction false} AttemptedMeans(acks: seq<bool>, k: nat)
    requires k <= |acks| && (forall i :: 0 <= i < k ==> acks[i])
    ensures k == |acks| ==> Attempted(acks) == k
    ensures k < |acks| && !acks[k] ==> Attempted(acks) == k + 1
  {
    if k > 0 {
      AttemptedMeans(acks[1..], k - 1);
    }
  }

  /**
   Cut the file into the chunks the master allocated and write them in order, giving up at the first
   that is not acknowledged.
   */
  method Put(content: Content, chunks: Listing, acks: seq<bool>) returns (sent: seq<WriteRequest>, ok: bool)
    requires content.chunkSize > 0 && |chunks| == ChunkCount(|content.data|, content.chunkSize) == |acks|
    ensures |sent| == Attempted(acks) <= |chunks|
    ensures forall i :: 0 <= i < |sent| ==> sent[i] == WriteRequest(chunks[i].0, chunks[i].1, Slice(content, i))
    ensures ok <==> forall i :: 0 <= i < |acks| ==> acks[i]
  {
    sent := [];
    var len := |content.data|;
    ChunksCover(len, content.chunkSize);
    for i := 0 to |chunks|
      invariant |sent| == i && forall j :: 0 <= j < i ==> acks[j]
      invariant forall j :: 0 <= j < i ==> sent[j] == WriteRequest(chunks[j].0, chunks[j].1, Slice(content, j))
    {
      var start := i * content.chunkSize;
      var end := if (i + 1) * content.chunkSize < len then (i + 1) * content.chunkSize else len;
      SliceIs(content, i);
      sent := sent + [WriteRequest(chunks[i].0, chunks[i].1, content.data[start..end])];
      if !acks[i] {
        AttemptedMeans(acks, i);
        return sent, false;
      }
    }
    AttemptedMeans(acks, |acks|);
    ok := true;
  }

  lemma SliceIs(content: Content, i: nat)
    requires content.chunkSize > 0 && i < ChunkCount(|content.data|, content.chunkSize)
    ensures var start, end := i * content.chunkSize, Min((i + 1) * content.chunkSize, |content.data|);
      start <= end <= |content.data| && Slice(content, i) == content.data[start..end]
  {
    ChunksCover(|content.data|, content.chunkSize);
    OffsetIsProduct(content.chunkSize, i);
    Scale(i, i, content.chunkSize);
  }

  predicate AllRead(chunks: Listing, replies: seq<Replies>)
    requires |chunks| == |replies|
  {
    forall i :: 0 <= i < |chunks| ==> FullRead(chunks[i].1, replies[i]).Some?
  }

  function Parts(chunks: Listing, replies: seq<Replies>, n: nat): (r: seq<Bytes>)
    requires n <= |chunks| == |replies| && forall i :: 0 <= i < n ==> FullRead(chunks[i].1, replies[i]).Some?
    ensures |r| == n && forall i :: 0 <= i < n ==> FullRead(chunks[i].1, replies[i]) == Some(r[i])
  {
    seq(n, i requires 0 <= i < n => FullRead(chunks[i].1, replies[i]).value)
  }

  /** Read the chunks in order, each from its primary or else its secondary, giving up at the first that fails. */
  method Get(chunks: Listing, replies: seq<Replies>) returns (r: Option<Bytes>)
    requires |chunks| == |replies|
    ensures r.Some? <==> AllRead(chunks, replies)
    ensures r.Some? ==> r.value == Joined(Parts(chunks, replies, |chunks|))
  {
    var out: Bytes := [];
    for i := 0 to |chunks|
      invariant forall j :: 0 <= j < i ==> FullRead(chunks[j].1, replies[j]).Some?
      invariant out == Joined(Parts(chunks, replies, i))
    {
      var bytes := ReadChunkFull(chunks[i].1, replies[i]);
      if bytes.None? {
        return None;
      }
      ghost var parts := Parts(chunks, replies, i);
      assert Parts(chunks, replies, i + 1) == parts + [bytes.value] && (parts + [bytes.value])[..i] == parts;
      out := out + bytes.value;
    }
    r := Some(out);
  }

  method ReadChunkFull(replicas: ReplicaSet, replies: Replies) returns (r: Option<Bytes>)
    ensures r == FullRead(replicas, replies)
  {
    r := replies.primary;
    if r.None? {
      r := if replicas.secondary.Some? then replies.secondary else None;
    }
  }

  /** Getting what was put: if every chunk is answered with what `Put` sent for it, the file comes back. */
  lemma PutGet(content: Content, chunks: Listing, replies: seq<Replies>)
    requires content.chunkSize > 0 && |chunks| == |replies| == ChunkCount(|content.data|, content.chunkSize)
    requires forall i :: 0 <= i < |chunks| ==> FullRead(chunks[i].1, replies[i]) == Some(Slice(content, i))
    ensures AllRead(chunks, replies) && Joined(Parts(chunks, replies, |chunks|)) == content.data
  {
    SlicesRebuild(content, Parts(chunks, replies, |chunks|));
  }
}
