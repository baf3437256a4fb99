/** A chunk server: its store, the data-plane requests, and its side of a heartbeat. */
module GfsChunkServer {
  import opened Binary
  import opened Sequences
  import opened Wrappers
  import opened M = GfsMetadata
  import opened C = GfsCluster

  /** The largest value of a 64-bit counter. */
  const MAX: nat := 0xFFFF_FFFF_FFFF_FFFF

  datatype Response = Written | Data(bytes: Bytes) | NotFound | Error

  /** What the network does to a forwarded write and to its answer. */
  datatype Network = Network(delivered: bool, answered: bool)

  function SaturatingAdd(a: nat, b: nat): nat {
    if a + b > MAX then MAX else a + b
  }

  /** The requested range, clamped to the chunk. */
  function Clamped(full: Bytes, offset: nat, len: nat): Bytes
    requires |full| <= MAX
  {
    var start := Min(offset, |full|);
    full[start..Min(SaturatingAdd(start, len), |full|)]
  }

  /** Exactly the bytes of the chunk whose positions lie in the range. */
  lemma ClampedIsOverlap(full: Bytes, offset: nat, len: nat)
    requires |full| <= MAX
    ensures |Clamped(full, offset, len)|
         == if offset >= |full| then 0 else if offset + len >= |full| then |full| - offset else len
    ensures forall k :: 0 <= k < |Clamped(full, offset, len)| ==> Clamped(full, offset, len)[k] == full[offset + k]
  {}

  /** Reading a range in two parts reads it all. */
  lemma RangesJoin(full: Bytes, offset: nat, len: nat, more: nat)
    requires |full| <= MAX
    ensures Clamped(full, offset, len) + Clamped(full, offset + len, more) == Clamped(full, offset, len + more)
  {
    if offset + len > |full| {
      assert Clamped(full, offset + len, more) == [];
    }
  }

  class ChunkServer {
    var store: Store

    constructor ()
      ensures store == map[]
    {
      store := map[];
    }

    /**
     Store locally, then forward to the secondary if one is named, and acknowledge only after its
     own acknowledgement: an acknowledged write is in both stores. After an error the local copy
     stays, and the secondary has one too if only the answer was lost.
     */
    method Write(c: ChunkId, payload: Bytes, forwardTo: Option<ChunkServer>, network: Network) returns (r: Response)
      modifies this, if forwardTo.Some? then {forwardTo.value} else {}
      ensures store == old(store)[c := payload]
      ensures r == Written || r == Error
      ensures r == Written && forwardTo.Some? ==> c in forwardTo.value.store && forwardTo.value.store[c] == payload
      ensures r == Error <==> forwardTo.Some? && !(network.delivered && network.answered)
      ensures forwardTo.Some? && forwardTo.value != this ==>
        forwardTo.value.store
          == if network.delivered then old(forwardTo.value.store)[c := payload] else old(forwardTo.value.store)
    {
      store := store[c := payload];
      match forwardTo {
        case Some(peer) =>
          var acked := Forward(peer, c, payload, network);
          r := if acked then Written else Error;
        case None =>
          r := Written;
      }
    }

    method Forward(peer: ChunkServer, c: ChunkId, payload: Bytes, network: Network) returns (acked: bool)
      modifies peer
      ensures acked ==> c in peer.store && peer.store[c] == payload
      ensures !acked <==> !network.delivered || !network.answered
      ensures peer.store == if network.delivered then old(peer.store)[c := payload] else old(peer.store)
    {
      if !network.delivered {
        return false;
      }
      var reply := peer.StoreChunk(c, payload);
      acked := network.answered && reply.Written?;
    }

    /** A write that is not forwarded further. */
    method StoreChunk(c: ChunkId, payload: Bytes) returns (r: Response)
      modifies this
      ensures store == old(store)[c := payload] && r == Written
    {
      store := store[c := payload];
      r := Written;
    }

    method Read(c: ChunkId) returns (r: Response)
      ensures r == if c in store then Data(store[c]) else Response.NotFound
    {
      if c in store {
        r := Data(store[c]);
      } else {
        r := Response.NotFound;
      }
    }

    method ReadRange(c: ChunkId, offset: nat, len: nat) returns (r: Response)
      requires c in store ==> |store[c]| <= MAX
      ensures r.NotFound? <==> c !in store
      ensures c in store ==> r == Data(Clamped(store[c], offset, len))
      ensures c in store ==> forall k :: 0 <= k < |r.bytes| ==>
        offset + k < |store[c]| && r.bytes[k] == store[c][offset + k]
    {
      if c !in store {
        return Response.NotFound;
      }
      var full := store[c];
      ClampedIsOverlap(full, offset, len);
      var start := if offset < |full| then offset else |full|;
      var end := if start + len > MAX then MAX else start + len;
      end := if end < |full| then end else |full|;
      r := Data(full[start..end]);
    }

    /** The report names exactly the chunks held, each once. */
    method CollectReport() returns (held: seq<ChunkId>)
      ensures Reports(store, held) && NoDup(held)
    {
      held := [];
      var todo := store.Keys;
      while todo != {}
        invariant todo <= store.Keys && (forall c :: c in held <==> c in store && c !in todo)
        invariant NoDup(held)
        decreases todo
      {
        var c :| c in todo;
        todo := todo - {c};
        held := held + [c];
      }
    }

    method ApplyDrops(drops: seq<ChunkId>)
      modifies this
      ensures store == Kept(old(store), drops)
    {
      for i := 0 to |drops|
        invariant store == Kept(old(store), drops[..i])
      {
        assert drops[..i + 1] == drops[..i] + [drops[i]];
        store := store - {drops[i]};
      }
      assert drops[..|drops|] == drops;
    }
  }

  /** `n` steps of the chunk's write in the cluster. */
  function WriteSteps(s: Cluster, c: ChunkId, n: nat): (s': Cluster)
    requires CanWrite(s, c)
    ensures CanWrite(s', c)
  {
    if n == 0 then s else WriteChunk(WriteSteps(s, c, n - 1), c)
  }

  /**
   A chain-replicated write between two servers of a cluster is one, two or three steps of the chunk's
   write there: the local store; also the forwarded one if the request arrives; and also the
   acknowledgement if the answer does.
   */
  method ChainWrite(ghost s: Cluster, c: ChunkId, payload: Bytes, primary: ChunkServer, secondary: ChunkServer,
                    network: Network) returns (r: Response, ghost s': Cluster)
    requires CanWrite(s, c) && s.jobs[c].progress.Assigned? && s.jobs[c].payload == payload
    requires primary != secondary && s.jobs[c].homes[0] != s.jobs[c].homes[1]
    requires s.stores[s.jobs[c].homes[0]] == primary.store && s.stores[s.jobs[c].homes[1]] == secondary.store
    modifies primary, secondary
    ensures exists n :: 1 <= n <= 3 && s' == WriteSteps(s, c, n)
    ensures CanWrite(s', c) && s'.jobs[c].homes == s.jobs[c].homes
    ensures s'.stores[s.jobs[c].homes[0]] == primary.store && s'.stores[s.jobs[c].homes[1]] == secondary.store
    ensures r == Written <==> s'.jobs[c].progress.Acked?
  {
    r := primary.Write(c, payload, Some(secondary), network);
    ghost var s1 := WriteChunk(s, c);
    ghost var s2 := WriteChunk(s1, c);
    assert WriteSteps(s, c, 0) == s && WriteSteps(s, c, 1) == s1;
    assert WriteSteps(s, c, 2) == s2 && WriteSteps(s, c, 3) == WriteChunk(s2, c);
    s' := if r == Written then WriteChunk(s2, c) else if network.delivered then s2 else s1;
  }
}
