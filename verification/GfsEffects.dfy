/**
 What each request does to the master's files, chunks and servers, and each step to the cluster,
 entry by entry.
 */
module GfsEffects {
  import opened Arithmetic
  import opened Binary
  import opened Sequences
  import opened Wrappers
  import opened M = GfsMetadata
  import opened C = GfsCluster

  // ---------------------------------------------------------------------------
  // Servers
  // ---------------------------------------------------------------------------

  predicate IsOnline(s: Metadata, id: ServerId) {
    id in s.online && s.online[id]
  }

  /** A new server is online under an id nobody had; the others stay as they were. */
  lemma RegisterEffect(s: Metadata, id: ServerId)
    requires M.Inv(s)
    ensures var s' := Register(s);
      && s.nextServer !in s.online && IsOnline(s', s.nextServer) && s'.nextServer == s.nextServer + 1
      && (id != s.nextServer ==> (id in s'.online <==> id in s.online) && (IsOnline(s', id) <==> IsOnline(s, id)))
      && s'.files == s.files && s'.chunks == s.chunks && s'.nextChunk == s.nextChunk && s'.cursor == s.cursor
  {}

  /** A tick takes exactly the late servers offline, and forgets none. */
  lemma TimeoutEffect(s: Metadata, late: set<ServerId>, id: ServerId)
    ensures var s' := Timeout(s, late);
      && (IsOnline(s', id) <==> IsOnline(s, id) && id !in late) && (id in s'.online <==> id in s.online)
      && (late == {} ==> s'.online == s.online)
      && s'.files == s.files && s'.chunks == s.chunks && s'.nextChunk == s.nextChunk && s'.cursor == s.cursor
      && s'.nextServer == s.nextServer
  {}

  /** A heartbeat puts a registered server online, timed out or not, and changes no other server. */
  lemma HeartbeatServers(s: Metadata, server: ServerId, held: seq<ChunkId>, id: ServerId)
    ensures var s' := Heartbeat(s, server, held);
      && (IsOnline(s', id) <==> IsOnline(s, id) || (id == server && id in s.online))
      && (id in s'.online <==> id in s.online)
      && s'.files == s.files && s'.nextChunk == s.nextChunk && s'.cursor == s.cursor && s'.nextServer == s.nextServer
  {}

  /**
   A heartbeat changes a chunk's record only if the chunk is deleted, not reported and was counted on
   that server: then that server is taken off, and the chunk is forgotten exactly if there was no other.
   */
  lemma HeartbeatChunks(s: Metadata, server: ServerId, held: seq<ChunkId>, c: ChunkId)
    requires M.Inv(s)
    ensures var s' := Heartbeat(s, server, held);
      if c in s.chunks && s.chunks[c].deleted && c !in held && server in s.chunks[c].replicas then
        && (c !in s'.chunks <==> (forall id :: id in s.chunks[c].replicas ==> id == server))
        && (c in s'.chunks ==> s'.chunks[c].deleted && NoDup(s'.chunks[c].replicas))
        && (c in s'.chunks ==>
              (forall id :: id in s'.chunks[c].replicas <==> (id in s.chunks[c].replicas && id != server)))
      else
        (c in s'.chunks <==> c in s.chunks) && (c in s.chunks ==> s'.chunks[c] == s.chunks[c])
  {
    if c in s.chunks {
      var rest := Without(s.chunks[c].replicas, server);
      WithoutMembers(s.chunks[c].replicas, server);
      assert rest != [] ==> rest[0] in rest;
      assert ReplicasOk(s, s.chunks[c]);
    }
  }

  /** The reply names a reported chunk exactly if it is unknown, deleted or not assigned to that server. */
  lemma HeartbeatReply(s: Metadata, server: ServerId, held: seq<ChunkId>, c: ChunkId)
    ensures c in Unwanted(s, server, held)
       <==> c in held && !CountedThere(s, server, c)
  {}

  // ---------------------------------------------------------------------------
  // Files
  // ---------------------------------------------------------------------------

  /** Deleting a file takes it out of the namespace and marks its chunks; nothing else changes. */
  lemma DeleteEffect(s: Metadata, path: Path, p: Path, c: ChunkId)
    ensures var s' := Delete(s, path);
      && (p in s'.files <==> p in s.files && p != path) && (p in s'.files ==> s'.files[p] == s.files[p])
      && (c in s'.chunks <==> c in s.chunks)
      && (c in s.chunks ==>
            && s'.chunks[c].replicas == s.chunks[c].replicas
            && (s'.chunks[c].deleted <==> s.chunks[c].deleted || (path in s.files && c in s.files[path])))
      && s'.online == s.online && s'.nextChunk == s.nextChunk && s'.cursor == s.cursor && s'.nextServer == s.nextServer
  {}

  lemma {:induction false} AscendingPair(ids: seq<ServerId>, a: ServerId, b: ServerId)
    requires a in ids && b in ids && a != b
    ensures |ids| >= 2
  {
    var i :| 0 <= i < |ids| && ids[i] == a;
    var j :| 0 <= j < |ids| && ids[j] == b;
    assert i != j;
  }

  /**
   Why an allocation is refused, in this order: a zero chunk size, a path in use, fewer than two servers
   online; and for no other reason.
   */
  lemma AllocateErrors(s: Metadata, path: Path, chunkSize: nat)
    requires M.Inv(s)
    ensures var e := AllocateError(s, path, chunkSize);
      && (chunkSize == 0 ==> e == Some(InvalidChunkSize))
      && (chunkSize > 0 && path in s.files ==> e == Some(AlreadyExists))
      && (chunkSize > 0 && path !in s.files ==>
            e == if exists a, b :: a != b && IsOnline(s, a) && IsOnline(s, b) then None else Some(NotEnoughServers))
  {
    var ids := OnlineIds(s);
    assert forall id :: id in ids <==> IsOnline(s, id);
    if a, b :| a != b && IsOnline(s, a) && IsOnline(s, b) {
      AscendingPair(ids, a, b);
    }
    if |ids| >= 2 {
      assert ids[0] in ids && ids[1] in ids && ids[0] != ids[1];
    }
  }

  /**
   A refused allocation changes nothing; a granted one adds the file with fresh chunks, and touches no
   other file or chunk.
   */
  lemma AllocateEffect(s: Metadata, path: Path, len: nat, chunkSize: nat, p: Path, c: ChunkId)
    requires M.Inv(s)
    ensures var s' := Allocate(s, path, len, chunkSize);
      && (AllocateError(s, path, chunkSize).Some? ==> s' == s)
      && (AllocateError(s, path, chunkSize).None? ==>
            && |s'.files[path]| == ChunkCount(len, chunkSize)
            && s'.nextChunk == s.nextChunk + ChunkCount(len, chunkSize)
            && (forall i :: 0 <= i < |s'.files[path]| ==> s'.files[path][i] == s.nextChunk + i))
      && (p != path ==> (p in s'.files <==> p in s.files) && (p in s.files ==> s'.files[p] == s.files[p]))
      && (c < s.nextChunk ==> (c in s'.chunks <==> c in s.chunks) && (c in s.chunks ==> s'.chunks[c] == s.chunks[c]))
      && s'.online == s.online && s'.nextServer == s.nextServer
  {}

  lemma WrapTwice(x: nat, d: nat, w: nat)
    requires w > 0
    ensures (x % w + d) % w == (x + d) % w
  {
    var q, z := x / w, x % w + d;
    assert x == q * w + x % w && z == z / w * w + z % w;
    assert (q + z / w) * w == q * w + z / w * w;
    RemainderUnique(x + d, w, q + z / w, z % w);
  }

  /** The cursor moves on by one a replica, and wraps at 64 bits. */
  lemma {:induction false} CursorMoves(cursor: nat, n: nat)
    requires cursor < 0x1_0000_0000_0000_0000
    ensures CursorAfter(cursor, n) == (cursor + 2 * n) % 0x1_0000_0000_0000_0000
  {
    if n > 0 {
      CursorMoves(cursor, n - 1);
      WrapTwice(cursor + 2 * (n - 1), 2, WRAP);
    }
  }

  lemma PlanPair(ids: seq<ServerId>, cursor: nat, n: nat, i: nat)
    requires |ids| > 0 && i < n && cursor < 0x1_0000_0000_0000_0000
    ensures var at := cursor + 2 * i;
      Plan(ids, cursor, n)[i] == [ids[at % 0x1_0000_0000_0000_0000 % |ids|],
                                  ids[(at + 1) % 0x1_0000_0000_0000_0000 % |ids|]]
  {
    PlanAt(ids, cursor, n, i);
    CursorMoves(cursor, i);
    PlacementIs(ids, CursorAfter(cursor, i));
    WrapTwice(cursor + 2 * i, 0, WRAP);
    WrapTwice(cursor + 2 * i, 1, WRAP);
  }

  lemma {:induction false} PlanAt(ids: seq<ServerId>, cursor: nat, n: nat, i: nat)
    requires |ids| > 0 && i < n
    ensures Plan(ids, cursor, n)[i] == Placement(ids, CursorAfter(cursor, i))
  {
    if i < n - 1 {
      PlanAt(ids, cursor, n - 1, i);
    }
  }

  /** Chunk `i` of a new file goes to the next two servers, by ascending id, from where the cursor is by then. */
  lemma PlacementEffect(s: Metadata, path: Path, len: nat, chunkSize: nat, i: nat)
    requires M.Inv(s) && AllocateError(s, path, chunkSize).None? && i < ChunkCount(len, chunkSize)
    ensures var s', ids, at := Allocate(s, path, len, chunkSize), OnlineIds(s), s.cursor + 2 * i;
      && s.nextChunk + i in s'.chunks
      && s'.chunks[s.nextChunk + i] == ChunkInfo([ids[at % 0x1_0000_0000_0000_0000 % |ids|],
                                                  ids[(at + 1) % 0x1_0000_0000_0000_0000 % |ids|]], false)
      && s'.cursor == (s.cursor + 2 * ChunkCount(len, chunkSize)) % 0x1_0000_0000_0000_0000
  {
    var ids, n := OnlineIds(s), ChunkCount(len, chunkSize);
    PlanPair(ids, s.cursor, n, i);
    CursorMoves(s.cursor, n);
    var plan := Plan(ids, s.cursor, n);
    assert Allocate(s, path, len, chunkSize) == Allocated(s, path, plan);
    assert Placed(s, plan)[s.nextChunk + i] == ChunkInfo(plan[i], false);
  }

  /**
   A look-up lists each chunk with its online replicas: the first of them as primary, and the other as
   secondary if it is online too.
   */
  lemma LookupEffect(s: Metadata, path: Path, i: nat)
    requires M.Inv(s) && path in s.files && Lookup(s, path).Success? && i < |s.files[path]|
    ensures |Lookup(s, path).value| == |s.files[path]|
    ensures var c := s.files[path][i];
      && c in s.chunks && |s.chunks[c].replicas| == 2
      && var a, b := s.chunks[c].replicas[0], s.chunks[c].replicas[1];
         Lookup(s, path).value[i]
           == (c, if !IsOnline(s, a) then ReplicaSet(b, None)
                  else ReplicaSet(a, if IsOnline(s, b) then Some(b) else None))
  {
    var c := s.files[path][i];
    assert ListedOk(s, path, i, c) && ReplicasOk(s, s.chunks[c]);
    assert ChunkReadable(s, c);
    LiveOfTwo(s, s.chunks[c].replicas);
  }

  lemma LiveOfTwo(s: Metadata, replicas: seq<ServerId>)
    requires |replicas| == 2
    ensures var a, b := replicas[0], replicas[1];
      Live(s, replicas) == (if IsOnline(s, a) then [a] else []) + (if IsOnline(s, b) then [b] else [])
  {
    var first := replicas[..1];
    assert first == [replicas[0]] && first[..0] == [] && Live(s, []) == [];
    assert Live(s, first) == if IsOnline(s, replicas[0]) then [replicas[0]] else [];
    assert Live(s, replicas) == Live(s, first) + if IsOnline(s, replicas[1]) then [replicas[1]] else [];
  }

  // ---------------------------------------------------------------------------
  // The cluster
  // ---------------------------------------------------------------------------

  /** The reply tells the server to drop what it reported and the master does not want there. */
  ghost predicate IsReplyTo(s: Cluster, report: Report, r: Reply) {
    && r.server == report.server
    && forall c :: c in r.drops <==> (c in report.held && !CountedThere(s.master, report.server, c))
  }

  /** The chunk is known, not deleted, and assigned to that server. */
  predicate CountedThere(m: Metadata, id: ServerId, c: ChunkId) {
    c in m.chunks && !m.chunks[c].deleted && id in m.chunks[c].replicas
  }

  /** A report or a reply that was sent stays available, and a deletion is seen by every later look-up. */
  lemma MessagesStay(s: Cluster, a: Action)
    requires Enabled(s, a)
    ensures var s' := Step(s, a);
      && s.reports <= s'.reports && s.replies <= s'.replies
      && (a.Collect? ==> a.report in s'.reports)
      && (a.Process? ==> (exists r :: r in s'.replies && IsReplyTo(s, a.report, r)))
      && (a.Remove? ==> a.path !in s'.master.files && Lookup(s'.master, a.path) == Failure(NotFound))
  {
    if a.Process? {
      var r := Reply(a.report.server, Unwanted(s.master, a.report.server, a.report.held));
      assert r in Step(s, a).replies;
    }
  }

  /** Applying a reply removes exactly the chunks it names from that server, and nothing elsewhere. */
  lemma DropsEffect(s: Cluster, r: Reply, id: ServerId, c: ChunkId)
    requires Enabled(s, ApplyDrops(r))
    ensures var s' := Step(s, ApplyDrops(r));
      && (Holds(s', id, c) <==> Holds(s, id, c) && !(id == r.server && c in r.drops))
      && (Holds(s', id, c) ==> s'.stores[id][c] == s.stores[id][c])
  {}

  /** Once a report of a registered server is processed, allocations use that server again ... */
  lemma ReportBringsBack(s: Cluster, r: Report)
    requires C.Inv(s) && r in s.reports && r.server in s.master.online
    ensures r.server in OnlineIds(Step(s, Process(r)).master)
  {
    HeartbeatServers(s.master, r.server, r.held, r.server);
  }

  /** ... and every file with that server among the replicas of each of its chunks can be looked up. */
  lemma ReportMakesReadable(s: Cluster, r: Report, path: Path)
    requires C.Inv(s) && r in s.reports && r.server in s.master.online && path in s.master.files
    requires forall i :: 0 <= i < |s.master.files[path]| ==> StoredOn(s, s.master.files[path][i], r.server)
    ensures Lookup(Step(s, Process(r)).master, path).Success?
  {
    var m := Step(s, Process(r)).master;
    StepKeepsInv(s, Process(r));
    HeartbeatServers(s.master, r.server, r.held, r.server);
    LookupOutcome(m, path);
    forall i | 0 <= i < |m.files[path]|
      ensures !AllOffline(m, m.files[path][i])
    {
      assert StoredOn(s, s.master.files[path][i], r.server);
      assert ListedOk(s.master, path, i, s.master.files[path][i]);
      HeartbeatChunks(s.master, r.server, r.held, s.master.files[path][i]);
    }
  }

  /** The master counts the server among the chunk's replicas. */
  predicate StoredOn(s: Cluster, c: ChunkId, id: ServerId) {
    c in s.master.chunks && id in s.master.chunks[c].replicas
  }
}
