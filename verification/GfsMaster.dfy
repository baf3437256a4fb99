/** The master server: its metadata, changed in place by each request. */
module GfsMaster {
  import opened Arithmetic
  import opened Sequences
  import opened Wrappers
  import opened M = GfsMetadata
  import opened W = GfsLiveness

  class Master {
    var files: map<Path, seq<ChunkId>>
    var chunks: map<ChunkId, ChunkInfo>
    var online: map<ServerId, bool>
    var nextChunk: ChunkId
    var nextServer: ServerId
    var cursor: nat
    /** When each server was last heard of. */
    var lastSeen: map<ServerId, nat>

    ghost function State(): Metadata
      reads this
    {
      Metadata(files, chunks, online, nextChunk, nextServer, cursor)
    }

    ghost function Watched(): Watch
      reads this
    {
      Watch(State(), lastSeen)
    }

    ghost predicate Valid()
      reads this
    {
      WatchInv(Watched())
    }

    constructor ()
      ensures Valid() && State() == EMPTY
    {
      files, chunks, online, lastSeen := map[], map[], map[], map[];
      nextChunk, nextServer, cursor := 0, 0, 0;
      new;
      EmptyInv();
    }

    /**
     Place a new file's chunks round-robin over the online servers, two distinct ones per chunk,
     advancing the cursor once per replica.
     */
    method Allocate(path: Path, len: nat, chunkSize: nat) returns (r: Result<Listing, MasterError>)
      requires Valid()
      modifies this`files, this`chunks, this`nextChunk, this`cursor
      ensures Valid() && State() == M.Allocate(old(State()), path, len, chunkSize)
      ensures r == match AllocateError(old(State()), path, chunkSize)
                   case Some(e) => Failure(e)
                   case None => Success(NewListing(old(nextChunk), NewPlan(old(State()), len, chunkSize)))
    {
      ghost var s := State();
      AllocateKeepsInv(s, path, len, chunkSize);
      if chunkSize == 0 {
        return Failure(InvalidChunkSize);
      }
      if path in files {
        return Failure(AlreadyExists);
      }
      var ids := OnlineBelow(online, nextServer);
      if |ids| < REPLICATION_FACTOR {
        return Failure(NotEnoughServers);
      }
      var count := if len == 0 then 0 else ChunkCount(len, chunkSize);
      var chunkIds, listing := PlaceChunks(ids, count);
      files := files[path := chunkIds];
      assert State() == Allocated(s, path, NewPlan(s, len, chunkSize));
      return Success(listing);
    }

    /** The loop over the new file's chunks. */
    method PlaceChunks(ids: seq<ServerId>, count: nat) returns (chunkIds: seq<ChunkId>, listing: Listing)
      requires |ids| > 0 && cursor < WRAP
      modifies this`chunks, this`nextChunk, this`cursor
      ensures var plan := Plan(ids, old(cursor), count);
        && chunks == Placed(old(State()), plan) && chunkIds == Ids(old(nextChunk), count)
        && nextChunk == old(nextChunk) + count && cursor == CursorAfter(old(cursor), count)
        && listing == NewListing(old(nextChunk), plan)
    {
      ghost var s := State();
      chunkIds, listing := [], [];
      NonePlaced(s, ids);
      for k := 0 to count
        invariant cursor < WRAP && PlacedUpTo(s, ids, k, State(), chunkIds, listing)
      {
        ghost var before := State();
        var chunkId, replicas := PlaceChunk(ids);
        PlacedOneMore(s, ids, k, before, State(), chunkIds, listing);
        chunkIds := chunkIds + [chunkId];
        listing := listing + [(chunkId, PairOf(replicas))];
      }
    }

    /** One new chunk: the next id, on the next servers. */
    method PlaceChunk(ids: seq<ServerId>) returns (chunkId: ChunkId, replicas: seq<ServerId>)
      requires |ids| > 0 && cursor < WRAP
      modifies this`chunks, this`nextChunk, this`cursor
      ensures chunkId == old(nextChunk) && nextChunk == chunkId + 1
      ensures replicas == Placement(ids, old(cursor)) && cursor == (old(cursor) + REPLICATION_FACTOR) % WRAP
      ensures chunks == old(chunks)[chunkId := ChunkInfo(replicas, false)]
    {
      chunkId := nextChunk;
      nextChunk := nextChunk + 1;
      replicas := PickReplicas(ids);
      chunks := chunks[chunkId := ChunkInfo(replicas, false)];
    }

    /** The loop over one chunk's replicas. */
    method PickReplicas(ids: seq<ServerId>) returns (replicas: seq<ServerId>)
      requires |ids| > 0 && cursor < WRAP
      modifies this`cursor
      ensures replicas == Placement(ids, old(cursor)) && cursor == (old(cursor) + REPLICATION_FACTOR) % WRAP
    {
      replicas := [];
      ModAdd(cursor, 0);
      for j := 0 to REPLICATION_FACTOR
        invariant cursor == (old(cursor) + j) % WRAP && replicas == Picks(ids, old(cursor), j)
      {
        replicas := replicas + [ids[cursor % |ids|]];
        NextCursor(old(cursor), j);
        cursor := (cursor + 1) % WRAP;
      }
    }

    /** The file's chunks with their online replicas; an offline primary is replaced by its secondary. */
    method Lookup(path: Path) returns (r: Result<Listing, MasterError>)
      requires Valid()
      ensures r == M.Lookup(State(), path)
    {
      if path !in files {
        return Failure(NotFound);
      }
      var chunkIds := files[path];
      var listing: Listing := [];
      for i := 0 to |chunkIds|
        invariant |listing| == i
        invariant forall j :: 0 <= j < i ==>
          ChunkReadable(State(), chunkIds[j]) && listing[j] == ListChunk(State(), chunkIds[j])
      {
        FileChunk(State(), path, i);
        var c := chunkIds[i];
        var live := OnlineReplicas(chunks[c].replicas);
        if live == [] {
          assert !ChunkReadable(State(), c);
          return Failure(NoLiveReplicas);
        }
        listing := listing + [(c, ReplicaSet(live[0], if |live| > 1 then Some(live[1]) else None))];
      }
      assert forall i :: 0 <= i < |files[path]| ==> ChunkReadable(State(), files[path][i]);
      assert listing == M.Lookup(State(), path).value;
      return Success(listing);
    }

    method OnlineReplicas(replicas: seq<ServerId>) returns (live: seq<ServerId>)
      ensures live == Live(State(), replicas)
    {
      live := [];
      for i := 0 to |replicas|
        invariant live == Live(State(), replicas[..i])
      {
        assert replicas[..i + 1][..i] == replicas[..i];
        if replicas[i] in online && online[replicas[i]] {
          live := live + [replicas[i]];
        }
      }
      assert replicas[..|replicas|] == replicas;
    }

    /** Forget the file and mark its chunks; their bytes go away lazily. */
    method Delete(path: Path) returns (found: bool)
      requires Valid()
      modifies this`files, this`chunks
      ensures Valid() && State() == M.Delete(old(State()), path) && found == (path in old(files))
    {
      DeleteKeepsInv(State(), path);
      found := path in files;
      if found {
        var chunkIds := files[path];
        files := files - {path};
        for i := 0 to |chunkIds|
          invariant chunks.Keys == old(chunks).Keys && files == old(files) - {path}
          invariant forall c :: c in chunks ==>
            chunks[c] == if c in chunkIds[..i] then old(chunks[c]).(deleted := true) else old(chunks[c])
        {
          var c := chunkIds[i];
          assert chunkIds[..i + 1] == chunkIds[..i] + [c];
          if c in chunks {
            chunks := chunks[c := chunks[c].(deleted := true)];
          }
        }
        assert chunkIds[..|chunkIds|] == chunkIds;
        assert State() == M.Delete(old(State()), path);
      }
    }

    method Register(now: nat) returns (id: ServerId)
      requires Valid()
      modifies this
      ensures Valid() && Watched() == Next(old(Watched()), Registers(now))
      ensures id !in old(online) && id in online && online[id]
    {
      NextKeepsInv(Watched(), Registers(now));
      id := nextServer;
      nextServer := nextServer + 1;
      online := online[id := true];
      lastSeen := lastSeen[id := now];
    }

    /** One tick of the timeout task: servers not heard of for the time-out go offline. */
    method DetectTimeouts(now: nat)
      requires Valid()
      modifies this`online
      ensures Valid() && Watched() == Next(old(Watched()), Ticks(now))
      ensures online.Keys == old(online).Keys
      ensures forall id :: id in online ==> online[id] == (old(online[id]) && now < lastSeen[id] + 3_000_000_000)
    {
      NextKeepsInv(Watched(), Ticks(now));
      var todo := online.Keys;
      while todo != {}
        invariant todo <= online.Keys == old(online).Keys == lastSeen.Keys
        invariant forall id :: id in online ==>
          online[id] == (old(online[id]) && (id in todo || now < lastSeen[id] + TIMEOUT))
        decreases todo
      {
        var id :| id in todo;
        todo := todo - {id};
        if online[id] && now >= lastSeen[id] + TIMEOUT {
          online := online[id := false];
        }
      }
      assert online == M.Timeout(old(State()), Late(lastSeen, now)).online;
    }

    /**
     Process a chunk report: the server is alive; it is told to drop what is not wanted there; and
     deleted chunks it no longer reports lose it as a replica, and are forgotten with their last one.
     */
    method Heartbeat(server: ServerId, held: seq<ChunkId>, now: nat) returns (drops: seq<ChunkId>)
      requires Valid()
      modifies this
      ensures Valid() && Watched() == Next(old(Watched()), Beats(server, held, now))
      ensures drops == Unwanted(old(State()), server, held)
    {
      ghost var s := State();
      NextKeepsInv(Watched(), Beats(server, held, now));
      if server in online {
        lastSeen := lastSeen[server := now];
        online := online[server := true];
      }
      drops := UnwantedChunks(server, held);
      UnwantedIgnoresServers(s, State(), server, held);
      Reconcile(server, held);
      assert State() == M.Heartbeat(s, server, held);
    }

    method UnwantedChunks(server: ServerId, held: seq<ChunkId>) returns (drops: seq<ChunkId>)
      ensures drops == Unwanted(State(), server, held)
    {
      drops := [];
      for i := 0 to |held|
        invariant drops == Unwanted(State(), server, held[..i])
      {
        assert held[..i + 1][..i] == held[..i];
        var c := held[i];
        var wanted := c in chunks && !chunks[c].deleted && server in chunks[c].replicas;
        if !wanted {
          drops := drops + [c];
        }
      }
      assert held[..|held|] == held;
    }

    method Reconcile(server: ServerId, held: seq<ChunkId>)
      modifies this`chunks
      ensures chunks == M.Heartbeat(old(State()), server, held).chunks
    {
      var forget: set<ChunkId> := {};
      var todo := chunks.Keys;
      while todo != {}
        invariant todo <= chunks.Keys == old(chunks).Keys
        invariant forall c :: c in chunks ==>
          chunks[c] == if c in todo then old(chunks[c]) else AfterReport(old(chunks[c]), server, c in held)
        invariant forall c :: c in forget <==>
          && c in chunks && c !in todo && DroppedBy(old(chunks[c]), server, c in held)
          && Without(old(chunks[c]).replicas, server) == []
        decreases todo
      {
        var c :| c in todo;
        todo := todo - {c};
        var info := chunks[c];
        if info.deleted && c !in held && server in info.replicas {
          var rest := Without(info.replicas, server);
          chunks := chunks[c := info.(replicas := rest)];
          if rest == [] {
            forget := forget + {c};
          }
        }
      }
      chunks := chunks - forget;
    }
  }

  lemma {:induction false} UnwantedIgnoresServers(s: Metadata, s': Metadata, server: ServerId, held: seq<ChunkId>)
    requires s.chunks == s'.chunks
    ensures Unwanted(s, server, held) == Unwanted(s', server, held)
  {
    if held != [] {
      UnwantedIgnoresServers(s, s', server, held[..|held| - 1]);
    }
  }

  function PairOf(replicas: seq<ServerId>): ReplicaSet
    requires |replicas| == REPLICATION_FACTOR
  {
    ReplicaSet(replicas[0], Some(replicas[1]))
  }

  /** What the client is told about its new file's chunks. */
  function NewListing(first: ChunkId, plan: seq<seq<ServerId>>): Listing
    requires forall i :: 0 <= i < |plan| ==> |plan[i]| == REPLICATION_FACTOR
  {
    seq(|plan|, i requires 0 <= i < |plan| => (first + i, PairOf(plan[i])))
  }

  function NewPlan(s: Metadata, len: nat, chunkSize: nat): seq<seq<ServerId>>
    requires chunkSize > 0 && |OnlineIds(s)| > 0
  {
    Plan(OnlineIds(s), s.cursor, ChunkCount(len, chunkSize))
  }

  /** The client is told the file's new chunks in order, with the replicas on record, distinct and online. */
  lemma NewListingMeaning(s: Metadata, path: Path, len: nat, chunkSize: nat, i: nat)
    requires Inv(s) && AllocateError(s, path, chunkSize).None? && i < ChunkCount(len, chunkSize)
    ensures var s' := Allocate(s, path, len, chunkSize);
      var (c, pair) := NewListing(s.nextChunk, NewPlan(s, len, chunkSize))[i];
      && c == s'.files[path][i] && c !in s.chunks && c in s'.chunks
      && pair.secondary.Some? && s'.chunks[c] == ChunkInfo([pair.primary, pair.secondary.value], false)
      && GoodPair(s, [pair.primary, pair.secondary.value])
  {
    var n := ChunkCount(len, chunkSize);
    PlanGood(s, n, i);
    var replicas := Plan(OnlineIds(s), s.cursor, n)[i];
    assert replicas[0] in replicas && replicas[1] in replicas && replicas == [replicas[0], replicas[1]];
  }

  lemma NextCursor(start: nat, j: nat)
    ensures ((start + j) % WRAP + 1) % WRAP == (start + (j + 1)) % WRAP
  {
    ModAdd(start + j, 1);
  }

  lemma ModAdd(x: nat, y: nat)
    ensures (x % WRAP + y) % WRAP == (x + y) % WRAP
  {
    var q, r := x / WRAP, x % WRAP;
    var q', r' := (r + y) / WRAP, (r + y) % WRAP;
    assert x + y == (q + q') * WRAP + r';
    RemainderUnique(x + y, WRAP, q + q', r');
  }

  lemma PlacedNext(s: Metadata, plan: seq<seq<ServerId>>, replicas: seq<ServerId>)
    ensures Placed(s, plan + [replicas]) == Placed(s, plan)[s.nextChunk + |plan| := ChunkInfo(replicas, false)]
  {}

  lemma NewListingNext(first: ChunkId, plan: seq<seq<ServerId>>, replicas: seq<ServerId>)
    requires |replicas| == REPLICATION_FACTOR && forall i :: 0 <= i < |plan| ==> |plan[i]| == REPLICATION_FACTOR
    ensures NewListing(first, plan + [replicas]) == NewListing(first, plan) + [(first + |plan|, PairOf(replicas))]
    ensures Ids(first, |plan| + 1) == Ids(first, |plan|) + [first + |plan|]
  {}

  /** The first `n` chunks are placed, and nothing else changed. */
  ghost predicate PlacedUpTo(s: Metadata, ids: seq<ServerId>, n: nat, now: Metadata,
                             chunkIds: seq<ChunkId>, listing: Listing)
    requires |ids| > 0
  {
    var plan := Plan(ids, s.cursor, n);
    && now.nextChunk == s.nextChunk + n && now.cursor == CursorAfter(s.cursor, n)
    && now.chunks == Placed(s, plan) && chunkIds == Ids(s.nextChunk, n) && listing == NewListing(s.nextChunk, plan)
  }

  lemma NonePlaced(s: Metadata, ids: seq<ServerId>)
    requires |ids| > 0
    ensures PlacedUpTo(s, ids, 0, s, [], [])
  {
    assert Placed(s, []) == s.chunks;
  }

  lemma PlacedOneMore(s: Metadata, ids: seq<ServerId>, n: nat, now: Metadata, later: Metadata,
                      chunkIds: seq<ChunkId>, listing: Listing)
    requires |ids| > 0 && PlacedUpTo(s, ids, n, now, chunkIds, listing)
    requires later.nextChunk == now.nextChunk + 1 && later.cursor == (now.cursor + REPLICATION_FACTOR) % WRAP
    requires later.chunks == now.chunks[now.nextChunk := ChunkInfo(Placement(ids, now.cursor), false)]
    ensures PlacedUpTo(s, ids, n + 1, later, chunkIds + [now.nextChunk],
                       listing + [(now.nextChunk, PairOf(Placement(ids, now.cursor)))])
  {
    var plan := Plan(ids, s.cursor, n);
    PlacedNext(s, plan, Placement(ids, now.cursor));
    NewListingNext(s.nextChunk, plan, Placement(ids, now.cursor));
  }
}
