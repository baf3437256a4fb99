/** Round-robin placement spreads replicas evenly. */
module GfsPlacement {
  import opened Arithmetic
  import opened GfsMetadata

  /** How many of the `n` numbers from `c` on leave remainder `j`. */
  function Hits(c: nat, n: nat, m: nat, j: nat): nat
    requires m > 0
  {
    if n == 0 then 0 else Hits(c, n - 1, m, j) + if (c + n - 1) % m == j then 1 else 0
  }

  lemma {:induction false} HitsSplit(c: nat, n: nat, k: nat, m: nat, j: nat)
    requires m > 0
    ensures Hits(c, n + k, m, j) == Hits(c, n, m, j) + Hits(c + n, k, m, j)
  {
    if k > 0 {
      HitsSplit(c, n, k - 1, m, j);
      assert c + (n + k) - 1 == (c + n) + k - 1;
    }
  }

  /** Fewer than a lap from zero: each remainder below `n` is hit once. */
  lemma {:induction false} HitsFromZero(n: nat, m: nat, j: nat)
    requires m > 0 && n <= m && j < m
    ensures Hits(0, n, m, j) == if j < n then 1 else 0
  {
    if n > 0 {
      HitsFromZero(n - 1, m, j);
      RemainderUnique(n - 1, m, 0, n - 1);
    }
  }

  /** A full lap hits every remainder once. */
  lemma {:induction false} FullLap(c: nat, m: nat, j: nat)
    requires m > 0 && j < m
    ensures Hits(c, m, m, j) == 1
  {
    if c == 0 {
      HitsFromZero(m, m, j);
    } else {
      FullLap(c - 1, m, j);
      HitsSplit(c - 1, 1, m - 1, m, j);
      HitsSplit(c, m - 1, 1, m, j);
      assert Hits(c - 1, 1, m, j) == if (c - 1) % m == j then 1 else 0 by { assert Hits(c - 1, 0, m, j) == 0; }
      assert Hits(c + (m - 1), 1, m, j) == if (c - 1 + m) % m == j then 1 else 0 by {
        assert Hits(c + (m - 1), 0, m, j) == 0;
      }
      SameSlot(c - 1, m);
    }
  }

  lemma {:induction false} HitsMonotone(c: nat, n: nat, k: nat, m: nat, j: nat)
    requires m > 0 && n <= k
    ensures Hits(c, n, m, j) <= Hits(c, k, m, j)
  {
    HitsSplit(c, n, k - n, m, j);
  }

  /** Any stretch of numbers hits any two remainders equally often, or one of them once more. */
  lemma {:induction false} Even(c: nat, n: nat, m: nat, j: nat, k: nat)
    requires m > 0 && j < m && k < m
    ensures Hits(c, n, m, j) <= Hits(c, n, m, k) + 1
    decreases n
  {
    if n >= m {
      Even(c + m, n - m, m, j, k);
      HitsSplit(c, m, n - m, m, j);
      HitsSplit(c, m, n - m, m, k);
      FullLap(c, m, j);
      FullLap(c, m, k);
    } else {
      FullLap(c, m, j);
      HitsMonotone(c, n, m, m, j);
    }
  }

  /** Replicas of the `n` chunks placed from `cursor` on that land on server `id`. */
  function Load(ids: seq<ServerId>, cursor: nat, n: nat, id: ServerId): nat
    requires |ids| > 0
  {
    if n == 0 then 0
    else
      var replicas := Placement(ids, CursorAfter(cursor, n - 1));
      Load(ids, cursor, n - 1, id) + (if replicas[0] == id then 1 else 0) + (if replicas[1] == id then 1 else 0)
  }

  lemma {:induction false} CursorWithoutWrap(cursor: nat, n: nat)
    requires cursor + 2 * n < WRAP
    ensures CursorAfter(cursor, n) == cursor + 2 * n
  {
    if n > 0 {
      CursorWithoutWrap(cursor, n - 1);
    }
  }

  lemma HitsTwo(c: nat, n: nat, m: nat, j: nat)
    requires m > 0
    ensures Hits(c, n + 2, m, j)
         == Hits(c, n, m, j) + (if (c + n) % m == j then 1 else 0) + (if (c + n + 1) % m == j then 1 else 0)
  {
    assert Hits(c, n + 1, m, j) == Hits(c, n, m, j) + if (c + n) % m == j then 1 else 0;
  }

  lemma SameServer(ids: seq<ServerId>, a: nat, b: nat)
    requires a < |ids| && b < |ids| && forall i, k :: 0 <= i < k < |ids| ==> ids[i] < ids[k]
    ensures ids[a] == ids[b] <==> a == b
  {}

  /** The two replicas placed at `x`, as indices into the list of servers. */
  lemma LoadOfOne(ids: seq<ServerId>, x: nat, j: nat)
    requires j < |ids| && x + 2 <= WRAP
    requires forall i, k :: 0 <= i < k < |ids| ==> ids[i] < ids[k]
    ensures Placement(ids, x)[0] == ids[j] <==> x % |ids| == j
    ensures Placement(ids, x)[1] == ids[j] <==> (x + 1) % |ids| == j
  {
    PlacementIs(ids, x);
    RemainderUnique(x, WRAP, 0, x);
    RemainderUnique(x + 1, WRAP, 0, x + 1);
    SameServer(ids, x % |ids|, j);
    SameServer(ids, (x + 1) % |ids|, j);
  }

  lemma {:induction false} LoadIsHits(ids: seq<ServerId>, cursor: nat, n: nat, j: nat)
    requires j < |ids| && cursor + 2 * n <= WRAP
    requires forall i, k :: 0 <= i < k < |ids| ==> ids[i] < ids[k]
    ensures Load(ids, cursor, n, ids[j]) == Hits(cursor, 2 * n, |ids|, j)
  {
    if n > 0 {
      LoadIsHits(ids, cursor, n - 1, j);
      CursorWithoutWrap(cursor, n - 1);
      LoadOfOne(ids, cursor + 2 * (n - 1), j);
      HitsTwo(cursor, 2 * (n - 1), |ids|, j);
    }
  }

  /**
   While the online servers stay the same and the cursor does not wrap, any number of chunks put
   at most one replica more on one server than on another.
   */
  lemma Balanced(ids: seq<ServerId>, cursor: nat, n: nat, a: ServerId, b: ServerId)
    requires a in ids && b in ids && cursor + 2 * n <= WRAP
    requires forall i, k :: 0 <= i < k < |ids| ==> ids[i] < ids[k]
    ensures Load(ids, cursor, n, a) <= Load(ids, cursor, n, b) + 1
  {
    var i :| 0 <= i < |ids| && ids[i] == a;
    var k :| 0 <= k < |ids| && ids[k] == b;
    LoadIsHits(ids, cursor, n, i);
    LoadIsHits(ids, cursor, n, k);
    Even(cursor, 2 * n, |ids|, i, k);
  }

  /** Consecutive allocations are one long placement. */
  lemma {:induction false} LoadAppend(ids: seq<ServerId>, cursor: nat, n: nat, k: nat, id: ServerId)
    requires |ids| > 0
    ensures Load(ids, cursor, n + k, id) == Load(ids, cursor, n, id) + Load(ids, CursorAfter(cursor, n), k, id)
  {
    if k > 0 {
      LoadAppend(ids, cursor, n, k - 1, id);
      CursorAppend(cursor, n, k - 1);
    }
  }

  lemma {:induction false} CursorAppend(cursor: nat, n: nat, k: nat)
    ensures CursorAfter(cursor, n + k) == CursorAfter(CursorAfter(cursor, n), k)
  {
    if k > 0 {
      CursorAppend(cursor, n, k - 1);
    }
  }

  // ---------------------------------------------------------------------------
  // The master's table
  // ---------------------------------------------------------------------------

  /** What a client asks the master to allocate. */
  datatype Request = Request(path: Path, len: nat, chunkSize: nat)

  /** The metadata after a series of allocations; one that is refused changes nothing. */
  function AllocateAll(s: Metadata, requests: seq<Request>): Metadata {
    if requests == [] then s
    else
      var k := |requests| - 1;
      Allocate(AllocateAll(s, requests[..k]), requests[k].path, requests[k].len, requests[k].chunkSize)
  }

  /** How many of the `n` chunks from id `first` on have this server among their replicas. */
  function TableLoad(s: Metadata, first: ChunkId, n: nat, id: ServerId): nat {
    if n == 0 then 0
    else
      var c := first + n - 1;
      TableLoad(s, first, n - 1, id) + if c in s.chunks && id in s.chunks[c].replicas then 1 else 0
  }

  /** The chunks with ids from `first` on are where the cursor, starting from `cursor`, puts them. */
  ghost predicate PlacedFrom(s: Metadata, ids: seq<ServerId>, first: ChunkId, cursor: nat)
    requires |ids| > 0
  {
    && first <= s.nextChunk && s.cursor == CursorAfter(cursor, s.nextChunk - first)
    && forall k: nat :: k < s.nextChunk - first ==> PlacedAs(s, ids, first, cursor, k)
  }

  ghost predicate PlacedAs(s: Metadata, ids: seq<ServerId>, first: ChunkId, cursor: nat, k: nat)
    requires |ids| > 0
  {
    first + k in s.chunks && s.chunks[first + k].replicas == Placement(ids, CursorAfter(cursor, k))
  }

  lemma {:induction false} PlanIs(ids: seq<ServerId>, cursor: nat, n: nat, k: nat)
    requires |ids| > 0 && k < n
    ensures Plan(ids, cursor, n)[k] == Placement(ids, CursorAfter(cursor, k))
  {
    if k < n - 1 {
      PlanIs(ids, cursor, n - 1, k);
    }
  }

  /** One allocation goes on where the ones before it stopped. */
  lemma AllocatedPlaced(s: Metadata, path: Path, n: nat, ids: seq<ServerId>, first: ChunkId, cursor: nat)
    requires |ids| > 0 && PlacedFrom(s, ids, first, cursor)
    ensures PlacedFrom(Allocated(s, path, Plan(ids, s.cursor, n)), ids, first, cursor)
  {
    var plan, m := Plan(ids, s.cursor, n), s.nextChunk - first;
    var s' := Allocated(s, path, plan);
    CursorAppend(cursor, m, n);
    forall k: nat | k < m + n
      ensures PlacedAs(s', ids, first, cursor, k)
    {
      if k < m {
        assert PlacedAs(s, ids, first, cursor, k);
        OldChunkKept(s, path, plan, first + k);
      } else {
        NewChunkPlaced(s, path, n, ids, k - m);
        CursorAppend(cursor, m, k - m);
      }
    }
  }

  lemma OldChunkKept(s: Metadata, path: Path, plan: seq<seq<ServerId>>, c: ChunkId)
    requires c < s.nextChunk && c in s.chunks
    ensures c in Allocated(s, path, plan).chunks && Allocated(s, path, plan).chunks[c] == s.chunks[c]
  {}

  lemma NewChunkPlaced(s: Metadata, path: Path, n: nat, ids: seq<ServerId>, k: nat)
    requires |ids| > 0 && k < n
    ensures var s' := Allocated(s, path, Plan(ids, s.cursor, n));
      s.nextChunk + k in s'.chunks && s'.chunks[s.nextChunk + k].replicas == Placement(ids, CursorAfter(s.cursor, k))
  {
    PlanIs(ids, s.cursor, n, k);
  }

  lemma {:induction false} AllPlaced(s: Metadata, requests: seq<Request>)
    requires |OnlineIds(s)| > 0
    ensures var s' := AllocateAll(s, requests);
      && s'.online == s.online && s'.nextServer == s.nextServer
      && PlacedFrom(s', OnlineIds(s), s.nextChunk, s.cursor)
  {
    if requests != [] {
      var k := |requests| - 1;
      var r, before := requests[k], AllocateAll(s, requests[..k]);
      AllPlaced(s, requests[..k]);
      if AllocateError(before, r.path, r.chunkSize).None? {
        AllocatedPlaced(before, r.path, ChunkCount(r.len, r.chunkSize), OnlineIds(s), s.nextChunk, s.cursor);
      }
    }
  }

  lemma {:induction false} TableIsLoad(s: Metadata, ids: seq<ServerId>, first: ChunkId, cursor: nat,
                                       n: nat, id: ServerId)
    requires |ids| >= 2 && (forall i, k :: 0 <= i < k < |ids| ==> ids[i] < ids[k])
    requires cursor < WRAP && cursor % 2 == 0
    requires PlacedFrom(s, ids, first, cursor) && n <= s.nextChunk - first
    ensures TableLoad(s, first, n, id) == Load(ids, cursor, n, id)
  {
    if n > 0 {
      TableIsLoad(s, ids, first, cursor, n - 1, id);
      assert PlacedAs(s, ids, first, cursor, n - 1);
      CursorEven(cursor, n - 1);
      PlacementDistinct(ids, CursorAfter(cursor, n - 1));
    }
  }

  /**
   Any series of allocations, while the online servers stay the same and the cursor does not wrap, puts
   replicas of its chunks on any two online servers equally often, or once more on one of them.
   */
  lemma TableBalanced(s: Metadata, requests: seq<Request>, a: ServerId, b: ServerId)
    requires Inv(s) && a in OnlineIds(s) && b in OnlineIds(s)
    requires s.cursor + 2 * (AllocateAll(s, requests).nextChunk - s.nextChunk) <= WRAP
    ensures var s' := AllocateAll(s, requests);
      && s.nextChunk <= s'.nextChunk
      && var n := s'.nextChunk - s.nextChunk;
         TableLoad(s', s.nextChunk, n, a) <= TableLoad(s', s.nextChunk, n, b) + 1
  {
    var s', ids := AllocateAll(s, requests), OnlineIds(s);
    AllPlaced(s, requests);
    if |ids| >= 2 {
      var n := s'.nextChunk - s.nextChunk;
      TableIsLoad(s', ids, s.nextChunk, s.cursor, n, a);
      TableIsLoad(s', ids, s.nextChunk, s.cursor, n, b);
      Balanced(ids, s.cursor, n, a, b);
    } else {
      assert a == b;
    }
  }
}
