/** The master's metadata, the operations on it, and the invariant they keep. */
module GfsMetadata {
  import opened Arithmetic
  import opened Sequences
  import opened Wrappers

  type ChunkId = nat
  type ServerId = nat
  type Path = string

  const REPLICATION_FACTOR := 2

  /** The placement cursor is a 64-bit counter that wraps around. */
  const WRAP: nat := 0x1_0000_0000_0000_0000

  datatype ChunkInfo = ChunkInfo(replicas: seq<ServerId>, deleted: bool)

  /** A server's address stands for the server itself. */
  datatype ReplicaSet = ReplicaSet(primary: ServerId, secondary: Option<ServerId>)

  datatype MasterError = NotFound | AlreadyExists | NotEnoughServers | NoLiveReplicas | InvalidChunkSize

  type Listing = seq<(ChunkId, ReplicaSet)>

  datatype Metadata = Metadata(
    files: map<Path, seq<ChunkId>>,
    chunks: map<ChunkId, ChunkInfo>,
    online: map<ServerId, bool>,
    nextChunk: ChunkId,
    nextServer: ServerId,
    cursor: nat)

  const EMPTY := Metadata(map[], map[], map[], 0, 0, 0)

  // ---------------------------------------------------------------------------
  // Placement
  // ---------------------------------------------------------------------------

  /** The online servers below `bound`, in ascending order. */
  function OnlineBelow(online: map<ServerId, bool>, bound: nat): (ids: seq<ServerId>)
    ensures forall id :: id in ids <==> id < bound && id in online && online[id]
    ensures forall i, j :: 0 <= i < j < |ids| ==> ids[i] < ids[j]
  {
    if bound == 0 then []
    else
      var below := OnlineBelow(online, bound - 1);
      assert forall i :: 0 <= i < |below| ==> below[i] in below;
      below + if bound - 1 in online && online[bound - 1] then [bound - 1] else []
  }

  function OnlineIds(s: Metadata): seq<ServerId> {
    OnlineBelow(s.online, s.nextServer)
  }

  /** The next `k` servers when the cursor stands at `cursor`. */
  function Picks(ids: seq<ServerId>, cursor: nat, k: nat): (r: seq<ServerId>)
    requires |ids| > 0
    ensures |r| == k
    decreases |ids|, k
  {
    if k == 0 then [] else Picks(ids, cursor, k - 1) + [ids[(cursor + (k - 1)) % WRAP % |ids|]]
  }

  /** The replicas of a chunk placed when the cursor stands at `cursor`. */
  function Placement(ids: seq<ServerId>, cursor: nat): (r: seq<ServerId>)
    requires |ids| > 0
    ensures |r| == REPLICATION_FACTOR
  {
    Picks(ids, cursor, REPLICATION_FACTOR)
  }

  lemma PlacementIs(ids: seq<ServerId>, cursor: nat)
    requires |ids| > 0
    ensures Placement(ids, cursor) == [ids[cursor % WRAP % |ids|], ids[(cursor + 1) % WRAP % |ids|]]
  {
    assert Picks(ids, cursor, 0) == [];
    assert Picks(ids, cursor, 1) == [ids[(cursor + 0) % WRAP % |ids|]];
  }

  /** Where the cursor stands after placing `n` chunks: it advances once per replica. */
  function CursorAfter(cursor: nat, n: nat): nat {
    if n == 0 then cursor else (CursorAfter(cursor, n - 1) + REPLICATION_FACTOR) % WRAP
  }

  /** How many chunks of the given size a file of `len` bytes takes. */
  function ChunkCount(len: nat, chunkSize: nat): nat
    requires chunkSize > 0
  {
    len / chunkSize + if len % chunkSize > 0 then 1 else 0
  }

  // ---------------------------------------------------------------------------
  // Operations
  // ---------------------------------------------------------------------------

  function Ids(first: ChunkId, n: nat): (r: seq<ChunkId>)
    ensures |r| == n && forall i :: 0 <= i < n ==> r[i] == first + i
  {
    seq(n, i => first + i)
  }

  function NewIds(first: ChunkId, n: nat): (r: set<ChunkId>)
    ensures forall c :: c in r <==> first <= c < first + n
  {
    if n == 0 then {} else NewIds(first, n - 1) + {first + n - 1}
  }

  /** The replicas of the next `n` chunks. */
  function Plan(ids: seq<ServerId>, cursor: nat, n: nat): (r: seq<seq<ServerId>>)
    requires |ids| > 0
    ensures |r| == n && forall i :: 0 <= i < n ==> |r[i]| == REPLICATION_FACTOR
  {
    if n == 0 then [] else Plan(ids, cursor, n - 1) + [Placement(ids, CursorAfter(cursor, n - 1))]
  }

  /** The chunk table after chunks with the given replicas were added. */
  function Placed(s: Metadata, plan: seq<seq<ServerId>>): map<ChunkId, ChunkInfo> {
    map c: ChunkId | c in s.chunks.Keys + NewIds(s.nextChunk, |plan|) ::
      if s.nextChunk <= c < s.nextChunk + |plan| then ChunkInfo(plan[c - s.nextChunk], false) else s.chunks[c]
  }

  /** The metadata after a new file of the planned chunks was added. */
  function Allocated(s: Metadata, path: Path, plan: seq<seq<ServerId>>): Metadata {
    s.(files := s.files[path := Ids(s.nextChunk, |plan|)],
       chunks := Placed(s, plan),
       nextChunk := s.nextChunk + |plan|,
       cursor := CursorAfter(s.cursor, |plan|))
  }

  function AllocateError(s: Metadata, path: Path, chunkSize: nat): Option<MasterError> {
    if chunkSize == 0 then Some(InvalidChunkSize)
    else if path in s.files then Some(AlreadyExists)
    else if |OnlineIds(s)| < REPLICATION_FACTOR then Some(NotEnoughServers)
    else None
  }

  function Allocate(s: Metadata, path: Path, len: nat, chunkSize: nat): Metadata {
    if AllocateError(s, path, chunkSize).Some? then s
    else Allocated(s, path, Plan(OnlineIds(s), s.cursor, ChunkCount(len, chunkSize)))
  }

  /** The replicas that are online, in write order. */
  function Live(s: Metadata, replicas: seq<ServerId>): seq<ServerId> {
    if replicas == [] then []
    else
      var id := replicas[|replicas| - 1];
      Live(s, replicas[..|replicas| - 1]) + if id in s.online && s.online[id] then [id] else []
  }

  predicate ChunkReadable(s: Metadata, c: ChunkId) {
    c in s.chunks && Live(s, s.chunks[c].replicas) != []
  }

  function ListChunk(s: Metadata, c: ChunkId): (ChunkId, ReplicaSet)
    requires ChunkReadable(s, c)
  {
    var live := Live(s, s.chunks[c].replicas);
    (c, ReplicaSet(live[0], if |live| > 1 then Some(live[1]) else None))
  }

  function Lookup(s: Metadata, path: Path): Result<Listing, MasterError> {
    if path !in s.files then Failure(NotFound)
    else if forall i :: 0 <= i < |s.files[path]| ==> ChunkReadable(s, s.files[path][i]) then
      Success(seq(|s.files[path]|, i requires 0 <= i < |s.files[path]| => ListChunk(s, s.files[path][i])))
    else Failure(NoLiveReplicas)
  }

  function Delete(s: Metadata, path: Path): Metadata {
    if path !in s.files then s
    else
      s.(files := s.files - {path},
         chunks := map c | c in s.chunks ::
           if c in s.files[path] then s.chunks[c].(deleted := true) else s.chunks[c])
  }

  function Register(s: Metadata): Metadata {
    s.(online := s.online[s.nextServer := true], nextServer := s.nextServer + 1)
  }

  /** A timeout may take any servers offline. */
  function Timeout(s: Metadata, late: set<ServerId>): Metadata {
    s.(online := map id | id in s.online :: s.online[id] && id !in late)
  }

  /** The master wants this chunk on this server. */
  predicate Wanted(s: Metadata, server: ServerId, c: ChunkId) {
    c in s.chunks && !s.chunks[c].deleted && server in s.chunks[c].replicas
  }

  /** What a heartbeat tells the server to drop: whatever it reports and the master does not want there. */
  function Unwanted(s: Metadata, server: ServerId, held: seq<ChunkId>): (drops: seq<ChunkId>)
    ensures forall c :: c in drops <==> c in held && !Wanted(s, server, c)
  {
    if held == [] then []
    else
      var k := |held| - 1;
      assert held == held[..k] + [held[k]];
      Unwanted(s, server, held[..k]) + if Wanted(s, server, held[k]) then [] else [held[k]]
  }

  /** A deleted chunk the server no longer reports has been dropped there. */
  predicate DroppedBy(info: ChunkInfo, server: ServerId, reported: bool) {
    info.deleted && !reported && server in info.replicas
  }

  function AfterReport(info: ChunkInfo, server: ServerId, reported: bool): ChunkInfo {
    if DroppedBy(info, server, reported) then info.(replicas := Without(info.replicas, server)) else info
  }

  function Heartbeat(s: Metadata, server: ServerId, held: seq<ChunkId>): Metadata {
    s.(online := if server in s.online then s.online[server := true] else s.online,
       chunks := map c | c in s.chunks
         && !(DroppedBy(s.chunks[c], server, c in held) && Without(s.chunks[c].replicas, server) == [])
         :: AfterReport(s.chunks[c], server, c in held))
  }

  // ---------------------------------------------------------------------------
  // Invariant
  // ---------------------------------------------------------------------------

  /** Position `i` of file `p` is chunk `c`. */
  ghost predicate Lists(s: Metadata, p: Path, i: nat, c: ChunkId) {
    p in s.files && i < |s.files[p]| && s.files[p][i] == c
  }

  ghost predicate ReplicasOk(s: Metadata, info: ChunkInfo) {
    && NoDup(info.replicas)
    && (forall id :: id in info.replicas ==> id in s.online)
    && (if info.deleted then info.replicas != [] else |info.replicas| == REPLICATION_FACTOR)
  }

  ghost predicate ListedOk(s: Metadata, p: Path, i: nat, c: ChunkId) {
    Lists(s, p, i, c) ==> c in s.chunks && !s.chunks[c].deleted
  }

  ghost predicate ListedOnce(s: Metadata, c: ChunkId) {
    forall p, i: nat, q, j: nat :: Lists(s, p, i, c) && Lists(s, q, j, c) ==> p == q && i == j
  }

  /**
   The undeleted chunks are exactly those listed by files, each at one position of one file and
   with two distinct registered replicas; deleted chunks keep at least one replica until they
   are forgotten; ids are below the counters; and the cursor is even.
   */
  ghost predicate Inv(s: Metadata) {
    && (forall p, i: nat, c :: ListedOk(s, p, i, c))
    && (forall c :: ListedOnce(s, c))
    && (forall c :: c in s.chunks && !s.chunks[c].deleted ==> exists p, i: nat :: Lists(s, p, i, c))
    && (forall c :: c in s.chunks ==> c < s.nextChunk && ReplicasOk(s, s.chunks[c]))
    && (forall id :: id in s.online ==> id < s.nextServer)
    && s.cursor < WRAP && s.cursor % 2 == 0
  }

  /** The two replicas of a chunk are distinct, also when the cursor is about to wrap. */
  lemma PlacementDistinct(ids: seq<ServerId>, cursor: nat)
    requires |ids| >= 2 && (forall i, j :: 0 <= i < j < |ids| ==> ids[i] < ids[j])
    requires cursor < WRAP && cursor % 2 == 0
    ensures NoDup(Placement(ids, cursor)) && |Placement(ids, cursor)| == 2
    ensures forall id :: id in Placement(ids, cursor) ==> id in ids
  {
    var a, b := cursor % |ids|, (cursor + 1) % |ids|;
    Consecutive(cursor, |ids|);
    RemainderUnique(cursor, WRAP, 0, cursor);
    RemainderUnique(cursor + 1, WRAP, 0, cursor + 1);
    PlacementIs(ids, cursor);
    PairOfDistinct(ids, a, b, Placement(ids, cursor));
  }

  lemma PairOfDistinct(ids: seq<ServerId>, a: nat, b: nat, pair: seq<ServerId>)
    requires a < |ids| && b < |ids| && a != b && pair == [ids[a], ids[b]]
    requires forall i, j :: 0 <= i < j < |ids| ==> ids[i] < ids[j]
    ensures NoDup(pair) && |pair| == 2 && forall id :: id in pair ==> id in ids
  {}

  lemma Consecutive(x: nat, m: nat)
    requires m >= 2
    ensures x % m != (x + 1) % m
    ensures (x + 1) % m == if x % m + 1 == m then 0 else x % m + 1
  {
    var q, r := x / m, x % m;
    assert x == q * m + r;
    if r + 1 < m {
      RemainderUnique(x + 1, m, q, r + 1);
    } else {
      Scale(q, q, m);
      RemainderUnique(x + 1, m, q + 1, 0);
    }
  }

  /** Since the wrap is even too, the cursor is even before every chunk. */
  lemma {:induction false} CursorEven(cursor: nat, n: nat)
    requires cursor < WRAP && cursor % 2 == 0
    ensures CursorAfter(cursor, n) < WRAP && CursorAfter(cursor, n) % 2 == 0
  {
    if n > 0 {
      CursorEven(cursor, n - 1);
    }
  }

  lemma EmptyInv()
    ensures Inv(EMPTY)
  {}

  // ---------------------------------------------------------------------------
  // Every operation keeps the invariant
  // ---------------------------------------------------------------------------

  lemma AllocatedListing(s: Metadata, path: Path, plan: seq<seq<ServerId>>, p: Path, i: nat, c: ChunkId)
    requires Inv(s) && path !in s.files
    ensures Lists(Allocated(s, path, plan), p, i, c)
      <==> Lists(s, p, i, c) || (p == path && i < |plan| && c == s.nextChunk + i)
  {
    assert ListedOk(s, p, i, c);
  }

  lemma AllocatedListings(s: Metadata, path: Path, plan: seq<seq<ServerId>>)
    requires Inv(s) && path !in s.files
    ensures var s' := Allocated(s, path, plan);
      && (forall p, i: nat, c :: ListedOk(s', p, i, c))
      && (forall c :: ListedOnce(s', c))
  {
    var s' := Allocated(s, path, plan);
    forall p, i: nat, c
      ensures ListedOk(s', p, i, c)
    {
      AllocatedListing(s, path, plan, p, i, c);
      assert ListedOk(s, p, i, c);
    }
    forall c
      ensures ListedOnce(s', c)
    {
      assert ListedOnce(s, c);
      forall p, i: nat, q, j: nat | Lists(s', p, i, c) && Lists(s', q, j, c)
        ensures p == q && i == j
      {
        AllocatedListing(s, path, plan, p, i, c);
        AllocatedListing(s, path, plan, q, j, c);
        assert ListedOk(s, p, i, c) && ListedOk(s, q, j, c);
      }
    }
  }

  /** A pair of distinct online servers. */
  ghost predicate GoodPair(s: Metadata, replicas: seq<ServerId>) {
    && |replicas| == REPLICATION_FACTOR && NoDup(replicas)
    && forall id :: id in replicas ==> id in s.online && s.online[id]
  }

  /** Every planned pair is good, however often the cursor wraps. */
  lemma {:induction false} PlanGood(s: Metadata, n: nat, i: nat)
    requires |OnlineIds(s)| >= REPLICATION_FACTOR && s.cursor < WRAP && s.cursor % 2 == 0 && i < n
    ensures GoodPair(s, Plan(OnlineIds(s), s.cursor, n)[i])
  {
    if i < n - 1 {
      PlanGood(s, n - 1, i);
    } else {
      CursorEven(s.cursor, n - 1);
      PlacementDistinct(OnlineIds(s), CursorAfter(s.cursor, n - 1));
    }
  }

  lemma AllocatedChunk(s: Metadata, path: Path, plan: seq<seq<ServerId>>, c: ChunkId)
    requires Inv(s) && path !in s.files && (forall i :: 0 <= i < |plan| ==> GoodPair(s, plan[i]))
    requires c in Allocated(s, path, plan).chunks
    ensures var s' := Allocated(s, path, plan);
      && c < s'.nextChunk && ReplicasOk(s', s'.chunks[c])
      && (!s'.chunks[c].deleted ==> exists p, i: nat :: Lists(s', p, i, c))
  {
    var s' := Allocated(s, path, plan);
    if c >= s.nextChunk {
      assert GoodPair(s, plan[c - s.nextChunk]);
      assert Lists(s', path, c - s.nextChunk, c);
    } else {
      assert ReplicasOk(s, s.chunks[c]);
      if !s.chunks[c].deleted {
        var p, i: nat :| Lists(s, p, i, c);
        assert Lists(s', p, i, c);
      }
    }
  }

  lemma AllocatedKeepsInv(s: Metadata, path: Path, plan: seq<seq<ServerId>>)
    requires Inv(s) && path !in s.files && (forall i :: 0 <= i < |plan| ==> GoodPair(s, plan[i]))
    ensures Inv(Allocated(s, path, plan))
  {
    var s' := Allocated(s, path, plan);
    AllocatedListings(s, path, plan);
    forall c | c in s'.chunks
      ensures c < s'.nextChunk && ReplicasOk(s', s'.chunks[c])
      ensures !s'.chunks[c].deleted ==> exists p, i: nat :: Lists(s', p, i, c)
    {
      AllocatedChunk(s, path, plan, c);
    }
    CursorEven(s.cursor, |plan|);
  }

  lemma AllocateKeepsInv(s: Metadata, path: Path, len: nat, chunkSize: nat)
    requires Inv(s)
    ensures Inv(Allocate(s, path, len, chunkSize))
  {
    if AllocateError(s, path, chunkSize).None? {
      var n := ChunkCount(len, chunkSize);
      forall i | 0 <= i < n
        ensures GoodPair(s, Plan(OnlineIds(s), s.cursor, n)[i])
      {
        PlanGood(s, n, i);
      }
      AllocatedKeepsInv(s, path, Plan(OnlineIds(s), s.cursor, n));
    }
  }

  lemma DeleteListing(s: Metadata, path: Path, p: Path, i: nat, c: ChunkId)
    requires Inv(s) && path in s.files
    ensures Lists(Delete(s, path), p, i, c) <==> Lists(s, p, i, c) && p != path
    ensures ListedOk(Delete(s, path), p, i, c)
  {
    assert ListedOk(s, p, i, c) && ListedOnce(s, c);
    if Lists(s, p, i, c) && c in s.files[path] {
      var j: nat :| j < |s.files[path]| && s.files[path][j] == c;
      assert Lists(s, path, j, c);
    }
  }

  lemma DeleteChunk(s: Metadata, path: Path, c: ChunkId)
    requires Inv(s) && path in s.files && c in s.chunks
    ensures var s' := Delete(s, path);
      && (!s'.chunks[c].deleted ==> exists p, i: nat :: Lists(s', p, i, c))
      && ReplicasOk(s', s'.chunks[c])
  {
    assert ReplicasOk(s, s.chunks[c]);
    if !Delete(s, path).chunks[c].deleted {
      var p, i: nat :| Lists(s, p, i, c);
      DeleteListing(s, path, p, i, c);
    }
  }

  lemma DeleteKeepsInv(s: Metadata, path: Path)
    requires Inv(s)
    ensures Inv(Delete(s, path))
  {
    if path in s.files {
      var s' := Delete(s, path);
      forall p, i: nat, c
        ensures ListedOk(s', p, i, c)
      {
        DeleteListing(s, path, p, i, c);
      }
      forall c
        ensures ListedOnce(s', c)
      {
        assert ListedOnce(s, c);
        forall p, i: nat, q, j: nat | Lists(s', p, i, c) && Lists(s', q, j, c)
          ensures p == q && i == j
        {
          DeleteListing(s, path, p, i, c);
          DeleteListing(s, path, q, j, c);
        }
      }
      forall c | c in s'.chunks
        ensures ReplicasOk(s', s'.chunks[c])
        ensures !s'.chunks[c].deleted ==> exists p, i: nat :: Lists(s', p, i, c)
      {
        DeleteChunk(s, path, c);
      }
    }
  }

  /** The files and the undeleted chunks are the same; the others only lost replicas or went away. */
  ghost predicate OnlyDeletedShrink(s: Metadata, s': Metadata) {
    && s'.files == s.files && s'.nextChunk == s.nextChunk && s'.cursor == s.cursor
    && s'.online.Keys >= s.online.Keys
    && (forall c :: c in s.chunks && !s.chunks[c].deleted ==> c in s'.chunks && s'.chunks[c] == s.chunks[c])
    && (forall c :: c in s'.chunks ==> c in s.chunks && s'.chunks[c].deleted == s.chunks[c].deleted
                                       && ReplicasOk(s', s'.chunks[c]))
  }

  lemma ShrinkKeepsInv(s: Metadata, s': Metadata)
    requires Inv(s) && OnlyDeletedShrink(s, s')
    requires forall id :: id in s'.online ==> id < s'.nextServer
    ensures Inv(s')
  {
    forall p, i: nat, c
      ensures ListedOk(s', p, i, c)
    {
      assert ListedOk(s, p, i, c) && (Lists(s', p, i, c) ==> Lists(s, p, i, c));
    }
    forall c
      ensures ListedOnce(s', c)
    {
      assert ListedOnce(s, c);
      forall p, i: nat, q, j: nat | Lists(s', p, i, c) && Lists(s', q, j, c)
        ensures p == q && i == j
      {
        assert Lists(s, p, i, c) && Lists(s, q, j, c);
      }
    }
    forall c | c in s'.chunks && !s'.chunks[c].deleted
      ensures exists p, i: nat :: Lists(s', p, i, c)
    {
      var p, i: nat :| Lists(s, p, i, c);
      assert Lists(s', p, i, c);
    }
  }

  lemma HeartbeatKeepsInv(s: Metadata, server: ServerId, held: seq<ChunkId>)
    requires Inv(s)
    ensures Inv(Heartbeat(s, server, held))
  {
    var s' := Heartbeat(s, server, held);
    forall c | c in s'.chunks
      ensures ReplicasOk(s', s'.chunks[c])
    {
      assert ReplicasOk(s, s.chunks[c]);
      WithoutMembers(s.chunks[c].replicas, server);
    }
    ShrinkKeepsInv(s, s');
  }

  lemma ServersKeepInv(s: Metadata, late: set<ServerId>)
    requires Inv(s)
    ensures Inv(Register(s)) && Inv(Timeout(s, late))
  {
    assert forall c :: c in s.chunks ==> ReplicasOk(s, s.chunks[c]);
    ShrinkKeepsInv(s, Register(s));
    ShrinkKeepsInv(s, Timeout(s, late));
  }

  // ---------------------------------------------------------------------------
  // Lookup
  // ---------------------------------------------------------------------------

  lemma {:induction false} LiveMembers(s: Metadata, replicas: seq<ServerId>)
    ensures forall id :: id in Live(s, replicas) <==> id in replicas && id in s.online && s.online[id]
    ensures |Live(s, replicas)| <= |replicas|
  {
    if replicas != [] {
      var k := |replicas| - 1;
      LiveMembers(s, replicas[..k]);
      assert replicas == replicas[..k] + [replicas[k]];
    }
  }

  /** An offline replica is dropped and an offline primary replaced by its secondary. */
  lemma LiveOfTwo(s: Metadata, a: ServerId, b: ServerId)
    requires a in s.online && b in s.online
    ensures Live(s, [a, b]) == (if s.online[a] then [a] else []) + (if s.online[b] then [b] else [])
  {
    assert [a, b][..1] == [a] && [a][..0] == [];
    assert Live(s, []) == [] && Live(s, [a]) == if s.online[a] then [a] else [];
  }

  /** The chunk is known and none of its replicas is online. */
  predicate AllOffline(s: Metadata, c: ChunkId) {
    c in s.chunks && forall id :: id in s.chunks[c].replicas ==> id in s.online && !s.online[id]
  }

  /** Online replicas of the chunk: the write order is kept, and a secondary is named only if both are online. */
  predicate Reachable(s: Metadata, c: ChunkId, r: ReplicaSet) {
    && c in s.chunks && r.primary in s.chunks[c].replicas && r.primary in s.online && s.online[r.primary]
    && (r.secondary.Some? ==>
          && s.chunks[c].replicas == [r.primary, r.secondary.value]
          && r.secondary.value in s.online && s.online[r.secondary.value])
    && (r.secondary.None? ==>
          forall id :: id in s.chunks[c].replicas && id != r.primary ==> id in s.online && !s.online[id])
  }

  lemma FileChunk(s: Metadata, path: Path, i: nat)
    requires Inv(s) && path in s.files && i < |s.files[path]|
    ensures var c := s.files[path][i];
      && c in s.chunks && (!ChunkReadable(s, c) <==> AllOffline(s, c))
      && (ChunkReadable(s, c) ==> ListChunk(s, c).0 == c && Reachable(s, c, ListChunk(s, c).1))
  {
    var c := s.files[path][i];
    assert Lists(s, path, i, c) && ListedOk(s, path, i, c);
    assert ReplicasOk(s, s.chunks[c]);
    var replicas := s.chunks[c].replicas;
    assert replicas == [replicas[0], replicas[1]];
    assert replicas[0] in replicas && replicas[1] in replicas;
    LiveOfTwo(s, replicas[0], replicas[1]);
  }

  /**
   A lookup never meets missing metadata: it fails on an existing path exactly if some chunk of
   the file has both replicas offline, and otherwise lists the file's chunks in order, each with
   its online replicas.
   */
  lemma LookupOutcome(s: Metadata, path: Path)
    requires Inv(s)
    ensures Lookup(s, path) == Failure(NotFound) <==> path !in s.files
    ensures Lookup(s, path) == Failure(NoLiveReplicas) <==>
      path in s.files && (exists i :: 0 <= i < |s.files[path]| && AllOffline(s, s.files[path][i]))
    ensures Lookup(s, path).Success? ==>
      && |Lookup(s, path).value| == |s.files[path]|
      && (forall i :: 0 <= i < |s.files[path]| ==>
            && Lookup(s, path).value[i].0 == s.files[path][i]
            && Reachable(s, s.files[path][i], Lookup(s, path).value[i].1))
  {
    if path in s.files {
      forall i | 0 <= i < |s.files[path]|
        ensures var c := s.files[path][i];
          && (!ChunkReadable(s, c) <==> AllOffline(s, c))
          && (ChunkReadable(s, c) ==> ListChunk(s, c).0 == c && Reachable(s, c, ListChunk(s, c).1))
      {
        FileChunk(s, path, i);
      }
    }
  }
}
