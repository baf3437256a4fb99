/**
 The whole file system as a protocol: the master, the chunk servers' stores, the clients' chunk
 writes, and heartbeats as three separate steps (collect a report, process it at the master,
 apply the drops), between which anything may happen. Reports and replies stay in the network
 for ever: they may be processed late, in any order, repeatedly or not at all.
 */
module GfsCluster {
  import opened Binary
  import opened Sequences
  import opened M = GfsMetadata

  type Store = map<ChunkId, Bytes>

  /** How far the one write of a chunk has come along its chain. */
  datatype Progress = Assigned | AtPrimary | AtBoth | Acked

  /**
   An issued chunk id: the replicas it was given, the bytes its client writes, how far the write has
   come, and the replicas from which a report without the chunk was processed after its deletion.
   */
  datatype Job = Job(homes: seq<ServerId>, payload: Bytes, progress: Progress, gone: set<ServerId>)

  datatype Report = Report(server: ServerId, held: seq<ChunkId>)

  datatype Reply = Reply(server: ServerId, drops: seq<ChunkId>)

  /** What a client hands to `put`. */
  datatype Content = Content(data: Bytes, chunkSize: nat)

  datatype Cluster = Cluster(
    master: Metadata,
    stores: map<ServerId, Store>,
    jobs: map<ChunkId, Job>,
    contents: map<Path, Content>,
    reports: set<Report>,
    replies: set<Reply>)

  datatype Action =
    | Join
    | Expire(late: set<ServerId>)
    | Put(path: Path, content: Content)
    | Write(chunk: ChunkId)
    | Remove(path: Path)
    | Collect(report: Report)
    | Process(report: Report)
    | ApplyDrops(reply: Reply)

  const INIT := Cluster(EMPTY, map[], map[], map[], {}, {})

  function Min(a: nat, b: nat): nat {
    if a < b then a else b
  }

  /** Where chunk `i` begins: `i * chunkSize`. */
  function Offset(chunkSize: nat, i: nat): nat {
    if i == 0 then 0 else Offset(chunkSize, i - 1) + chunkSize
  }

  /** The bytes of chunk `i`: `put` cuts the file at multiples of the chunk size. */
  function Slice(content: Content, i: nat): Bytes {
    var start, end := Offset(content.chunkSize, i), |content.data|;
    content.data[Min(start, end)..Min(start + content.chunkSize, end)]
  }

  predicate IsLive(m: Metadata, c: ChunkId) {
    c in m.chunks && !m.chunks[c].deleted
  }

  predicate IsDeleted(m: Metadata, c: ChunkId) {
    c in m.chunks && m.chunks[c].deleted
  }

  predicate Holds(s: Cluster, server: ServerId, c: ChunkId) {
    server in s.stores && c in s.stores[server]
  }

  predicate CanWrite(s: Cluster, c: ChunkId) {
    && c in s.jobs && |s.jobs[c].homes| == 2
    && s.jobs[c].homes[0] in s.stores && s.jobs[c].homes[1] in s.stores
  }

  /** The report names exactly the chunks in the store. */
  predicate Reports(store: Store, held: seq<ChunkId>) {
    (forall c :: c in held ==> c in store) && (forall c :: c in store ==> c in held)
  }

  predicate Enabled(s: Cluster, a: Action) {
    match a
    case Write(c) => CanWrite(s, c)
    case Collect(r) => r.server in s.stores && Reports(s.stores[r.server], r.held)
    case Process(r) => r in s.reports
    case ApplyDrops(r) => r in s.replies && r.server in s.stores
    case _ => true
  }

  function StoreAt(stores: map<ServerId, Store>, server: ServerId, c: ChunkId, bytes: Bytes): map<ServerId, Store>
    requires server in stores
  {
    var store: Store := stores[server];
    stores[server := store[c := bytes]]
  }

  /** The next step of a chunk's write: primary store, forwarded store, acknowledgement. */
  function WriteChunk(s: Cluster, c: ChunkId): Cluster
    requires CanWrite(s, c)
  {
    var job := s.jobs[c];
    match job.progress
    case Assigned =>
      s.(stores := StoreAt(s.stores, job.homes[0], c, job.payload), jobs := s.jobs[c := job.(progress := AtPrimary)])
    case AtPrimary =>
      s.(stores := StoreAt(s.stores, job.homes[1], c, job.payload), jobs := s.jobs[c := job.(progress := AtBoth)])
    case AtBoth => s.(jobs := s.jobs[c := job.(progress := Acked)])
    case Acked => s
  }

  function NewJobs(jobs: map<ChunkId, Job>, first: ChunkId, plan: seq<seq<ServerId>>, content: Content)
    : map<ChunkId, Job>
  {
    map c: ChunkId | c in jobs.Keys + NewIds(first, |plan|) ::
      if first <= c < first + |plan| then Job(plan[c - first], Slice(content, c - first), Assigned, {}) else jobs[c]
  }

  /** A file of the planned chunks is allocated, and its client knows which bytes go to which chunk. */
  function PutPlanned(s: Cluster, path: Path, content: Content, plan: seq<seq<ServerId>>): Cluster {
    s.(master := Allocated(s.master, path, plan),
       jobs := NewJobs(s.jobs, s.master.nextChunk, plan, content),
       contents := s.contents[path := content])
  }

  function PutFile(s: Cluster, path: Path, content: Content): Cluster {
    if AllocateError(s.master, path, content.chunkSize).Some? then s
    else
      PutPlanned(s, path, content,
                 Plan(OnlineIds(s.master), s.master.cursor, ChunkCount(|content.data|, content.chunkSize)))
  }

  /** The master counts this server among those that have dropped the chunk. */
  predicate ConfirmsDrop(m: Metadata, r: Report, c: ChunkId) {
    c in m.chunks && DroppedBy(m.chunks[c], r.server, c in r.held)
  }

  function JobAfter(m: Metadata, r: Report, c: ChunkId, job: Job): Job {
    if ConfirmsDrop(m, r, c) then job.(gone := job.gone + {r.server}) else job
  }

  function ProcessReport(s: Cluster, r: Report): Cluster {
    s.(master := Heartbeat(s.master, r.server, r.held),
       replies := s.replies + {Reply(r.server, Unwanted(s.master, r.server, r.held))},
       jobs := map c | c in s.jobs :: JobAfter(s.master, r, c, s.jobs[c]))
  }

  function Kept(store: Store, drops: seq<ChunkId>): Store {
    map c | c in store && c !in drops :: store[c]
  }

  function Step(s: Cluster, a: Action): Cluster
    requires Enabled(s, a)
  {
    match a
    case Join => s.(master := Register(s.master), stores := s.stores[s.master.nextServer := map[]])
    case Expire(late) => s.(master := Timeout(s.master, late))
    case Put(path, content) => PutFile(s, path, content)
    case Write(c) => WriteChunk(s, c)
    case Remove(path) => s.(master := Delete(s.master, path))
    case Collect(r) => s.(reports := s.reports + {r})
    case Process(r) => ProcessReport(s, r)
    case ApplyDrops(r) => s.(stores := s.stores[r.server := Kept(s.stores[r.server], r.drops)])
  }

  /** The state after each step, from the empty cluster on. */
  ghost predicate IsRun(states: seq<Cluster>, actions: seq<Action>) {
    && |states| == |actions| + 1 && states[0] == INIT
    && forall i :: 0 <= i < |actions| ==> Enabled(states[i], actions[i]) && states[i + 1] == Step(states[i], actions[i])
  }

  // ---------------------------------------------------------------------------
  // The invariant
  // ---------------------------------------------------------------------------

  predicate AtLeastPrimary(p: Progress) {
    !p.Assigned?
  }

  predicate AtLeastBoth(p: Progress) {
    p.AtBoth? || p.Acked?
  }

  /** What the master knows of an issued chunk id agrees with what happened to it. */
  ghost predicate KnownRight(m: Metadata, c: ChunkId, job: Job) {
    && |job.homes| == 2
    && (IsLive(m, c) ==> m.chunks[c].replicas == job.homes && job.gone == {})
    && (IsDeleted(m, c) ==> forall id :: id in m.chunks[c].replicas <==> id in job.homes && id !in job.gone)
    && (c !in m.chunks ==> forall id :: id in job.homes ==> id in job.gone)
  }

  /** A live chunk is wherever its write has landed. */
  ghost predicate InPlace(s: Cluster, c: ChunkId) {
    && CanWrite(s, c)
    && (IsLive(s.master, c) && AtLeastPrimary(s.jobs[c].progress) ==> Holds(s, s.jobs[c].homes[0], c))
    && (IsLive(s.master, c) && AtLeastBoth(s.jobs[c].progress) ==> Holds(s, s.jobs[c].homes[1], c))
  }

  /** What a server holds was meant for it, byte for byte. */
  ghost predicate HeldRight(s: Cluster, server: ServerId, c: ChunkId) {
    Holds(s, server, c) ==> c in s.jobs && server in s.jobs[c].homes && s.stores[server][c] == s.jobs[c].payload
  }

  ghost predicate ReportOk(s: Cluster, r: Report) {
    forall c :: c in r.held ==> c in s.jobs && r.server in s.jobs[c].homes
  }

  /** No drop command names a chunk of an existing file, nor one that might be allocated. */
  ghost predicate ReplyOk(s: Cluster, r: Reply) {
    forall c :: c in r.drops ==> c in s.jobs && !IsLive(s.master, c)
  }

  /** An existing file's chunks are to carry its slices, in order. */
  ghost predicate FileOk(s: Cluster, p: Path) {
    && p in s.master.files && p in s.contents && s.contents[p].chunkSize > 0
    && |s.master.files[p]| == ChunkCount(|s.contents[p].data|, s.contents[p].chunkSize)
    && forall i :: 0 <= i < |s.master.files[p]| ==> SliceOk(s, s.contents[p], s.master.files[p][i], i)
  }

  ghost predicate SliceOk(s: Cluster, content: Content, c: ChunkId, i: nat) {
    c in s.jobs && s.jobs[c].payload == Slice(content, i)
  }

  ghost predicate JobsOk(s: Cluster) {
    && (forall c: ChunkId :: c in s.jobs <==> c < s.master.nextChunk)
    && (forall c :: c in s.jobs ==> KnownRight(s.master, c, s.jobs[c]))
    && (forall c :: c in s.jobs ==> InPlace(s, c))
  }

  ghost predicate StoresOk(s: Cluster) {
    && s.stores.Keys == s.master.online.Keys
    && (forall id, c :: HeldRight(s, id, c))
  }

  ghost predicate MessagesOk(s: Cluster) {
    && (forall r :: r in s.reports ==> ReportOk(s, r))
    && (forall r :: r in s.replies ==> ReplyOk(s, r))
  }

  ghost predicate FilesOk(s: Cluster) {
    forall p :: p in s.master.files ==> FileOk(s, p)
  }

  ghost predicate Inv(s: Cluster) {
    M.Inv(s.master) && JobsOk(s) && StoresOk(s) && MessagesOk(s) && FilesOk(s)
  }

  // ---------------------------------------------------------------------------
  // Every step keeps it
  // ---------------------------------------------------------------------------

  lemma MasterKeepsInv(s: Cluster, a: Action)
    requires M.Inv(s.master) && Enabled(s, a)
    ensures M.Inv(Step(s, a).master)
  {
    match a
    case Join => ServersKeepInv(s.master, {});
    case Expire(late) => ServersKeepInv(s.master, late);
    case Put(path, content) => AllocateKeepsInv(s.master, path, |content.data|, content.chunkSize);
    case Remove(path) => DeleteKeepsInv(s.master, path);
    case Process(r) => HeartbeatKeepsInv(s.master, r.server, r.held);
    case _ =>
  }

  function Rank(p: Progress): nat {
    match p
    case Assigned => 0
    case AtPrimary => 1
    case AtBoth => 2
    case Acked => 3
  }

  /** Replicas and bytes of an issued chunk never change; its write only advances. */
  predicate JobKept(jobs: map<ChunkId, Job>, jobs': map<ChunkId, Job>, c: ChunkId) {
    c in jobs ==>
      && c in jobs' && jobs'[c].homes == jobs[c].homes && jobs'[c].payload == jobs[c].payload
      && Rank(jobs[c].progress) <= Rank(jobs'[c].progress) && jobs[c].gone <= jobs'[c].gone
  }

  lemma StepKeepsJob(s: Cluster, a: Action, c: ChunkId)
    requires Enabled(s, a) && (c in s.jobs ==> c < s.master.nextChunk)
    ensures JobKept(s.jobs, Step(s, a).jobs, c)
  {}

  /** A chunk whose id was issued stays dead once it is: forgotten or deleted ids are never live again. */
  lemma DeadStaysDead(s: Cluster, a: Action, c: ChunkId)
    requires Enabled(s, a) && c < s.master.nextChunk && !IsLive(s.master, c)
    ensures c < Step(s, a).master.nextChunk && !IsLive(Step(s, a).master, c)
  {}

  lemma ReportConfirms(s: Cluster, r: Report, c: ChunkId)
    requires c in s.jobs && KnownRight(s.master, c, s.jobs[c]) && CanWrite(s, c)
    ensures var s' := ProcessReport(s, r); KnownRight(s'.master, c, s'.jobs[c])
  {
    var s' := ProcessReport(s, r);
    if ConfirmsDrop(s.master, r, c) {
      var rest := Without(s.master.chunks[c].replicas, r.server);
      WithoutMembers(s.master.chunks[c].replicas, r.server);
      if rest == [] {
        forall id | id in s.jobs[c].homes
          ensures id in s'.jobs[c].gone
        {
          assert id !in rest;
        }
      }
    }
  }

  lemma RemovedKnownRight(m: Metadata, path: Path, c: ChunkId, job: Job)
    requires KnownRight(m, c, job)
    ensures KnownRight(Delete(m, path), c, job)
  {}

  lemma NewKnownRight(s: Cluster, path: Path, content: Content, plan: seq<seq<ServerId>>, c: ChunkId)
    requires forall i :: 0 <= i < |plan| ==> |plan[i]| == 2
    requires c in s.jobs ==> c < s.master.nextChunk && KnownRight(s.master, c, s.jobs[c])
    requires c !in s.jobs ==> c >= s.master.nextChunk
    requires c < s.master.nextChunk + |plan|
    ensures var s' := PutPlanned(s, path, content, plan); c in s'.jobs && KnownRight(s'.master, c, s'.jobs[c])
  {}

  lemma StepKnownRight(s: Cluster, a: Action, c: ChunkId)
    requires Enabled(s, a) && c in Step(s, a).jobs
    requires c in s.jobs ==> c < s.master.nextChunk && KnownRight(s.master, c, s.jobs[c]) && CanWrite(s, c)
    requires c !in s.jobs ==> c >= s.master.nextChunk
    ensures KnownRight(Step(s, a).master, c, Step(s, a).jobs[c])
  {
    match a
    case Put(path, content) =>
      if AllocateError(s.master, path, content.chunkSize).None? {
        var count := ChunkCount(|content.data|, content.chunkSize);
        NewKnownRight(s, path, content, Plan(OnlineIds(s.master), s.master.cursor, count), c);
      }
    case Remove(path) => RemovedKnownRight(s.master, path, c, s.jobs[c]);
    case Process(r) => ReportConfirms(s, r, c);
    case Write(d) => assert Step(s, a).master == s.master;
    case _ =>
  }

  lemma WriteInPlace(s: Cluster, d: ChunkId, c: ChunkId)
    requires c in s.jobs && InPlace(s, c) && CanWrite(s, d) && InPlace(s, d)
    ensures InPlace(WriteChunk(s, d), c)
  {}

  lemma DropsInPlace(s: Cluster, r: Reply, c: ChunkId)
    requires Enabled(s, ApplyDrops(r)) && c in s.jobs && InPlace(s, c) && ReplyOk(s, r)
    ensures InPlace(Step(s, ApplyDrops(r)), c)
  {}

  lemma NewInPlace(s: Cluster, path: Path, content: Content, plan: seq<seq<ServerId>>, c: ChunkId)
    requires s.stores.Keys == s.master.online.Keys && (forall i :: 0 <= i < |plan| ==> GoodPair(s.master, plan[i]))
    requires if c in s.jobs then c < s.master.nextChunk && InPlace(s, c) else c >= s.master.nextChunk
    requires c < s.master.nextChunk + |plan|
    ensures InPlace(PutPlanned(s, path, content, plan), c)
  {
    if c >= s.master.nextChunk {
      var pair := plan[c - s.master.nextChunk];
      assert GoodPair(s.master, pair) && pair[0] in pair && pair[1] in pair;
    }
  }

  lemma PutInPlace(s: Cluster, path: Path, content: Content, c: ChunkId)
    requires s.stores.Keys == s.master.online.Keys && s.master.cursor < WRAP && s.master.cursor % 2 == 0
    requires if c in s.jobs then c < s.master.nextChunk && InPlace(s, c) else c >= s.master.nextChunk
    requires c in PutFile(s, path, content).jobs
    ensures InPlace(PutFile(s, path, content), c)
  {
    if AllocateError(s.master, path, content.chunkSize).None? {
      var n := ChunkCount(|content.data|, content.chunkSize);
      forall i | 0 <= i < n
        ensures GoodPair(s.master, Plan(OnlineIds(s.master), s.master.cursor, n)[i])
      {
        PlanGood(s.master, n, i);
      }
      NewInPlace(s, path, content, Plan(OnlineIds(s.master), s.master.cursor, n), c);
    }
  }

  lemma QuietInPlace(s: Cluster, s': Cluster, c: ChunkId)
    requires c in s.jobs && InPlace(s, c) && c in s'.jobs
    requires s'.jobs[c].homes == s.jobs[c].homes && s'.jobs[c].progress == s.jobs[c].progress
    requires forall id :: id in s.stores ==> id in s'.stores && s'.stores[id] == s.stores[id]
    requires IsLive(s'.master, c) ==> IsLive(s.master, c)
    ensures InPlace(s', c)
  {}

  lemma StepInPlace(s: Cluster, a: Action, c: ChunkId)
    requires Enabled(s, a) && c in Step(s, a).jobs
    requires if c in s.jobs then c < s.master.nextChunk && InPlace(s, c) else c >= s.master.nextChunk
    requires s.stores.Keys == s.master.online.Keys && s.master.nextServer !in s.stores
    requires s.master.cursor < WRAP && s.master.cursor % 2 == 0
    requires a.Write? ==> InPlace(s, a.chunk)
    requires a.ApplyDrops? ==> ReplyOk(s, a.reply)
    ensures InPlace(Step(s, a), c)
  {
    match a
    case Put(path, content) => PutInPlace(s, path, content, c);
    case Write(d) => WriteInPlace(s, d, c);
    case ApplyDrops(r) => DropsInPlace(s, r, c);
    case _ =>
      if !IsLive(s.master, c) {
        DeadStaysDead(s, a, c);
      }
      QuietInPlace(s, Step(s, a), c);
  }

  lemma WriteHeldRight(s: Cluster, d: ChunkId, id: ServerId, c: ChunkId)
    requires CanWrite(s, d) && HeldRight(s, id, c)
    ensures HeldRight(WriteChunk(s, d), id, c)
  {}

  lemma StepHeldRight(s: Cluster, a: Action, id: ServerId, c: ChunkId)
    requires Enabled(s, a) && HeldRight(s, id, c) && (c in s.jobs ==> c < s.master.nextChunk)
    ensures HeldRight(Step(s, a), id, c)
  {
    if a.Write? {
      WriteHeldRight(s, a.chunk, id, c);
    } else {
      StepKeepsJob(s, a, c);
      assert Holds(Step(s, a), id, c) ==> Holds(s, id, c) && Step(s, a).stores[id][c] == s.stores[id][c];
    }
  }

  /** The reply to a report the server could have made commands no chunk of an existing file. */
  lemma UnwantedIsDead(s: Cluster, r: Report)
    requires ReportOk(s, r) && (forall c :: c in s.jobs ==> KnownRight(s.master, c, s.jobs[c]))
    ensures ReplyOk(s, Reply(r.server, Unwanted(s.master, r.server, r.held)))
  {
    forall c | c in Unwanted(s.master, r.server, r.held)
      ensures c in s.jobs && !IsLive(s.master, c)
    {
      assert KnownRight(s.master, c, s.jobs[c]) && !Wanted(s.master, r.server, c);
    }
  }

  lemma StepReportOk(s: Cluster, a: Action, r: Report)
    requires Inv(s) && Enabled(s, a) && r in Step(s, a).reports
    ensures ReportOk(Step(s, a), r)
  {
    assert ReportOk(s, r) by {
      if r !in s.reports {
        forall c | c in r.held
          ensures c in s.jobs && r.server in s.jobs[c].homes
        {
          assert HeldRight(s, r.server, c);
        }
      }
    }
    forall c | c in r.held
      ensures c in Step(s, a).jobs && r.server in Step(s, a).jobs[c].homes
    {
      StepKeepsJob(s, a, c);
    }
  }

  lemma StepReplyOk(s: Cluster, a: Action, r: Reply)
    requires Inv(s) && Enabled(s, a) && r in Step(s, a).replies
    ensures ReplyOk(Step(s, a), r)
  {
    assert ReplyOk(s, r) by {
      if r !in s.replies {
        UnwantedIsDead(s, a.report);
      }
    }
    forall c | c in r.drops
      ensures c in Step(s, a).jobs && !IsLive(Step(s, a).master, c)
    {
      StepKeepsJob(s, a, c);
      DeadStaysDead(s, a, c);
    }
  }

  lemma OldFileOk(s: Cluster, a: Action, p: Path)
    requires Enabled(s, a) && p in Step(s, a).master.files && FileOk(s, p)
    requires forall c: ChunkId :: c in s.jobs <==> c < s.master.nextChunk
    ensures FileOk(Step(s, a), p)
  {
    var s' := Step(s, a);
    var ids, content := s.master.files[p], s.contents[p];
    SameFile(s, a, p);
    forall i | 0 <= i < |ids|
      ensures SliceOk(s', content, ids[i], i)
    {
      assert SliceOk(s, content, ids[i], i);
      StepKeepsJob(s, a, ids[i]);
    }
  }

  lemma SameFile(s: Cluster, a: Action, p: Path)
    requires Enabled(s, a) && p in s.master.files && p in Step(s, a).master.files && p in s.contents
    ensures Step(s, a).master.files[p] == s.master.files[p]
    ensures p in Step(s, a).contents && Step(s, a).contents[p] == s.contents[p]
  {}

  lemma NewFileOk(s: Cluster, path: Path, content: Content)
    requires AllocateError(s.master, path, content.chunkSize).None?
    ensures FileOk(PutFile(s, path, content), path)
  {}

  lemma StepFileOk(s: Cluster, a: Action, p: Path)
    requires Enabled(s, a) && p in Step(s, a).master.files && (p in s.master.files ==> FileOk(s, p))
    requires forall c: ChunkId :: c in s.jobs <==> c < s.master.nextChunk
    ensures FileOk(Step(s, a), p)
  {
    if p in s.master.files {
      OldFileOk(s, a, p);
    } else {
      NewFileOk(s, p, a.content);
    }
  }

  lemma StepIssues(s: Cluster, a: Action, c: ChunkId)
    requires Enabled(s, a) && (c in s.jobs <==> c < s.master.nextChunk)
    ensures c in Step(s, a).jobs <==> c < Step(s, a).master.nextChunk
  {}

  lemma StepKeepsKnown(s: Cluster, a: Action)
    requires JobsOk(s) && Enabled(s, a)
    ensures forall c :: c in Step(s, a).jobs ==> KnownRight(Step(s, a).master, c, Step(s, a).jobs[c])
  {
    var s' := Step(s, a);
    forall c | c in s'.jobs
      ensures KnownRight(s'.master, c, s'.jobs[c])
    {
      assert c in s.jobs ==> KnownRight(s.master, c, s.jobs[c]) && InPlace(s, c);
      StepKnownRight(s, a, c);
    }
  }

  lemma StepKeepsPlaces(s: Cluster, a: Action)
    requires JobsOk(s) && MessagesOk(s) && Enabled(s, a)
    requires s.stores.Keys == s.master.online.Keys && s.master.nextServer !in s.stores
    requires s.master.cursor < WRAP && s.master.cursor % 2 == 0
    ensures forall c :: c in Step(s, a).jobs ==> InPlace(Step(s, a), c)
  {
    forall c | c in Step(s, a).jobs
      ensures InPlace(Step(s, a), c)
    {
      StepInPlace(s, a, c);
    }
  }

  lemma StepKeepsJobs(s: Cluster, a: Action)
    requires JobsOk(s) && MessagesOk(s) && Enabled(s, a)
    requires s.stores.Keys == s.master.online.Keys && s.master.nextServer !in s.stores
    requires s.master.cursor < WRAP && s.master.cursor % 2 == 0
    ensures JobsOk(Step(s, a))
  {
    StepKeepsKnown(s, a);
    StepKeepsPlaces(s, a);
    forall c: ChunkId
      ensures c in Step(s, a).jobs <==> c < Step(s, a).master.nextChunk
    {
      StepIssues(s, a, c);
    }
  }

  lemma StepKeepsStores(s: Cluster, a: Action)
    requires JobsOk(s) && StoresOk(s) && Enabled(s, a)
    ensures StoresOk(Step(s, a))
  {
    forall id, c
      ensures HeldRight(Step(s, a), id, c)
    {
      StepHeldRight(s, a, id, c);
    }
  }

  lemma StepKeepsInv(s: Cluster, a: Action)
    requires Inv(s) && Enabled(s, a)
    ensures Inv(Step(s, a))
  {
    var s' := Step(s, a);
    MasterKeepsInv(s, a);
    StepKeepsJobs(s, a);
    StepKeepsStores(s, a);
    forall r | r in s'.reports
      ensures ReportOk(s', r)
    {
      StepReportOk(s, a, r);
    }
    forall r | r in s'.replies
      ensures ReplyOk(s', r)
    {
      StepReplyOk(s, a, r);
    }
    forall p | p in s'.master.files
      ensures FileOk(s', p)
    {
      StepFileOk(s, a, p);
    }
  }

  lemma {:induction false} RunKeepsInv(states: seq<Cluster>, actions: seq<Action>, k: nat)
    requires IsRun(states, actions) && k < |states|
    ensures Inv(states[k])
  {
    if k == 0 {
      EmptyInv();
    } else {
      RunKeepsInv(states, actions, k - 1);
      StepKeepsInv(states[k - 1], actions[k - 1]);
    }
  }
}
