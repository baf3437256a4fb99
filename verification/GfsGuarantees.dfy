/** What the file system promises over whole runs: durability, sound collection, and intact reads. */
module GfsGuarantees {
  import opened Binary
  import opened Sequences
  import opened M = GfsMetadata
  import opened C = GfsCluster

  // ---------------------------------------------------------------------------
  // Facts that last
  // ---------------------------------------------------------------------------

  lemma Issued(states: seq<Cluster>, actions: seq<Action>, i: nat, c: ChunkId)
    requires IsRun(states, actions) && i < |states|
    ensures var s := states[i];
      && (c in s.jobs <==> c < s.master.nextChunk) && (c in s.master.chunks ==> c in s.jobs)
      && s.master.nextServer !in s.stores && (c in s.jobs ==> KnownRight(s.master, c, s.jobs[c]))
  {
    RunKeepsInv(states, actions, i);
  }

  lemma {:induction false} JobLasts(states: seq<Cluster>, actions: seq<Action>, i: nat, j: nat, c: ChunkId)
    requires IsRun(states, actions) && i <= j < |states|
    ensures JobKept(states[i].jobs, states[j].jobs, c)
    decreases j
  {
    if i < j {
      JobLasts(states, actions, i, j - 1, c);
      Issued(states, actions, j - 1, c);
      StepKeepsJob(states[j - 1], actions[j - 1], c);
    }
  }

  /** An id that was issued and is not live, because its file was deleted, is never live again. */
  lemma {:induction false} NeverReissued(states: seq<Cluster>, actions: seq<Action>, i: nat, j: nat, c: ChunkId)
    requires IsRun(states, actions) && i <= j < |states|
    requires c in states[i].jobs && !IsLive(states[i].master, c)
    ensures c in states[j].jobs && !IsLive(states[j].master, c)
    decreases j
  {
    if i < j {
      NeverReissued(states, actions, i, j - 1, c);
      Issued(states, actions, j - 1, c);
      DeadStaysDead(states[j - 1], actions[j - 1], c);
      StepKeepsJob(states[j - 1], actions[j - 1], c);
    }
  }

  /** Step `k` deletes the file to which chunk `c` belongs. */
  ghost predicate RemovesChunk(states: seq<Cluster>, actions: seq<Action>, k: nat, c: ChunkId)
    requires |states| == |actions| + 1
  {
    && k < |actions| && actions[k].Remove? && actions[k].path in states[k].master.files
    && c in states[k].master.files[actions[k].path]
  }

  lemma SurvivesStep(s: Cluster, a: Action, c: ChunkId)
    requires Enabled(s, a) && IsLive(s.master, c) && c < s.master.nextChunk
    requires !(a.Remove? && a.path in s.master.files && c in s.master.files[a.path])
    ensures IsLive(Step(s, a).master, c)
  {}

  /** A live chunk stays live until its file is deleted. */
  lemma {:induction false} LiveUntilRemoved(states: seq<Cluster>, actions: seq<Action>, i: nat, j: nat, c: ChunkId)
    requires IsRun(states, actions) && i <= j < |states|
    requires IsLive(states[i].master, c) && (forall k :: i <= k < j ==> !RemovesChunk(states, actions, k, c))
    ensures IsLive(states[j].master, c)
    decreases j
  {
    if i < j {
      LiveUntilRemoved(states, actions, i, j - 1, c);
      Issued(states, actions, j - 1, c);
      var s, a := states[j - 1], actions[j - 1];
      assert !RemovesChunk(states, actions, j - 1, c);
      SurvivesStep(s, a, c);
    }
  }

  // ---------------------------------------------------------------------------
  // Durability
  // ---------------------------------------------------------------------------

  predicate HoldsPayload(s: Cluster, server: ServerId, c: ChunkId, payload: Bytes) {
    Holds(s, server, c) && s.stores[server][c] == payload
  }

  /**
   Once a chunk's write was acknowledged, both its replicas hold its bytes until its file is
   deleted, whatever reports and replies are late, repeated or lost.
   */
  lemma Durable(states: seq<Cluster>, actions: seq<Action>, i: nat, j: nat, c: ChunkId)
    requires IsRun(states, actions) && i <= j < |states|
    requires c in states[i].jobs && states[i].jobs[c].progress.Acked? && IsLive(states[i].master, c)
    requires forall k :: i <= k < j ==> !RemovesChunk(states, actions, k, c)
    ensures var job := states[i].jobs[c];
      && states[i].master.chunks[c].replicas == job.homes && |job.homes| == 2
      && HoldsPayload(states[j], job.homes[0], c, job.payload) && HoldsPayload(states[j], job.homes[1], c, job.payload)
  {
    RunKeepsInv(states, actions, i);
    RunKeepsInv(states, actions, j);
    LiveUntilRemoved(states, actions, i, j, c);
    JobLasts(states, actions, i, j, c);
    assert KnownRight(states[i].master, c, states[i].jobs[c]);
    var job := states[j].jobs[c];
    assert InPlace(states[j], c);
    assert HeldRight(states[j], job.homes[0], c) && HeldRight(states[j], job.homes[1], c);
  }

  // ---------------------------------------------------------------------------
  // Collection
  // ---------------------------------------------------------------------------

  /** Step `k` processes a report of server `id` without chunk `c`, which is deleted by then. */
  ghost predicate ConfirmedAt(states: seq<Cluster>, actions: seq<Action>, k: nat, id: ServerId, c: ChunkId)
    requires |states| == |actions| + 1
  {
    && k < |actions| && actions[k].Process? && actions[k].report.server == id && c !in actions[k].report.held
    && IsDeleted(states[k].master, c)
  }

  lemma {:induction false} GoneWasConfirmed(states: seq<Cluster>, actions: seq<Action>, n: nat,
                                            id: ServerId, c: ChunkId)
    requires IsRun(states, actions) && n < |states|
    requires c in states[n].jobs && id in states[n].jobs[c].gone
    ensures exists k :: 0 <= k < n && ConfirmedAt(states, actions, k, id, c)
  {
    assert n > 0;
    var s, a := states[n - 1], actions[n - 1];
    Issued(states, actions, n - 1, c);
    if c in s.jobs && id in s.jobs[c].gone {
      GoneWasConfirmed(states, actions, n - 1, id, c);
    } else {
      GoneGrows(s, a, id, c);
      assert ConfirmedAt(states, actions, n - 1, id, c);
    }
  }

  lemma GoneGrows(s: Cluster, a: Action, id: ServerId, c: ChunkId)
    requires Enabled(s, a) && !(c in s.jobs && id in s.jobs[c].gone)
    requires c in Step(s, a).jobs && id in Step(s, a).jobs[c].gone
    requires c !in s.jobs ==> c >= s.master.nextChunk
    ensures a.Process? && a.report.server == id && c !in a.report.held && IsDeleted(s.master, c)
  {}

  lemma {:induction false} DeletedWasRemoved(states: seq<Cluster>, actions: seq<Action>, n: nat, c: ChunkId)
    requires IsRun(states, actions) && n < |states| && IsDeleted(states[n].master, c)
    ensures exists k :: 0 <= k < n && RemovesChunk(states, actions, k, c)
  {
    assert n > 0;
    var s, a := states[n - 1], actions[n - 1];
    if IsDeleted(s.master, c) {
      DeletedWasRemoved(states, actions, n - 1, c);
    } else {
      BecomesDeleted(s, a, c);
      assert RemovesChunk(states, actions, n - 1, c);
    }
  }

  lemma BecomesDeleted(s: Cluster, a: Action, c: ChunkId)
    requires Enabled(s, a) && !IsDeleted(s.master, c) && IsDeleted(Step(s, a).master, c)
    ensures a.Remove? && a.path in s.master.files && c in s.master.files[a.path]
  {}

  lemma ConfirmedIsGone(states: seq<Cluster>, actions: seq<Action>, k: nat, n: nat, id: ServerId, c: ChunkId)
    requires IsRun(states, actions) && k < n < |states| && ConfirmedAt(states, actions, k, id, c)
    requires c in states[n].jobs && id in states[n].jobs[c].homes
    ensures id in states[n].jobs[c].gone
  {
    Issued(states, actions, k, c);
    JobLasts(states, actions, k, k + 1, c);
    JobLasts(states, actions, k + 1, n, c);
    assert id in states[k].master.chunks[c].replicas || id in states[k].jobs[c].gone;
  }

  /** The chunk's file was deleted, and later a report of server `id` without the chunk was processed. */
  ghost predicate CollectedFrom(states: seq<Cluster>, actions: seq<Action>, n: nat, id: ServerId, c: ChunkId)
    requires |states| == |actions| + 1
  {
    exists d, k :: 0 <= d < k < n && RemovesChunk(states, actions, d, c) && ConfirmedAt(states, actions, k, id, c)
  }

  /**
   The master has forgotten an issued chunk exactly if its file was deleted and each of its two
   replicas was reported without it after that.
   */
  lemma ForgottenIsCollected(states: seq<Cluster>, actions: seq<Action>, n: nat, c: ChunkId)
    requires IsRun(states, actions) && n < |states| && c in states[n].jobs
    ensures c !in states[n].master.chunks
       <==> forall id :: id in states[n].jobs[c].homes ==> CollectedFrom(states, actions, n, id, c)
  {
    var job := states[n].jobs[c];
    Issued(states, actions, n, c);
    forall id | id in job.homes
      ensures id in job.gone <==> CollectedFrom(states, actions, n, id, c)
    {
      if id in job.gone {
        GoneWasConfirmed(states, actions, n, id, c);
        var k: nat :| k < n && ConfirmedAt(states, actions, k, id, c);
        DeletedWasRemoved(states, actions, k, c);
      } else if CollectedFrom(states, actions, n, id, c) {
        var d: nat, k: nat :|
          d < k < n && RemovesChunk(states, actions, d, c) && ConfirmedAt(states, actions, k, id, c);
        ConfirmedIsGone(states, actions, k, n, id, c);
      }
    }
    if c in states[n].master.chunks {
      RemainsSomewhere(states, actions, n, c);
    }
  }

  lemma RemainsSomewhere(states: seq<Cluster>, actions: seq<Action>, n: nat, c: ChunkId)
    requires IsRun(states, actions) && n < |states| && c in states[n].jobs && c in states[n].master.chunks
    ensures exists id :: id in states[n].jobs[c].homes && id !in states[n].jobs[c].gone
  {
    RunKeepsInv(states, actions, n);
    var info := states[n].master.chunks[c];
    assert ReplicasOk(states[n].master, info) && KnownRight(states[n].master, c, states[n].jobs[c]);
    assert info.replicas[0] in info.replicas;
  }

  /**
   A write that lands after its chunk was deleted, or even forgotten, is undone: whenever the
   server reports the chunk, the reply tells it to drop it.
   */
  lemma LateWriteDropped(states: seq<Cluster>, actions: seq<Action>, i: nat, j: nat, c: ChunkId)
    requires IsRun(states, actions) && i <= j < |actions|
    requires c in states[i].jobs && !IsLive(states[i].master, c)
    requires actions[j].Process? && c in actions[j].report.held
    ensures exists r :: r in states[j + 1].replies && r.server == actions[j].report.server && c in r.drops
  {
    NeverReissued(states, actions, i, j, c);
    var report := actions[j].report;
    var r := Reply(report.server, Unwanted(states[j].master, report.server, report.held));
    assert r in states[j + 1].replies;
  }

  /** Neither a write, nor an allocation or a deletion. */
  predicate IsQuiet(a: Action) {
    !a.Write? && !a.Put? && !a.Remove?
  }

  lemma QuietKeepsWanted(s: Cluster, a: Action, id: ServerId, c: ChunkId)
    requires Enabled(s, a) && IsQuiet(a)
    ensures Wanted(Step(s, a).master, id, c) == Wanted(s.master, id, c)
  {}

  lemma QuietShrinksStore(s: Cluster, a: Action, id: ServerId)
    requires Enabled(s, a) && IsQuiet(a) && id in s.stores && s.master.nextServer !in s.stores
    ensures id in Step(s, a).stores && Step(s, a).stores[id].Keys <= s.stores[id].Keys
  {}

  lemma {:induction false} QuietStretch(states: seq<Cluster>, actions: seq<Action>, i: nat, j: nat, id: ServerId)
    requires IsRun(states, actions) && i <= j < |states| && id in states[i].stores
    requires forall k :: i <= k < j ==> IsQuiet(actions[k])
    ensures id in states[j].stores && states[j].stores[id].Keys <= states[i].stores[id].Keys
    ensures forall c: ChunkId :: Wanted(states[j].master, id, c) == Wanted(states[i].master, id, c)
    decreases j
  {
    if i < j {
      QuietStretch(states, actions, i, j - 1, id);
      var s, a := states[j - 1], actions[j - 1];
      assert s.master.nextServer !in s.stores by { Issued(states, actions, j - 1, 0); }
      QuietShrinksStore(s, a, id);
      forall c: ChunkId
        ensures Wanted(states[j].master, id, c) == Wanted(states[i].master, id, c)
      {
        QuietKeepsWanted(s, a, id, c);
      }
    }
  }

  /**
   A heartbeat exchange (the report collected at step `i`, processed at step `j` and answered at step
   `k`) without a write, allocation or deletion in between leaves the server holding only wanted
   chunks.
   */
  lemma ExchangeCleans(states: seq<Cluster>, actions: seq<Action>, i: nat, j: nat, k: nat, r: Report, c: ChunkId)
    requires IsRun(states, actions) && i < j < k < |actions| && (forall x :: i <= x <= k ==> IsQuiet(actions[x]))
    requires actions[i] == Collect(r) && actions[j] == Process(r)
    requires actions[k] == ApplyDrops(Reply(r.server, Unwanted(states[j].master, r.server, r.held)))
    requires Holds(states[k + 1], r.server, c)
    ensures Wanted(states[k + 1].master, r.server, c)
  {
    QuietStretch(states, actions, i, j, r.server);
    QuietStretch(states, actions, j, k, r.server);
    QuietStretch(states, actions, k, k + 1, r.server);
    assert c in states[k].stores[r.server] && c in states[i].stores[r.server];
    assert c in r.held && c !in Unwanted(states[j].master, r.server, r.held);
  }

  /** Once a report with only wanted chunks is processed, no deleted chunk counts the server as a replica. */
  lemma CleanReportReleases(s: Cluster, r: Report, c: ChunkId)
    requires forall d :: d in r.held ==> Wanted(s.master, r.server, d)
    requires IsDeleted(ProcessReport(s, r).master, c)
    ensures r.server !in ProcessReport(s, r).master.chunks[c].replicas
  {
    assert c in r.held ==> Wanted(s.master, r.server, c);
    WithoutMembers(s.master.chunks[c].replicas, r.server);
  }
}
