/** What compaction keeps of a log: the last record of each live key, in any order. */
module WalCompaction {
  import opened L = WalLog

  /** A deletion, or a record that a later one of the same key overrides. */
  ghost predicate Dead(rs: seq<Record>, i: nat)
    requires i < |rs|
  {
    rs[i].Delete? || exists j :: i < j < |rs| && rs[j].key == rs[i].key
  }

  function WithoutKey(rs: seq<Record>, k: Key): seq<Record> {
    if rs == [] then []
    else
      var n := |rs| - 1;
      WithoutKey(rs[..n], k) + if rs[n].key == k then [] else [rs[n]]
  }

  lemma {:induction false} WithoutKeyMembers(rs: seq<Record>, k: Key)
    ensures forall x :: x in WithoutKey(rs, k) <==> x in rs && x.key != k
  {
    if rs != [] {
      var n := |rs| - 1;
      WithoutKeyMembers(rs[..n], k);
      assert rs == rs[..n] + [rs[n]];
    }
  }

  /** The records that are not dead. */
  function Live(rs: seq<Record>): seq<Record> {
    if rs == [] then []
    else
      var n := |rs| - 1;
      WithoutKey(Live(rs[..n]), rs[n].key) + if rs[n].Set? then [rs[n]] else []
  }

  lemma {:induction false} LiveMembers(rs: seq<Record>)
    ensures forall x :: x in Live(rs) ==> x in rs && x.Set?
  {
    if rs != [] {
      var n := |rs| - 1;
      LiveMembers(rs[..n]);
      WithoutKeyMembers(Live(rs[..n]), rs[n].key);
      assert rs == rs[..n] + [rs[n]];
    }
  }

  ghost predicate DistinctKeys(rs: seq<Record>) {
    forall i, j :: 0 <= i < j < |rs| ==> rs[i].key != rs[j].key
  }

  ghost predicate IsEntry(r: Record, m: Contents) {
    r.Set? && r.key in m && m[r.key] == r.value
  }

  /** One `Set` for each entry of the map, in some order. */
  ghost predicate IsSnapshot(rs: seq<Record>, m: Contents) {
    && DistinctKeys(rs)
    && (forall x :: x in rs ==> IsEntry(x, m))
    && (forall k :: k in m ==> Set(k, m[k]) in rs)
  }

  lemma {:induction false} WithoutDistinct(rs: seq<Record>, k: Key)
    requires DistinctKeys(rs)
    ensures DistinctKeys(WithoutKey(rs, k))
  {
    if rs != [] {
      var n := |rs| - 1;
      WithoutDistinct(rs[..n], k);
      WithoutKeyMembers(rs[..n], k);
      var w := WithoutKey(rs[..n], k);
      forall i | 0 <= i < |w|
        ensures w[i].key != rs[n].key
      {
        assert w[i] in w;
      }
    }
  }

  /** One more record: a snapshot loses its key and gains it if it is a `Set`. */
  lemma SnapshotStep(live: seq<Record>, m: Contents, r: Record)
    requires IsSnapshot(live, m)
    ensures IsSnapshot(WithoutKey(live, r.key) + if r.Set? then [r] else [], Apply(m, r))
  {
    var w := WithoutKey(live, r.key);
    WithoutDistinct(live, r.key);
    WithoutKeyMembers(live, r.key);
    forall i | 0 <= i < |w|
      ensures w[i].key != r.key
    {
      assert w[i] in w;
    }
  }

  /** The live records are a snapshot of what the log replays to. */
  lemma {:induction false} LiveIsSnapshot(rs: seq<Record>)
    ensures IsSnapshot(Live(rs), ApplyAll(map[], rs))
  {
    if rs != [] {
      var n := |rs| - 1;
      LiveIsSnapshot(rs[..n]);
      assert rs == rs[..n] + [rs[n]];
      ApplyAppend(map[], rs[..n], rs[n]);
      SnapshotStep(Live(rs[..n]), ApplyAll(map[], rs[..n]), rs[n]);
    }
  }

  /** Replaying a snapshot gives the map. */
  lemma {:induction false} SnapshotReplays(rs: seq<Record>, m: Contents)
    requires IsSnapshot(rs, m)
    ensures ApplyAll(map[], rs) == m
    decreases |rs|
  {
    if rs == [] {
      assert m == map[];
    } else {
      var n := |rs| - 1;
      var r := rs[n];
      assert rs == rs[..n] + [r] && r in rs;
      assert IsSnapshot(rs[..n], m - {r.key}) by {
        SnapshotMinus(rs, n, m);
        assert rs[n + 1..] == [] && rs[..n] + [] == rs[..n];
      }
      SnapshotReplays(rs[..n], m - {r.key});
      ApplyAppend(map[], rs[..n], r);
      assert (m - {r.key})[r.key := r.value] == m;
    }
  }

  /** A snapshot without one record is a snapshot of the map without its key. */
  lemma SnapshotMinus(rs: seq<Record>, i: nat, m: Contents)
    requires IsSnapshot(rs, m) && i < |rs|
    ensures IsSnapshot(rs[..i] + rs[i + 1..], m - {rs[i].key})
  {
    var w, k := rs[..i] + rs[i + 1..], rs[i].key;
    assert rs[i] in rs;
    assert forall j :: 0 <= j < |w| ==> w[j] == rs[if j < i then j else j + 1];
    forall x | x in w
      ensures IsEntry(x, m - {k})
    {
      assert x in rs;
    }
    forall q | q in m - {k}
      ensures Set(q, m[q]) in w
    {
      var j :| 0 <= j < |rs| && rs[j] == Set(q, m[q]);
      assert rs[j] == w[if j < i then j else j - 1];
    }
  }

  lemma HasMember(rs: seq<Record>)
    ensures rs == [] || exists x :: x in rs
  {
    if rs != [] {
      assert rs[0] in rs;
    }
  }

  /** The only snapshot of an empty map is empty. */
  lemma EmptySnapshot(rs: seq<Record>, m: Contents)
    requires IsSnapshot(rs, m) && m.Keys == {}
    ensures rs == []
  {
    HasMember(rs);
    assert forall x :: x in rs ==> IsEntry(x, m);
  }

  lemma LogMinus(codec: Codec, rs: seq<Record>, i: nat)
    requires i < |rs|
    ensures |Log(codec, rs)| == |Log(codec, rs[..i] + rs[i + 1..])| + |Frame(codec, rs[i])|
  {
    LogConcat(codec, rs[..i], rs[i + 1..]);
    LogConcat(codec, rs[..i], rs[i..]);
    assert rs == rs[..i] + rs[i..] && rs[i..][1..] == rs[i + 1..];
  }

  /** All snapshots of a map are equally long. */
  lemma {:induction false} SnapshotsSameSize(codec: Codec, rs: seq<Record>, others: seq<Record>, m: Contents)
    requires IsSnapshot(rs, m) && IsSnapshot(others, m)
    ensures |Log(codec, rs)| == |Log(codec, others)|
    decreases |rs|
  {
    if rs == [] {
      assert m.Keys == {};
      EmptySnapshot(others, m);
    } else {
      var r := rs[0];
      assert r in rs;
      var j :| 0 <= j < |others| && others[j] == r;
      SnapshotMinus(rs, 0, m);
      SnapshotMinus(others, j, m);
      SnapshotsSameSize(codec, rs[..0] + rs[0 + 1..], others[..j] + others[j + 1..], m - {r.key});
      LogMinus(codec, rs, 0);
      LogMinus(codec, others, j);
    }
  }

  predicate HasKey(rs: seq<Record>, k: Key) {
    exists i :: 0 <= i < |rs| && rs[i].key == k
  }

  lemma HasKeyStep(rs: seq<Record>, k: Key)
    requires rs != []
    ensures HasKey(rs, k) <==> HasKey(rs[..|rs| - 1], k) || rs[|rs| - 1].key == k
  {
    var n := |rs| - 1;
    if i :| 0 <= i < |rs| && rs[i].key == k {
      assert i < n ==> rs[..n][i].key == k;
    }
    if i :| 0 <= i < n && rs[..n][i].key == k {
      assert rs[i].key == k;
    }
  }

  lemma LogLast(codec: Codec, rs: seq<Record>)
    requires rs != []
    ensures |Log(codec, rs)| == |Log(codec, rs[..|rs| - 1])| + |Frame(codec, rs[|rs| - 1])|
  {
    var n := |rs| - 1;
    assert rs == rs[..n] + [rs[n]];
    LogAppend(codec, rs[..n], rs[n]);
  }

  lemma AppendIf(codec: Codec, rs: seq<Record>, r: Record, kept: bool)
    ensures |Log(codec, rs + if kept then [r] else [])| == |Log(codec, rs)| + if kept then |Frame(codec, r)| else 0
  {
    if kept {
      LogAppend(codec, rs, r);
    } else {
      assert rs + [] == rs;
    }
  }

  lemma {:induction false} WithoutAbsent(rs: seq<Record>, k: Key)
    requires !HasKey(rs, k)
    ensures WithoutKey(rs, k) == rs
  {
    if rs != [] {
      var n := |rs| - 1;
      HasKeyStep(rs, k);
      WithoutAbsent(rs[..n], k);
      assert rs == rs[..n] + [rs[n]];
    }
  }

  lemma WithoutLast(codec: Codec, rs: seq<Record>, k: Key)
    requires rs != []
    ensures var n := |rs| - 1;
      |Log(codec, WithoutKey(rs, k))|
        == |Log(codec, WithoutKey(rs[..n], k))| + if rs[n].key != k then |Frame(codec, rs[n])| else 0
  {
    var n := |rs| - 1;
    AppendIf(codec, WithoutKey(rs[..n], k), rs[n], rs[n].key != k);
    assert WithoutKey(rs, k) == WithoutKey(rs[..n], k) + if rs[n].key != k then [rs[n]] else [];
  }

  lemma {:induction false} WithoutShrinks(codec: Codec, rs: seq<Record>, k: Key)
    ensures if HasKey(rs, k) then |Log(codec, WithoutKey(rs, k))| < |Log(codec, rs)| else WithoutKey(rs, k) == rs
  {
    if HasKey(rs, k) {
      HasKeyStep(rs, k);
      WithoutShrinks(codec, rs[..|rs| - 1], k);
      LogLast(codec, rs);
      WithoutLast(codec, rs, k);
    } else {
      WithoutAbsent(rs, k);
    }
  }

  ghost predicate NoneDead(rs: seq<Record>) {
    forall i :: 0 <= i < |rs| ==> !Dead(rs, i)
  }

  /** Appending a record keeps all alive exactly if it is a `Set` of a new key. */
  lemma NoneDeadStep(rs: seq<Record>)
    requires rs != []
    ensures var n := |rs| - 1; NoneDead(rs) <==> NoneDead(rs[..n]) && rs[n].Set? && !HasKey(rs[..n], rs[n].key)
  {
    var n := |rs| - 1;
    if NoneDead(rs) {
      assert !Dead(rs, n);
      forall i | 0 <= i < n
        ensures !Dead(rs[..n], i) && rs[..n][i].key != rs[n].key
      {
        assert !Dead(rs, i);
        assert rs[..n][i] == rs[i];
      }
    }
    if NoneDead(rs[..n]) && rs[n].Set? && !HasKey(rs[..n], rs[n].key) {
      forall i | 0 <= i < n
        ensures !Dead(rs, i)
      {
        assert !Dead(rs[..n], i) && rs[..n][i].key != rs[n].key;
        assert forall j :: i < j < n ==> rs[..n][j] == rs[j];
      }
    }
  }

  /** A `Set` of a new key stays behind the others. */
  lemma LiveOfNew(rs: seq<Record>, n: nat)
    requires |rs| == n + 1 && Live(rs[..n]) == rs[..n] && rs[n].Set? && !HasKey(rs[..n], rs[n].key)
    ensures Live(rs) == rs
  {
    WithoutAbsent(rs[..n], rs[n].key);
    assert rs == rs[..n] + [rs[n]];
  }

  lemma {:induction false} NoneDeadLive(rs: seq<Record>)
    requires NoneDead(rs)
    ensures Live(rs) == rs
  {
    if rs != [] {
      NoneDeadStep(rs);
      NoneDeadLive(rs[..|rs| - 1]);
      LiveOfNew(rs, |rs| - 1);
    }
  }

  lemma LiveLast(codec: Codec, rs: seq<Record>)
    requires rs != []
    ensures var n := |rs| - 1;
      |Log(codec, Live(rs))|
        == |Log(codec, WithoutKey(Live(rs[..n]), rs[n].key))| + if rs[n].Set? then |Frame(codec, rs[n])| else 0
  {
    var n := |rs| - 1;
    AppendIf(codec, WithoutKey(Live(rs[..n]), rs[n].key), rs[n], rs[n].Set?);
  }

  /** Keeping only the live records makes the log shorter exactly if one was dead. */
  lemma {:induction false} LiveIsShorter(codec: Codec, rs: seq<Record>)
    ensures if NoneDead(rs) then Live(rs) == rs else |Log(codec, Live(rs))| < |Log(codec, rs)|
  {
    if NoneDead(rs) {
      NoneDeadLive(rs);
    } else {
      var n := |rs| - 1;
      LiveIsShorter(codec, rs[..n]);
      NoneDeadStep(rs);
      LogLast(codec, rs);
      LiveLast(codec, rs);
      WithoutShrinks(codec, Live(rs[..n]), rs[n].key);
    }
  }

  /**
   Whatever order a compaction writes the entries in, the new log replays to the same map, is never
   longer than the old one, and is as long only if no record of the old one was dead.
   */
  lemma CompactedSize(codec: Codec, rs: seq<Record>, snapshot: seq<Record>)
    requires IsSnapshot(snapshot, ApplyAll(map[], rs))
    ensures ApplyAll(map[], snapshot) == ApplyAll(map[], rs)
    ensures |Log(codec, snapshot)| <= |Log(codec, rs)|
    ensures |Log(codec, snapshot)| < |Log(codec, rs)| <==> exists i :: 0 <= i < |rs| && Dead(rs, i)
  {
    SnapshotReplays(snapshot, ApplyAll(map[], rs));
    LiveIsSnapshot(rs);
    SnapshotsSameSize(codec, snapshot, Live(rs), ApplyAll(map[], rs));
    LiveIsShorter(codec, rs);
  }

  /** Every record of a snapshot is one of the log's. */
  lemma SnapshotAllFits(codec: Codec, rs: seq<Record>, snapshot: seq<Record>)
    requires AllFit(codec, rs) && IsSnapshot(snapshot, ApplyAll(map[], rs))
    ensures AllFit(codec, snapshot)
  {
    LiveIsSnapshot(rs);
    LiveMembers(rs);
    forall i | 0 <= i < |snapshot|
      ensures Fits(codec, snapshot[i])
    {
      assert snapshot[i] in snapshot;
      assert snapshot[i] in Live(rs);
      assert snapshot[i] in rs;
    }
  }
}
