/**
 * The latest backups of the tenants of a HANA database, and the tenants whose
 * backups are oldest (internal/workloadmanager/hanametrics.go).
 */
module BackupScan {
  import opened Common

  datatype BackupType = Full | Delta | Snapshot | OtherType

  /** A successful backup. Times are relative to the zero time, which stands for no time at all. */
  datatype Backup = Backup(id: string, time: int)

  type Types = map<string, BackupType>

  predicate IsOf(b: Backup, types: Types, t: BackupType) {
    b.id in types && types[b.id] == t
  }

  // ----- the latest backup of a type ----------------------------------------

  /** The latest time of a type, apart from the zero time, which is the answer if there is no other. */
  ghost predicate IsLatest(s: seq<Backup>, types: Types, t: BackupType, r: int) {
    && (forall b :: b in s && IsOf(b, types, t) && b.time != 0 ==> r != 0 && b.time <= r)
    && (r != 0 ==> exists b :: b in s && IsOf(b, types, t) && b.time == r)
  }

  lemma LatestIsUnique(s: seq<Backup>, s': seq<Backup>, types: Types, t: BackupType, r: int, r': int)
    requires multiset(s) == multiset(s') && IsLatest(s, types, t, r) && IsLatest(s', types, t, r')
    ensures r == r'
  {
    assert forall b :: b in s ==> b in multiset(s');
    assert forall b :: b in s' ==> b in multiset(s);
  }

  /** The greatest time of a type, zero if there is none. */
  ghost predicate IsGreatest(s: seq<Backup>, types: Types, t: BackupType, r: int) {
    if exists b :: b in s && IsOf(b, types, t)
    then (forall b :: b in s && IsOf(b, types, t) ==> b.time <= r) && exists b :: b in s && IsOf(b, types, t) && b.time == r
    else r == 0
  }

  /**
   * What the scan finds is the greatest time of the type, unless that is the zero
   * time and there are times before it.
   */
  lemma LatestIsGreatest(s: seq<Backup>, types: Types, t: BackupType, latest: int, greatest: int)
    requires IsLatest(s, types, t, latest) && IsGreatest(s, types, t, greatest)
    ensures latest == greatest <==> !(greatest == 0 && exists b :: b in s && IsOf(b, types, t) && b.time < 0)
  {
    if b :| b in s && IsOf(b, types, t) && b.time == latest && latest != 0 {
      assert b.time <= greatest;
    }
  }

  /** With a backup at the zero time and one before it, the scan finds the earlier one. */
  lemma ZeroTimeIsPassedOver(zero: string, earlier: string)
    requires zero != earlier
    ensures var s, types := [Backup(zero, 0), Backup(earlier, -1)], map[zero := Full, earlier := Full];
      IsLatest(s, types, Full, -1) && IsGreatest(s, types, Full, 0)
  {
    var s, types := [Backup(zero, 0), Backup(earlier, -1)], map[zero := Full, earlier := Full];
    assert s[0] in s && s[1] in s;
    assert IsOf(s[0], types, Full) && IsOf(s[1], types, Full);
  }

  ghost predicate Descending(s: seq<Backup>) {
    forall i, j :: 0 <= i < j < |s| ==> s[j].time <= s[i].time
  }

  /** One more backup, when the backups so far came in descending order. */
  lemma LatestStep(s: seq<Backup>, i: nat, types: Types, t: BackupType, r: int)
    requires i < |s| && Descending(s) && IsLatest(s[..i], types, t, r)
    ensures IsLatest(s[..i + 1], types, t, if r == 0 && IsOf(s[i], types, t) then s[i].time else r)
  {
    assert s[..i + 1] == s[..i] + [s[i]];
    if r != 0 {
      var b :| b in s[..i] && IsOf(b, types, t) && b.time == r;
      var k :| 0 <= k < i && s[k] == b;
      LaterIsLatest(s[..i], s[i], types, t, r);
    } else {
      FirstIsLatest(s[..i], s[i], types, t);
    }
  }

  lemma LaterIsLatest(s: seq<Backup>, x: Backup, types: Types, t: BackupType, r: int)
    requires IsLatest(s, types, t, r) && r != 0 && x.time <= r
    ensures IsLatest(s + [x], types, t, r)
  {
    var b :| b in s && IsOf(b, types, t) && b.time == r;
    assert b in s + [x];
  }

  lemma FirstIsLatest(s: seq<Backup>, x: Backup, types: Types, t: BackupType)
    requires IsLatest(s, types, t, 0)
    ensures IsLatest(s + [x], types, t, if IsOf(x, types, t) then x.time else 0)
  {
    assert x in s + [x];
  }

  /** Once a time was found, the rest of a descending list does not matter. */
  lemma LatestStays(s: seq<Backup>, i: nat, types: Types, t: BackupType, r: int)
    requires i <= |s| && Descending(s) && r != 0 && IsLatest(s[..i], types, t, r)
    ensures IsLatest(s, types, t, r)
  {
    var b :| b in s[..i] && IsOf(b, types, t) && b.time == r;
    var k :| 0 <= k < i && s[k] == b;
    assert b in s;
    forall c | c in s && IsOf(c, types, t) && c.time != 0 ensures c.time <= r {
      var j :| 0 <= j < |s| && s[j] == c;
      if j < i {
        assert s[..i][j] in s[..i];
      }
    }
  }

  // ----- sorting ------------------------------------------------------------

  function Swapped(s: seq<Backup>, i: nat, m: nat): seq<Backup>
    requires i < |s| && m < |s|
  {
    s[i := s[m]][m := s[i]]
  }

  lemma SwappedBag(s: seq<Backup>, i: nat, m: nat)
    requires i < |s| && m < |s|
    ensures multiset(Swapped(s, i, m)) == multiset(s)
  {
  }

  /** The first `i` backups are in descending order, and no later one is after them. */
  ghost predicate Placed(s: seq<Backup>, i: nat) {
    forall j, k :: 0 <= j < i && j < k < |s| ==> s[k].time <= s[j].time
  }

  lemma SwappedPlaced(s: seq<Backup>, i: nat, m: nat)
    requires i <= m < |s| && Placed(s, i) && forall k :: i <= k < |s| ==> s[k].time <= s[m].time
    ensures Placed(Swapped(s, i, m), i + 1)
  {
  }

  /** A most recent backup from a place on. */
  method MostRecent(a: array<Backup>, i: nat) returns (m: nat)
    requires i < a.Length
    ensures i <= m < a.Length && forall k :: i <= k < a.Length ==> a[..][k].time <= a[..][m].time
  {
    m := i;
    for k := i + 1 to a.Length
      invariant i <= m < a.Length && forall j :: i <= j < k ==> a[j].time <= a[m].time
    {
      if a[m].time < a[k].time {
        m := k;
      }
    }
  }

  /** Sorts backups from most to least recent, in place. */
  method SortByTime(a: array<Backup>)
    modifies a
    ensures Descending(a[..]) && multiset(a[..]) == multiset(old(a[..]))
  {
    for i := 0 to a.Length
      invariant multiset(a[..]) == multiset(old(a[..])) && Placed(a[..], i)
    {
      var m := MostRecent(a, i);
      ghost var s := a[..];
      SwappedBag(s, i, m);
      SwappedPlaced(s, i, m);
      a[i], a[m] := a[m], a[i];
      assert a[..] == Swapped(s, i, m);
    }
  }

  // ----- the scan -----------------------------------------------------------

  datatype Times = Times(full: int, delta: int, snapshot: int)

  ghost predicate AreLatest(s: seq<Backup>, types: Types, r: Times) {
    IsLatest(s, types, Full, r.full) && IsLatest(s, types, Delta, r.delta) && IsLatest(s, types, Snapshot, r.snapshot)
  }

  /** The scan over sorted backups, which ends early once there is a time for every type. */
  method Scan(a: array<Backup>, types: Types) returns (r: Times)
    requires Descending(a[..])
    ensures AreLatest(a[..], types, r)
  {
    r := Times(0, 0, 0);
    for i := 0 to a.Length
      invariant AreLatest(a[..][..i], types, r)
    {
      if r.delta != 0 && r.full != 0 && r.snapshot != 0 {
        LatestStays(a[..], i, types, Full, r.full);
        LatestStays(a[..], i, types, Delta, r.delta);
        LatestStays(a[..], i, types, Snapshot, r.snapshot);
        return;
      }
      LatestStep(a[..], i, types, Full, r.full);
      LatestStep(a[..], i, types, Delta, r.delta);
      LatestStep(a[..], i, types, Snapshot, r.snapshot);
      var b := a[i];
      if b.id in types {
        var t := types[b.id];
        if r.full == 0 && t == Full {
          r := r.(full := b.time);
        } else if r.delta == 0 && t == Delta {
          r := r.(delta := b.time);
        } else if r.snapshot == 0 && t == Snapshot {
          r := r.(snapshot := b.time);
        }
      }
    }
    assert a[..][..a.Length] == a[..];
  }

  /**
   * The latest times of a tenant. Either the log of successful backups or that of
   * backup commands may fail to be read; the second is not read if the first is empty.
   */
  method FetchLastBackupTimestamps(log: Option<seq<Backup>>, types: Option<Types>) returns (r: Option<Times>)
    ensures r.None? <==> Fails(log, types)
    ensures r.Some? ==> AreLatest(log.value, TypesOf(types), r.value)
  {
    if log.None? {
      return None;
    }
    if |log.value| == 0 {
      return Some(Times(0, 0, 0));
    }
    if types.None? {
      return None;
    }
    if types.value == map[] {
      return Some(Times(0, 0, 0));
    }
    var backups := new Backup[|log.value|](i requires 0 <= i < |log.value| => log.value[i]);
    assert backups[..] == log.value;
    SortByTime(backups);
    var times := Scan(backups, types.value);
    SameLatest(backups[..], log.value, types.value, times);
    r := Some(times);
  }

  ghost predicate Fails(log: Option<seq<Backup>>, types: Option<Types>) {
    log.None? || (log.value != [] && types.None?)
  }

  function TypesOf(types: Option<Types>): Types {
    if types.Some? then types.value else map[]
  }

  lemma SameLatest(s: seq<Backup>, s': seq<Backup>, types: Types, r: Times)
    requires multiset(s) == multiset(s') && AreLatest(s, types, r)
    ensures AreLatest(s', types, r)
  {
    assert forall b :: b in s <==> b in multiset(s);
    assert forall b :: b in s' <==> b in multiset(s');
    assert forall b :: b in s <==> b in s';
  }

  // ----- the oldest backups of all tenants ----------------------------------

  datatype Tenant = Tenant(name: string, log: Option<seq<Backup>>, types: Option<Types>)

  /** For every kind of backup the tenant whose last one is oldest, and when it was. */
  datatype Results = Results(fullTenant: string, fullTime: string, deltaTenant: string, deltaTime: string,
                             snapshotTenant: string, snapshotTime: string)

  const NO_RESULTS := Results("", "", "", "", "", "")

  /**
   * The oldest of some times that are before now, and the first tenant that has
   * it; now and no tenant if there is none.
   */
  ghost predicate IsOldest(tenants: seq<Tenant>, times: seq<int>, now: int, oldest: int, name: string)
    requires |times| <= |tenants|
  {
    && oldest <= now && (forall i :: 0 <= i < |times| ==> oldest <= times[i])
    && if oldest == now then name == ""
       else exists i :: IsFirst(times, i, oldest) && name == tenants[i].name
  }

  ghost predicate IsFirst(times: seq<int>, i: int, t: int) {
    0 <= i < |times| && times[i] == t && forall j :: 0 <= j < i ==> t < times[j]
  }

  lemma OldestStep(tenants: seq<Tenant>, times: seq<int>, now: int, oldest: int, name: string, time: int)
    requires |times| < |tenants| && IsOldest(tenants, times, now, oldest, name)
    ensures if time < oldest then IsOldest(tenants, times + [time], now, time, tenants[|times|].name)
            else IsOldest(tenants, times + [time], now, oldest, name)
  {
    var longer := times + [time];
    assert forall j :: 0 <= j < |times| ==> longer[j] == times[j];
    if time < oldest {
      assert IsFirst(longer, |times|, time);
    } else if oldest != now {
      var i :| IsFirst(times, i, oldest) && name == tenants[i].name;
      assert IsFirst(longer, i, oldest);
    }
  }

  function Fulls(ts: seq<Times>): seq<int> { seq(|ts|, i requires 0 <= i < |ts| => ts[i].full) }
  function Deltas(ts: seq<Times>): seq<int> { seq(|ts|, i requires 0 <= i < |ts| => ts[i].delta) }
  function Snapshots(ts: seq<Times>): seq<int> { seq(|ts|, i requires 0 <= i < |ts| => ts[i].snapshot) }

  /** The times of tenants whose logs can be read. */
  ghost predicate Fetched(tenants: seq<Tenant>, ts: seq<Times>) {
    |ts| <= |tenants| && forall i :: 0 <= i < |ts| ==> HasTimes(tenants[i], ts[i])
  }

  ghost predicate HasTimes(tenant: Tenant, t: Times) {
    !Fails(tenant.log, tenant.types) && AreLatest(tenant.log.value, TypesOf(tenant.types), t)
  }

  lemma FetchedSnoc(tenants: seq<Tenant>, ts: seq<Times>, t: Times)
    requires |ts| < |tenants| && Fetched(tenants, ts) && HasTimes(tenants[|ts|], t)
    ensures Fetched(tenants, ts + [t])
  {
  }

  /** A moment for every kind of backup, and the tenant that goes with it. */
  datatype Oldest = Oldest(times: Times, full: string, delta: string, snapshot: string)

  ghost predicate AreOldest(tenants: seq<Tenant>, ts: seq<Times>, now: Times, o: Oldest) {
    && |ts| <= |tenants|
    && IsOldest(tenants, Fulls(ts), now.full, o.times.full, o.full)
    && IsOldest(tenants, Deltas(ts), now.delta, o.times.delta, o.delta)
    && IsOldest(tenants, Snapshots(ts), now.snapshot, o.times.snapshot, o.snapshot)
  }

  /** Takes the times of one more tenant into account. */
  method TakeTenant(tenants: seq<Tenant>, ghost ts: seq<Times>, ghost now: Times, o: Oldest, name: string,
                    t: Times) returns (next: Oldest)
    requires |ts| < |tenants| && AreOldest(tenants, ts, now, o) && name == tenants[|ts|].name
    ensures AreOldest(tenants, ts + [t], now, next)
  {
    OldestStep(tenants, Fulls(ts), now.full, o.times.full, o.full, t.full);
    OldestStep(tenants, Deltas(ts), now.delta, o.times.delta, o.delta, t.delta);
    OldestStep(tenants, Snapshots(ts), now.snapshot, o.times.snapshot, o.snapshot, t.snapshot);
    assert Fulls(ts + [t]) == Fulls(ts) + [t.full];
    assert Deltas(ts + [t]) == Deltas(ts) + [t.delta];
    assert Snapshots(ts + [t]) == Snapshots(ts) + [t.snapshot];
    next := o;
    if t.full < o.times.full {
      next := next.(times := next.times.(full := t.full), full := name);
    }
    if t.delta < o.times.delta {
      next := next.(times := next.times.(delta := t.delta), delta := name);
    }
    if t.snapshot < o.times.snapshot {
      next := next.(times := next.times.(snapshot := t.snapshot), snapshot := name);
    }
  }

  /** The first tenant whose logs cannot be read is named for all three kinds, without a time. */
  function FailedResults(t: Tenant): Results {
    Results(t.name, "", t.name, "", t.name, "")
  }

  /** How a time is printed is a parameter. */
  function OldestResults(o: Oldest, format: int -> string): Results {
    Results(o.full, format(o.times.full), o.delta, format(o.times.delta), o.snapshot, format(o.times.snapshot))
  }

  /** The tenants with the oldest last backups. */
  method HanaBackupMetrics(tenants: seq<Tenant>, now: Times, format: int -> string)
    returns (results: Results, ghost ts: seq<Times>, o: Oldest)
    ensures Fetched(tenants, ts)
    ensures tenants == [] ==> results == NO_RESULTS
    ensures |ts| < |tenants| ==>
      var n := tenants[|ts|].name;
      && Fails(tenants[|ts|].log, tenants[|ts|].types)
      && results.fullTenant == n && results.deltaTenant == n && results.snapshotTenant == n
      && results.fullTime == "" && results.deltaTime == "" && results.snapshotTime == ""
    ensures tenants != [] && |ts| == |tenants| ==>
      && IsOldest(tenants, seq(|ts|, i requires 0 <= i < |ts| => ts[i].full), now.full, o.times.full, results.fullTenant)
      && IsOldest(tenants, seq(|ts|, i requires 0 <= i < |ts| => ts[i].delta), now.delta, o.times.delta, results.deltaTenant)
      && IsOldest(tenants, seq(|ts|, i requires 0 <= i < |ts| => ts[i].snapshot), now.snapshot, o.times.snapshot, results.snapshotTenant)
      && results.fullTime == format(o.times.full) && results.deltaTime == format(o.times.delta)
      && results.snapshotTime == format(o.times.snapshot)
  {
    results, ts, o := NO_RESULTS, [], Oldest(now, "", "", "");
    if |tenants| == 0 {
      return;
    }
    for i := 0 to |tenants|
      invariant |ts| == i && Fetched(tenants, ts) && AreOldest(tenants, ts, now, o)
    {
      var r := FetchLastBackupTimestamps(tenants[i].log, tenants[i].types);
      if r.None? {
        results := FailedResults(tenants[i]);
        return;
      }
      assert HasTimes(tenants[i], r.value);
      FetchedSnoc(tenants, ts, r.value);
      o := TakeTenant(tenants, ts, now, o, tenants[i].name, r.value);
      ts := ts + [r.value];
    }
    results := OldestResults(o, format);
    assert Fulls(ts) == seq(|ts|, i requires 0 <= i < |ts| => ts[i].full);
    assert Deltas(ts) == seq(|ts|, i requires 0 <= i < |ts| => ts[i].delta);
    assert Snapshots(ts) == seq(|ts|, i requires 0 <= i < |ts| => ts[i].snapshot);
  }
}
