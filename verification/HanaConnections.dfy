/**
 * Connecting to the monitored HANA databases, and retrying until all are
 * connected (internal/hanamonitoring/hanamonitoring.go).
 */
module HanaConnections {
  import opened Common

  datatype Instance = Instance(host: string, user: string, port: string)

  /** How an attempt to connect turned out. */
  datatype Outcome = Connected | AuthError | OtherError

  /** An attempt to connect to the instance with the given index and key. */
  datatype Attempt = Attempt(instance: int, key: string, outcome: Outcome)

  /** What the retry loop waits for: a tick, with the outcome of every attempt the pass may make, or cancellation. */
  datatype Event = Cancel | Tick(outcomes: int -> Outcome)

  datatype Exit = Cancelled | AllConnected | StillRetrying

  function Key(i: Instance): string {
    i.host + ":" + i.user + ":" + i.port
  }

  ghost predicate Has(trace: seq<Attempt>, k: string, o: Outcome) {
    exists i :: 0 <= i < |trace| && trace[i].key == k && trace[i].outcome == o
  }

  /** A key is settled once an attempt connected or failed to authenticate. */
  ghost predicate Settled(trace: seq<Attempt>, k: string) {
    Has(trace, k, Connected) || Has(trace, k, AuthError)
  }

  /** The attempts of a pass over the first `n` instances, after those in `trace`. */
  ghost function Pass(instances: seq<Instance>, outcomes: int -> Outcome, trace: seq<Attempt>, n: nat): seq<Attempt>
    requires n <= |instances|
  {
    if n == 0 then trace
    else
      Tried(Pass(instances, outcomes, trace, n - 1), n - 1, Key(instances[n - 1]), outcomes(n - 1))
  }

  /** The attempts after an instance had its turn: one more, unless its key is settled. */
  ghost function Tried(trace: seq<Attempt>, i: int, k: string, o: Outcome): seq<Attempt> {
    if Settled(trace, k) then trace else trace + [Attempt(i, k, o)]
  }

  /** Whether the first `n` events are ticks. */
  ghost predicate Ticks(events: seq<Event>, n: nat) {
    n <= |events| && forall i :: 0 <= i < n ==> events[i].Tick?
  }

  /** The attempts of a first pass and of the passes of the first `n` events. */
  ghost function Attempts(instances: seq<Instance>, first: int -> Outcome, events: seq<Event>, n: nat): seq<Attempt>
    requires Ticks(events, n)
  {
    if n == 0 then Pass(instances, first, [], |instances|)
    else Pass(instances, events[n - 1].outcomes, Attempts(instances, first, events, n - 1), |instances|)
  }

  /** The instances that attempts connected to, in order. */
  function Databases(trace: seq<Attempt>): seq<int> {
    if trace == [] then []
    else Databases(trace[..|trace| - 1])
         + if trace[|trace| - 1].outcome == Connected then [trace[|trace| - 1].instance] else []
  }

  // ----- properties of all runs ---------------------------------------------

  /** No key is tried again after an attempt that connected or failed to authenticate. */
  ghost predicate NeverAgain(trace: seq<Attempt>) {
    forall i, j :: 0 <= i < j < |trace| && trace[i].key == trace[j].key ==> trace[i].outcome == OtherError
  }

  lemma {:induction false} PassNeverAgain(instances: seq<Instance>, outcomes: int -> Outcome, trace: seq<Attempt>, n: nat)
    requires n <= |instances| && NeverAgain(trace)
    ensures NeverAgain(Pass(instances, outcomes, trace, n)) && trace <= Pass(instances, outcomes, trace, n)
  {
    if n > 0 {
      PassNeverAgain(instances, outcomes, trace, n - 1);
      var t, k := Pass(instances, outcomes, trace, n - 1), Key(instances[n - 1]);
      assert forall i :: 0 <= i < |t| && t[i].key == k && !Settled(t, k) ==> t[i].outcome == OtherError;
    }
  }

  /** Every attempt is for an instance, under its key. */
  ghost predicate Proper(instances: seq<Instance>, trace: seq<Attempt>) {
    forall i :: 0 <= i < |trace| ==> 0 <= trace[i].instance < |instances| && trace[i].key == Key(instances[trace[i].instance])
  }

  lemma {:induction false} PassProper(instances: seq<Instance>, outcomes: int -> Outcome, trace: seq<Attempt>, n: nat)
    requires n <= |instances| && Proper(instances, trace)
    ensures Proper(instances, Pass(instances, outcomes, trace, n))
  {
    if n > 0 {
      PassProper(instances, outcomes, trace, n - 1);
    }
  }

  /** A pass leaves no instance out: after it, every key is settled or has just failed once more. */
  lemma {:induction false} PassTriesAll(instances: seq<Instance>, outcomes: int -> Outcome, trace: seq<Attempt>, n: nat, i: nat)
    requires i < n <= |instances|
    ensures var t := Pass(instances, outcomes, trace, n);
      var k := Key(instances[i]);
      trace <= t && (Has(t, k, Connected) || Has(t, k, AuthError) || Has(t[|trace|..], k, OtherError))
  {
    var t, k := Pass(instances, outcomes, trace, n), Key(instances[i]);
    PassGrows(instances, outcomes, trace, n - 1);
    PassGrows(instances, outcomes, trace, n);
    var u := Pass(instances, outcomes, trace, n - 1);
    if i == n - 1 {
      if !Settled(u, k) {
        assert t == u + [Attempt(i, k, outcomes(i))];
        assert t[|u|].key == k && t[|trace|..][|u| - |trace|] == t[|u|];
      }
    } else {
      PassTriesAll(instances, outcomes, trace, n - 1, i);
      HasGrows(u, t, k);
      assert u[|trace|..] <= t[|trace|..];
      HasGrows(u[|trace|..], t[|trace|..], k);
    }
  }

  /** What a pass adds are attempts with the given outcomes, in the order of the instances. */
  ghost predicate InTurn(outcomes: int -> Outcome, trace: seq<Attempt>, t: seq<Attempt>, n: int) {
    && trace <= t
    && (forall i :: |trace| <= i < |t| ==> 0 <= t[i].instance < n && t[i].outcome == outcomes(t[i].instance))
    && forall i, j :: |trace| <= i < j < |t| ==> t[i].instance < t[j].instance
  }

  lemma {:induction false} PassInTurn(instances: seq<Instance>, outcomes: int -> Outcome, trace: seq<Attempt>, n: nat)
    requires n <= |instances|
    ensures InTurn(outcomes, trace, Pass(instances, outcomes, trace, n), n)
  {
    if n > 0 {
      PassInTurn(instances, outcomes, trace, n - 1);
    }
  }

  lemma {:induction false} PassGrows(instances: seq<Instance>, outcomes: int -> Outcome, trace: seq<Attempt>, n: nat)
    requires n <= |instances|
    ensures trace <= Pass(instances, outcomes, trace, n)
    ensures n > 0 ==> Pass(instances, outcomes, trace, n - 1) <= Pass(instances, outcomes, trace, n)
  {
    if n > 0 {
      PassGrows(instances, outcomes, trace, n - 1);
    }
  }

  lemma HasGrows(t: seq<Attempt>, u: seq<Attempt>, k: string)
    requires t <= u
    ensures forall o :: Has(t, k, o) ==> Has(u, k, o)
  {
    forall o | Has(t, k, o) ensures Has(u, k, o) {
      var i :| 0 <= i < |t| && t[i].key == k && t[i].outcome == o;
      assert u[i] == t[i];
    }
  }

  lemma {:induction false} RunIsSafe(instances: seq<Instance>, first: int -> Outcome, events: seq<Event>, n: nat)
    requires Ticks(events, n)
    ensures var t := Attempts(instances, first, events, n); NeverAgain(t) && Proper(instances, t)
  {
    if n == 0 {
      PassNeverAgain(instances, first, [], |instances|);
      PassProper(instances, first, [], |instances|);
    } else {
      RunIsSafe(instances, first, events, n - 1);
      PassNeverAgain(instances, events[n - 1].outcomes, Attempts(instances, first, events, n - 1), |instances|);
      PassProper(instances, events[n - 1].outcomes, Attempts(instances, first, events, n - 1), |instances|);
    }
  }

  /** A key never both connects and fails to authenticate. */
  lemma Disjoint(trace: seq<Attempt>, k: string)
    requires NeverAgain(trace)
    ensures !(Has(trace, k, Connected) && Has(trace, k, AuthError))
  {
    forall i, j | 0 <= i < |trace| && 0 <= j < |trace| && trace[i].key == trace[j].key == k
      ensures !(trace[i].outcome == Connected && trace[j].outcome == AuthError)
    {
      assert i == j || i < j || j < i;
    }
  }

  lemma {:induction false} DatabasesConnected(instances: seq<Instance>, trace: seq<Attempt>)
    requires Proper(instances, trace)
    ensures forall d :: d in Databases(trace) ==> 0 <= d < |instances| && Has(trace, Key(instances[d]), Connected)
  {
    if trace != [] {
      var init := trace[..|trace| - 1];
      DatabasesConnected(instances, init);
      forall d | d in Databases(trace) ensures 0 <= d < |instances| && Has(trace, Key(instances[d]), Connected) {
        if d in Databases(init) {
          HasGrows(init, trace, Key(instances[d]));
        } else {
          assert trace[|trace| - 1].key == Key(instances[d]);
        }
      }
    }
  }

  /** The databases have different keys. */
  ghost predicate DistinctDatabases(instances: seq<Instance>, databases: seq<int>) {
    && (forall d :: d in databases ==> 0 <= d < |instances|)
    && forall i, j :: 0 <= i < j < |databases| ==> databases[i] in databases && databases[j] in databases
                                                   && Key(instances[databases[i]]) != Key(instances[databases[j]])
  }

  /** Every key yields at most one database, and yields one exactly when it is connected. */
  lemma {:induction false} OneDatabasePerKey(instances: seq<Instance>, trace: seq<Attempt>)
    requires NeverAgain(trace) && Proper(instances, trace)
    ensures DistinctDatabases(instances, Databases(trace))
    ensures forall k :: Has(trace, k, Connected) <==> exists d :: d in Databases(trace) && Key(instances[d]) == k
  {
    if trace != [] {
      var init, last := trace[..|trace| - 1], trace[|trace| - 1];
      OneDatabasePerKey(instances, init);
      DatabasesConnected(instances, init);
      assert trace == init + [last];
      NotYetConnected(init, last);
      HasSnoc(init, last);
      if last.outcome == Connected {
        OneMoreDatabase(instances, init, last);
      }
    }
  }

  lemma NotYetConnected(init: seq<Attempt>, last: Attempt)
    requires NeverAgain(init + [last])
    ensures !Has(init, last.key, Connected)
  {
    var trace := init + [last];
    forall i | 0 <= i < |init| && init[i].key == last.key ensures init[i].outcome == OtherError {
      assert trace[i] == init[i] && trace[|init|] == last;
    }
  }

  /** The database of a newly connected key. */
  lemma OneMoreDatabase(instances: seq<Instance>, init: seq<Attempt>, last: Attempt)
    requires 0 <= last.instance < |instances| && Key(instances[last.instance]) == last.key && last.outcome == Connected
    requires DistinctDatabases(instances, Databases(init)) && !Has(init, last.key, Connected)
    requires forall k :: Has(init, k, Connected) <==> exists d :: d in Databases(init) && Key(instances[d]) == k
    ensures Databases(init + [last]) == Databases(init) + [last.instance]
    ensures DistinctDatabases(instances, Databases(init + [last]))
    ensures forall k :: Has(init, k, Connected) || k == last.key
                   <==> exists d :: d in Databases(init + [last]) && Key(instances[d]) == k
  {
    DatabasesSnoc(init, last);
    var dbs := Databases(init);
    forall k | Has(init, k, Connected) || k == last.key
      ensures exists d :: d in dbs + [last.instance] && Key(instances[d]) == k
    {
      if k == last.key {
        assert last.instance in dbs + [last.instance];
      } else {
        var d :| d in dbs && Key(instances[d]) == k;
        assert d in dbs + [last.instance];
      }
    }
  }

  /**
   * Over every run of passes with arbitrary outcomes, no key is tried again after
   * it connected or failed to authenticate, none does both, and every connected key has one database.
   */
  lemma EveryRun(instances: seq<Instance>, first: int -> Outcome, events: seq<Event>, n: nat)
    requires Ticks(events, n)
    ensures var t := Attempts(instances, first, events, n);
      && NeverAgain(t) && DistinctDatabases(instances, Databases(t))
      && (forall k :: !(Has(t, k, Connected) && Has(t, k, AuthError)))
      && (forall k :: Has(t, k, Connected) <==> exists d :: d in Databases(t) && Key(instances[d]) == k)
  {
    var t := Attempts(instances, first, events, n);
    RunIsSafe(instances, first, events, n);
    OneDatabasePerKey(instances, t);
    forall k ensures !(Has(t, k, Connected) && Has(t, k, AuthError)) {
      Disjoint(t, k);
    }
  }

  /** Once an instance fails to authenticate, its key is never connected in any later pass. */
  lemma AuthErrorForGood(instances: seq<Instance>, first: int -> Outcome, events: seq<Event>, m: nat, n: nat, k: string)
    requires m <= n && Ticks(events, n)
    requires Has(Attempts(instances, first, events, m), k, AuthError)
    ensures !Has(Attempts(instances, first, events, n), k, Connected)
    ensures Attempts(instances, first, events, m) <= Attempts(instances, first, events, n)
  {
    RunGrows(instances, first, events, m, n);
    HasGrows(Attempts(instances, first, events, m), Attempts(instances, first, events, n), k);
    RunIsSafe(instances, first, events, n);
    Disjoint(Attempts(instances, first, events, n), k);
  }

  /** Attempts are only added, so that a connected key stays connected. */
  lemma {:induction false} RunGrows(instances: seq<Instance>, first: int -> Outcome, events: seq<Event>, m: nat, n: nat)
    requires m <= n && Ticks(events, n)
    ensures Attempts(instances, first, events, m) <= Attempts(instances, first, events, n)
    decreases n
  {
    if m < n {
      RunGrows(instances, first, events, m, n - 1);
      PassGrows(instances, events[n - 1].outcomes, Attempts(instances, first, events, n - 1), |instances|);
    }
  }

  // ----- keys of different instances ----------------------------------------

  /** Instances have one key exactly if host, user and port are the same, unless a host or a user has a colon. */
  lemma KeyExactly(a: Instance, b: Instance)
    requires ':' !in a.host && ':' !in a.user && ':' !in b.host && ':' !in b.user
    ensures Key(a) == Key(b) <==> a.host == b.host && a.user == b.user && a.port == b.port
  {
    var x, y := a.user + ":" + a.port, b.user + ":" + b.port;
    assert Key(a) == a.host + ":" + x && Key(b) == b.host + ":" + y;
    if Key(a) == Key(b) {
      UpToColon(a.host, x, b.host, y);
      UpToColon(a.user, a.port, b.user, b.port);
    }
  }

  lemma UpToColon(a: string, x: string, b: string, y: string)
    requires a + ":" + x == b + ":" + y && ':' !in a && ':' !in b
    ensures a == b && x == y
  {
    var s := a + ":" + x;
    assert s[|a|] == ':' && s[|b|] == ':';
    assert forall i :: 0 <= i < |a| ==> s[i] == a[i];
    assert forall i :: 0 <= i < |b| ==> s[i] == b[i];
    assert |a| == |b|;
    assert s[..|a|] == a && s[..|b|] == b && s[|a| + 1..] == x && s[|b| + 1..] == y;
  }

  /** So an attempt settles such an instance, or tells anything about it, only if it is for the same host, user and port. */
  lemma SettledIndependently(instances: seq<Instance>, trace: seq<Attempt>, i: nat, j: nat, o: Outcome)
    requires i < |instances| && j < |instances| && forall x :: x in instances ==> ':' !in x.host && ':' !in x.user
    requires var a, b := instances[i], instances[j]; a.host != b.host || a.user != b.user || a.port != b.port
    ensures var k, t := Key(instances[j]), trace + [Attempt(i, Key(instances[i]), o)];
      (Settled(t, k) <==> Settled(trace, k)) && forall r :: Has(t, k, r) <==> Has(trace, k, r)
  {
    KeyExactly(instances[i], instances[j]);
    HasSnoc(trace, Attempt(i, Key(instances[i]), o));
  }

  // ----- the operations -----------------------------------------------------

  ghost predicate AllKeysConnected(instances: seq<Instance>, trace: seq<Attempt>) {
    forall i :: 0 <= i < |instances| ==> Has(trace, Key(instances[i]), Connected)
  }

  ghost predicate IsKey(instances: seq<Instance>, k: string) {
    exists i :: 0 <= i < |instances| && Key(instances[i]) == k
  }

  /** The two maps record how the attempts turned out. */
  ghost predicate Tracks(instances: seq<Instance>, connectedDBs: map<string, bool>, authErrorDBs: map<string, bool>,
                         trace: seq<Attempt>) {
    && (forall k :: k in connectedDBs <==> IsKey(instances, k))
    && (forall k :: k in connectedDBs ==> (connectedDBs[k] <==> Has(trace, k, Connected)))
    && (forall k :: k in authErrorDBs <==> Has(trace, k, AuthError))
  }

  lemma TracksSnoc(instances: seq<Instance>, c: map<string, bool>, e: map<string, bool>, trace: seq<Attempt>, a: Attempt)
    requires Tracks(instances, c, e, trace) && IsKey(instances, a.key)
    ensures Tracks(instances, if a.outcome == Connected then c[a.key := true] else c,
                   if a.outcome == AuthError then e[a.key := true] else e, trace + [a])
  {
    HasSnoc(trace, a);
  }

  lemma DatabasesSnoc(trace: seq<Attempt>, a: Attempt)
    ensures Databases(trace + [a]) == Databases(trace) + if a.outcome == Connected then [a.instance] else []
  {
    assert (trace + [a])[..|trace|] == trace;
  }

  /** The first `n` instances of a pass were visited, which connected the given databases. */
  ghost predicate Passed(instances: seq<Instance>, outcomes: int -> Outcome, before: seq<Attempt>, n: nat,
                         trace: seq<Attempt>, databases: seq<int>)
    requires n <= |instances|
  {
    trace == Pass(instances, outcomes, before, n) && Databases(trace) == Databases(before) + databases
  }

  lemma PassedNext(instances: seq<Instance>, outcomes: int -> Outcome, before: seq<Attempt>, i: nat,
                   trace: seq<Attempt>, databases: seq<int>, more: seq<int>)
    requires i < |instances| && Passed(instances, outcomes, before, i, trace, databases)
    requires Databases(Tried(trace, i, Key(instances[i]), outcomes(i))) == Databases(trace) + more
    ensures Passed(instances, outcomes, before, i + 1, Tried(trace, i, Key(instances[i]), outcomes(i)), databases + more)
  {
    Regroup(Databases(before), databases, more);
  }

  class Connections {
    const instances: seq<Instance>
    var connectedDBs: map<string, bool>
    var authErrorDBs: map<string, bool>
    /** All attempts so far. */
    ghost var trace: seq<Attempt>

    ghost predicate Valid()
      reads this
    {
      Tracks(instances, connectedDBs, authErrorDBs, trace)
    }

    constructor (instances: seq<Instance>)
      ensures Valid() && this.instances == instances && trace == []
    {
      this.instances := instances;
      connectedDBs, authErrorDBs, trace := map[], map[], [];
      new;
      for i := 0 to |instances|
        invariant this.instances == instances && trace == [] && authErrorDBs == map[]
        invariant forall j :: 0 <= j < i ==> Key(instances[j]) in connectedDBs
        invariant forall k :: k in connectedDBs ==> !connectedDBs[k] && IsKey(instances, k)
      {
        connectedDBs := connectedDBs[Key(instances[i]) := false];
      }
    }

    /** Tries to connect to an instance, unless its key is settled. */
    method Connect(i: nat, outcome: Outcome) returns (connected: bool)
      requires Valid() && i < |instances|
      modifies this
      ensures Valid()
      ensures trace == Tried(old(trace), i, Key(instances[i]), outcome)
      ensures Databases(trace) == Databases(old(trace)) + if connected then [i] else []
    {
      var k := Key(instances[i]);
      assert IsKey(instances, k);
      if k in connectedDBs && connectedDBs[k] {
        return false;
      }
      if k in authErrorDBs {
        return false;
      }
      ghost var a := Attempt(i, k, outcome);
      TracksSnoc(instances, connectedDBs, authErrorDBs, trace, a);
      DatabasesSnoc(trace, a);
      trace := trace + [a];
      if outcome != Connected {
        if outcome == AuthError {
          authErrorDBs := authErrorDBs[k := true];
        }
        return false;
      }
      connectedDBs := connectedDBs[k := true];
      connected := true;
    }

    /** One instance of a pass. */
    method ConnectNext(outcomes: int -> Outcome, i: nat, before: seq<int>, ghost trace0: seq<Attempt>) returns (databases: seq<int>)
      requires Valid() && i < |instances| && Passed(instances, outcomes, trace0, i, trace, before)
      modifies this
      ensures Valid() && Passed(instances, outcomes, trace0, i + 1, trace, databases)
    {
      ghost var t := trace;
      databases := before;
      var connected := Connect(i, outcomes(i));
      if connected {
        databases := databases + [i];
      }
      PassedNext(instances, outcomes, trace0, i, t, before, if connected then [i] else []);
    }

    /** One pass over the instances. */
    method ConnectToDatabases(outcomes: int -> Outcome) returns (databases: seq<int>)
      requires Valid()
      modifies this
      ensures Valid() && trace == Pass(instances, outcomes, old(trace), |instances|)
      ensures Databases(trace) == Databases(old(trace)) + databases
    {
      databases := [];
      ghost var before := trace;
      for i := 0 to |instances|
        invariant Valid() && Passed(instances, outcomes, before, i, trace, databases)
      {
        databases := ConnectNext(outcomes, i, databases, before);
      }
    }

    /**
     * The first pass, then a pass per tick, until all keys are connected or the
     * context is cancelled. Gives the databases that were connected, how many
     * events were used, and why the loop ended, if it did.
     */
    method CreateWorkerPool(first: int -> Outcome, events: seq<Event>) returns (databases: seq<int>, n: nat, exit: Exit)
      requires Valid() && trace == []
      modifies this
      ensures Valid() && Ran(instances, first, events, n, trace, databases)
      ensures exit == Cancelled ==> n < |events| && events[n].Cancel?
      ensures exit == StillRetrying ==> n == |events|
      ensures exit == AllConnected <==> n > 0 && AllKeysConnected(instances, trace)
    {
      databases := ConnectToDatabases(first);
      n := 0;
      while n < |events|
        invariant Valid() && Ran(instances, first, events, n, trace, databases)
        invariant n > 0 ==> !AllKeysConnected(instances, trace)
      {
        if events[n].Cancel? {
          return databases, n, Cancelled;
        }
        ghost var before := trace;
        var more, retry := Retry(first, events, n);
        RanStep(instances, first, events, n, before, databases, more);
        databases := databases + more;
        n := n + 1;
        if !retry {
          return databases, n, AllConnected;
        }
      }
      exit := StillRetrying;
    }

    /** The pass of a tick, and whether some key is still not connected. */
    method Retry(ghost first: int -> Outcome, events: seq<Event>, n: nat) returns (more: seq<int>, retry: bool)
      requires Valid() && n < |events| && Ticks(events, n + 1) && trace == Attempts(instances, first, events, n)
      modifies this
      ensures Valid() && trace == Attempts(instances, first, events, n + 1)
      ensures Databases(trace) == Databases(old(trace)) + more && retry == !AllKeysConnected(instances, trace)
    {
      more := ConnectToDatabases(events[n].outcomes);
      AllTrueExactly(instances, connectedDBs, authErrorDBs, trace);
      retry := exists k :: k in connectedDBs && !connectedDBs[k];
    }
  }

  /**
   * The state after the passes of the first `n` events. No pass of an earlier
   * event left all keys connected.
   */
  ghost predicate Ran(instances: seq<Instance>, first: int -> Outcome, events: seq<Event>, n: nat,
                      trace: seq<Attempt>, databases: seq<int>)
  {
    && Ticks(events, n) && trace == Attempts(instances, first, events, n) && databases == Databases(trace)
    && forall m :: 1 <= m < n && Ticks(events, m) ==> !AllKeysConnected(instances, Attempts(instances, first, events, m))
  }

  lemma RanStep(instances: seq<Instance>, first: int -> Outcome, events: seq<Event>, n: nat,
                trace: seq<Attempt>, databases: seq<int>, more: seq<int>)
    requires Ran(instances, first, events, n, trace, databases) && Ticks(events, n + 1)
    requires n > 0 ==> !AllKeysConnected(instances, trace)
    requires var next := Attempts(instances, first, events, n + 1); Databases(next) == databases + more
    ensures var next := Attempts(instances, first, events, n + 1); Ran(instances, first, events, n + 1, next, databases + more)
  {
  }

  lemma AllTrueExactly(instances: seq<Instance>, c: map<string, bool>, e: map<string, bool>, trace: seq<Attempt>)
    requires Tracks(instances, c, e, trace)
    ensures (forall k :: k in c ==> c[k]) <==> AllKeysConnected(instances, trace)
  {
    if forall k :: k in c ==> c[k] {
      forall i | 0 <= i < |instances| ensures Has(trace, Key(instances[i]), Connected) {
        assert IsKey(instances, Key(instances[i]));
      }
    }
  }

  lemma HasSnoc(t: seq<Attempt>, a: Attempt)
    ensures forall k, o :: Has(t + [a], k, o) <==> Has(t, k, o) || (a.key == k && a.outcome == o)
  {
    forall k, o ensures Has(t + [a], k, o) <==> Has(t, k, o) || (a.key == k && a.outcome == o) {
      HasGrows(t, t + [a], k);
      assert (t + [a])[|t|] == a;
      assert forall i :: 0 <= i < |t| ==> (t + [a])[i] == t[i];
    }
  }

  /** With an instance that fails to authenticate, the retry loop goes on until it is cancelled. */
  lemma AuthErrorRetriesForever(instances: seq<Instance>, first: int -> Outcome, events: seq<Event>, m: nat, n: nat, i: nat)
    requires m <= n && Ticks(events, n) && i < |instances|
    requires Has(Attempts(instances, first, events, m), Key(instances[i]), AuthError)
    ensures !AllKeysConnected(instances, Attempts(instances, first, events, n))
  {
    AuthErrorForGood(instances, first, events, m, n, Key(instances[i]));
  }
}
