/**
 * The locks of the heartbeat monitor never deadlock, and every call finishes
 * (internal/heartbeat/heartbeat.go).
 */
module HeartbeatProgress {
  import opened HeartbeatLocks

  // ----- no deadlock --------------------------------------------------------

  /** Whether some goroutine inside a call can take a step. */
  ghost predicate CanProgress(s: State) {
    exists t: nat, c :: Enabled(s, t, c) && s.threads[t] != Idle
  }

  lemma Progress(s: State, t: nat, c: Choice)
    requires Enabled(s, t, c) && s.threads[t] != Idle
    ensures CanProgress(s)
  {
  }

  /** A goroutine that has the lock it needs can go on. */
  lemma Unhindered(s: State, t: nat)
    requires t < |s.threads| && s.threads[t] != Idle && Known(s, s.threads[t])
    requires (s.threads[t].Named() ==> s.threads[t].name in s.entries) && Unblocked(s, s.threads[t])
    ensures CanProgress(s)
  {
    var x := s.threads[t];
    if (x.TickScans? || x.StatusScans?) && x.todo != {} {
      var n :| n in x.todo;
      Progress(s, t, Visit(n));
    } else {
      Progress(s, t, Proceed);
    }
  }

  /** Whoever holds a registration's lock can go on; a lock that nobody holds can be taken by somebody who waits for it. */
  lemma EntryProgress(s: State, n: string, t: nat)
    requires Guarded(s) && t < |s.threads| && s.threads[t].Named() && s.threads[t].name == n
    ensures CanProgress(s)
  {
    assert Known(s, s.threads[t]);
    var l := s.entries[n].lock;
    var roles := EntryRoles(s, n);
    assert Matches(l, roles);
    if !l.Free() {
      var holder :| holder in l.writers || holder in l.readers;
      assert roles[holder] == s.threads[holder].EntryRole(n) && Known(s, s.threads[holder]);
      Unhindered(s, holder);
    } else if l.waiting != {} {
      var waiter :| waiter in l.waiting;
      assert roles[waiter] == s.threads[waiter].EntryRole(n) && Known(s, s.threads[waiter]);
      Unhindered(s, waiter);
    } else {
      assert roles[t] == s.threads[t].EntryRole(n);
      Unhindered(s, t);
    }
  }

  /** A goroutine that is inside a call but at no registration can go on, or somebody else can. */
  lemma MonitorProgress(s: State, t: nat)
    requires Guarded(s) && t < |s.threads| && s.threads[t] != Idle && !s.threads[t].Named()
    ensures CanProgress(s)
  {
    assert Known(s, s.threads[t]);
    var roles := MonitorRoles(s);
    if !s.lock.Free() {
      var holder :| holder in s.lock.writers || holder in s.lock.readers;
      assert roles[holder] == s.threads[holder].MonitorRole();
      HolderProgress(s, holder);
    } else if s.lock.waiting != {} {
      var waiter :| waiter in s.lock.waiting;
      assert roles[waiter] == s.threads[waiter].MonitorRole() && Known(s, s.threads[waiter]);
      Unhindered(s, waiter);
    } else {
      assert roles[t] == s.threads[t].MonitorRole();
      Unhindered(s, t);
    }
  }

  lemma HolderProgress(s: State, t: nat)
    requires Guarded(s) && t < |s.threads| && (s.threads[t].MonitorRole() == Writing || s.threads[t].MonitorRole() == Reading)
    ensures CanProgress(s)
  {
    assert Known(s, s.threads[t]);
    if s.threads[t].Named() {
      EntryProgress(s, s.threads[t].name, t);
    } else {
      Unhindered(s, t);
    }
  }

  /**
   * Taking the monitor's lock before those of registrations never deadlocks: as
   * long as some call is not finished, some unfinished call can take a step.
   */
  lemma NoDeadlock(states: seq<State>, who: seq<nat>, choices: seq<Choice>, k: nat)
    requires Run(states, who, choices) && k < |states|
    requires exists t :: 0 <= t < |states[k].threads| && states[k].threads[t] != Idle
    ensures CanProgress(states[k])
  {
    RunIsGuarded(states, who, choices, k);
    var s := states[k];
    var t: nat :| t < |s.threads| && s.threads[t] != Idle;
    if s.threads[t].Named() {
      EntryProgress(s, s.threads[t].name, t);
    } else {
      MonitorProgress(s, t);
    }
  }

  // ----- every call finishes ------------------------------------------------

  predicate WillRegister(x: Thread) {
    x.RegisterWaits? || x.RegisterHolds? || x.RegisterAdds?
  }

  function Registering(threads: seq<Thread>): nat {
    if threads == [] then 0
    else Registering(threads[..|threads| - 1]) + if WillRegister(threads[|threads| - 1]) then 1 else 0
  }

  /** How many registrations there are once the calls under way have registered theirs. */
  function Names(s: State): nat {
    |s.entries.Keys| + Registering(s.threads)
  }

  /** A bound on the steps a goroutine has left in its call when there are at most `names` registrations. */
  function Left(x: Thread, names: nat): nat {
    match x
    case Idle => 0
    case RegisterWaits(_) => 4
    case RegisterHolds(_) => 3
    case RegisterAdds(_) => 2
    case RegisterEnds => 1
    case BeatWaits(_) => 3
    case BeatHolds(_) => 2
    case BeatEnds(_) => 1
    case TickWaits => 6 * names + 2
    case TickScans(todo) => 6 * |todo| + 1
    case TickWaitsFor(_, todo) => 6 * |todo| + 6
    case TickHolds(_, todo) => 6 * |todo| + 5
    case TickReads(_, todo) => 6 * |todo| + 4
    case TickWrites(_, todo, _) => 6 * |todo| + 3
    case TickLeaves(_, todo) => 6 * |todo| + 2
    case StatusWaits => 4 * names + 2
    case StatusScans(todo, _) => 4 * |todo| + 1
    case StatusWaitsFor(_, todo, _) => 4 * |todo| + 4
    case StatusHolds(_, todo, _) => 4 * |todo| + 3
    case StatusLeaves(_, todo, _) => 4 * |todo| + 2
  }

  function AllLeft(threads: seq<Thread>, names: nat): nat {
    if threads == [] then 0 else AllLeft(threads[..|threads| - 1], names) + Left(threads[|threads| - 1], names)
  }

  function One(x: Thread): nat {
    if WillRegister(x) then 1 else 0
  }

  lemma {:induction false} RegisteringUpdate(threads: seq<Thread>, t: nat, x: Thread)
    requires t < |threads|
    ensures Registering(threads[t := x]) - One(x) == Registering(threads) - One(threads[t])
  {
    var n := |threads| - 1;
    if t == n {
      assert threads[t := x][..n] == threads[..n];
    } else {
      assert threads[t := x][..n] == threads[..n][t := x];
      RegisteringUpdate(threads[..n], t, x);
    }
  }

  lemma {:induction false} FewerNames(threads: seq<Thread>, more: nat, fewer: nat)
    requires fewer <= more
    ensures AllLeft(threads, fewer) <= AllLeft(threads, more)
  {
    if threads != [] {
      FewerNames(threads[..|threads| - 1], more, fewer);
    }
  }

  lemma AllLeftSnoc(threads: seq<Thread>, x: Thread, names: nat)
    ensures AllLeft(threads + [x], names) == AllLeft(threads, names) + Left(x, names)
  {
    assert (threads + [x])[..|threads|] == threads;
  }

  lemma {:induction false} LeftUpdate(threads: seq<Thread>, t: nat, x: Thread, more: nat, fewer: nat)
    requires t < |threads| && fewer <= more && Left(x, fewer) < Left(threads[t], more)
    ensures AllLeft(threads[t := x], fewer) < AllLeft(threads, more)
  {
    var n := |threads| - 1;
    var init, last := threads[..n], threads[n];
    AllLeftSnoc(init, last, more);
    assert threads == init + [last];
    if t == n {
      FewerNames(init, more, fewer);
      AllLeftSnoc(init, x, fewer);
      assert threads[t := x] == init + [x];
    } else {
      LeftUpdate(init, t, x, more, fewer);
      AllLeftSnoc(init[t := x], last, fewer);
      assert threads[t := x] == init[t := x] + [last];
      assert Left(last, fewer) <= Left(last, more);
    }
  }

  /** The name that a goroutine adds was counted before. */
  lemma AddsCounted(s: State, t: nat, c: Choice)
    requires Enabled(s, t, c) && s.threads[t] != Idle
    ensures t < |Step(s, t, c).threads|
    ensures |Step(s, t, c).entries.Keys| + One(Step(s, t, c).threads[t]) <= |s.entries.Keys| + One(s.threads[t])
  {
    StepAdds(s, t, c);
    var x := s.threads[t];
    if x.RegisterAdds? {
      assert Step(s, t, c).entries.Keys == s.entries.Keys + {x.name};
    } else {
      NothingNew(s, t, c);
    }
  }

  lemma NothingNew(s: State, t: nat, c: Choice)
    requires Enabled(s, t, c) && s.threads[t] != Idle
    ensures t < |Step(s, t, c).threads| && (WillRegister(Step(s, t, c).threads[t]) ==> WillRegister(s.threads[t]))
  {
  }

  lemma NamesNeverGrow(s: State, t: nat, c: Choice)
    requires Enabled(s, t, c) && s.threads[t] != Idle
    ensures Names(Step(s, t, c)) <= Names(s)
  {
    var s' := Step(s, t, c);
    StepMovesMonitor(s, t, c);
    RegisteringUpdate(s.threads, t, s'.threads[t]);
    AddsCounted(s, t, c);
  }

  /** A step inside a call brings its goroutine nearer to the end. */
  lemma OwnLeft(s: State, t: nat, c: Choice, more: nat, fewer: nat)
    requires Enabled(s, t, c) && s.threads[t] != Idle && fewer <= more && |s.entries.Keys| <= more
    ensures t < |Step(s, t, c).threads| && Left(Step(s, t, c).threads[t], fewer) < Left(s.threads[t], more)
  {
    var x := s.threads[t];
    if x.InTick() {
      TickLeft(s, t, c, more, fewer);
    } else if x.InStatus() {
      StatusLeft(s, t, c, more, fewer);
    } else if x.InBeat() {
      assert Left(BeatStep(s, t, c).threads[t], fewer) < Left(x, more);
    } else {
      assert Left(RegisterStep(s, t, c).threads[t], fewer) < Left(x, more);
    }
  }

  lemma TickLeft(s: State, t: nat, c: Choice, more: nat, fewer: nat)
    requires Enabled(s, t, c) && s.threads[t].InTick() && fewer <= more && |s.entries.Keys| <= more
    ensures t < |TickStep(s, t, c).threads| && Left(TickStep(s, t, c).threads[t], fewer) < Left(s.threads[t], more)
  {
    var x := s.threads[t];
    if x.TickWaits? {
      TickWaitsLeft(s, t, c, more, fewer);
    } else if x.TickScans? {
      TickScansLeft(s, t, c, more, fewer);
    } else {
      TickVisitLeft(s, t, c, more, fewer);
    }
  }

  lemma TickWaitsLeft(s: State, t: nat, c: Choice, more: nat, fewer: nat)
    requires Enabled(s, t, c) && s.threads[t].TickWaits? && fewer <= more && |s.entries.Keys| <= more
    ensures t < |TickStep(s, t, c).threads| && Left(TickStep(s, t, c).threads[t], fewer) < Left(s.threads[t], more)
  {
    assert TickStep(s, t, c).threads[t] == TickScans(s.entries.Keys);
  }

  lemma TickScansLeft(s: State, t: nat, c: Choice, more: nat, fewer: nat)
    requires Enabled(s, t, c) && s.threads[t].TickScans? && fewer <= more && |s.entries.Keys| <= more
    ensures t < |TickStep(s, t, c).threads| && Left(TickStep(s, t, c).threads[t], fewer) < Left(s.threads[t], more)
  {
    var todo := s.threads[t].todo;
    if todo != {} {
      assert TickStep(s, t, c).threads[t] == TickWaitsFor(c.name, todo - {c.name});
    }
  }

  lemma TickVisitLeft(s: State, t: nat, c: Choice, more: nat, fewer: nat)
    requires Enabled(s, t, c) && s.threads[t].Increments() && s.threads[t].Named() && fewer <= more && |s.entries.Keys| <= more
    ensures t < |TickStep(s, t, c).threads| && Left(TickStep(s, t, c).threads[t], fewer) < Left(s.threads[t], more)
  {
    var x, x' := s.threads[t], TickStep(s, t, c).threads[t];
    assert x'.Increments() && x'.todo == x.todo;
  }

  lemma StatusLeft(s: State, t: nat, c: Choice, more: nat, fewer: nat)
    requires Enabled(s, t, c) && s.threads[t].InStatus() && fewer <= more && |s.entries.Keys| <= more
    ensures t < |StatusStep(s, t, c).threads| && Left(StatusStep(s, t, c).threads[t], fewer) < Left(s.threads[t], more)
  {
    var x := s.threads[t];
    if x.StatusWaits? {
      StatusWaitsLeft(s, t, c, more, fewer);
    } else if x.StatusScans? {
      StatusScansLeft(s, t, c, more, fewer);
    } else {
      StatusVisitLeft(s, t, c, more, fewer);
    }
  }

  lemma StatusWaitsLeft(s: State, t: nat, c: Choice, more: nat, fewer: nat)
    requires Enabled(s, t, c) && s.threads[t].StatusWaits? && fewer <= more && |s.entries.Keys| <= more
    ensures t < |StatusStep(s, t, c).threads| && Left(StatusStep(s, t, c).threads[t], fewer) < Left(s.threads[t], more)
  {
    assert StatusStep(s, t, c).threads[t] == StatusScans(s.entries.Keys, map[]);
  }

  lemma StatusScansLeft(s: State, t: nat, c: Choice, more: nat, fewer: nat)
    requires Enabled(s, t, c) && s.threads[t].StatusScans? && fewer <= more && |s.entries.Keys| <= more
    ensures t < |StatusStep(s, t, c).threads| && Left(StatusStep(s, t, c).threads[t], fewer) < Left(s.threads[t], more)
  {
    var todo := s.threads[t].todo;
    if todo != {} {
      assert StatusStep(s, t, c).threads[t] == StatusWaitsFor(c.name, todo - {c.name}, s.threads[t].statuses);
    }
  }

  lemma StatusVisitLeft(s: State, t: nat, c: Choice, more: nat, fewer: nat)
    requires Enabled(s, t, c) && s.threads[t].Reports() && s.threads[t].Named() && fewer <= more && |s.entries.Keys| <= more
    ensures t < |StatusStep(s, t, c).threads| && Left(StatusStep(s, t, c).threads[t], fewer) < Left(s.threads[t], more)
  {
    var x, x' := s.threads[t], StatusStep(s, t, c).threads[t];
    assert x'.Reports() && x'.todo == x.todo;
  }

  /** A step inside a call leaves fewer steps. */
  lemma StepTakesOne(s: State, t: nat, c: Choice)
    requires Enabled(s, t, c) && s.threads[t] != Idle
    ensures var s' := Step(s, t, c); AllLeft(s'.threads, Names(s')) < AllLeft(s.threads, Names(s))
  {
    var s' := Step(s, t, c);
    StepMovesMonitor(s, t, c);
    NamesNeverGrow(s, t, c);
    OwnLeft(s, t, c, Names(s), Names(s'));
    LeftUpdate(s.threads, t, s'.threads[t], Names(s), Names(s'));
  }

  /**
   * The calls under way take a bounded number of steps, however they are
   * scheduled. As they never deadlock, every one of them finishes.
   */
  lemma {:induction false} CallsFinish(states: seq<State>, who: seq<nat>, choices: seq<Choice>, k: nat)
    requires k < |states| == |who| + 1 == |choices| + 1
    requires forall i :: 0 <= i < k ==> Enabled(states[i], who[i], choices[i]) && states[i].threads[who[i]] != Idle
    requires forall i :: 0 <= i < k ==> states[i + 1] == Step(states[i], who[i], choices[i])
    ensures k + AllLeft(states[k].threads, Names(states[k])) <= AllLeft(states[0].threads, Names(states[0]))
  {
    if k > 0 {
      CallsFinish(states, who, choices, k - 1);
      assert states[k - 1 + 1] == Step(states[k - 1], who[k - 1], choices[k - 1]);
      StepTakesOne(states[k - 1], who[k - 1], choices[k - 1]);
    }
  }
}
