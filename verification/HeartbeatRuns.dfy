/**
 * What the counters and the answers of the heartbeat monitor are over whole runs
 * (internal/heartbeat/heartbeat.go). The increments of a run are counted by
 * looking at the run, apart from the counters.
 */
module HeartbeatRuns {
  import opened Heartbeat
  import opened HeartbeatLocks

  /**
   * What has happened so far in a run: for every name the number of visits by
   * incrementAll since the registration or the last beat, and since the
   * registration, and for every goroutine the latter as its incrementAll began.
   */
  datatype History = History(since: map<string, nat>, ticks: map<string, nat>, begun: map<nat, map<string, nat>>)

  const NOTHING := History(map[], map[], map[])

  function OneMore(m: map<string, nat>, n: string): map<string, nat> {
    if n in m then m[n := m[n] + 1] else m
  }

  /** What a step of goroutine `t` adds: a visit of incrementAll counts when the goroutine is done with the counter. */
  function Observe(h: History, s: State, s': State, t: nat): History
    requires t < |s.threads| && t < |s'.threads|
  {
    var x, x' := s.threads[t], s'.threads[t];
    if x.RegisterAdds? then h.(since := h.since[x.name := 0], ticks := h.ticks[x.name := 0])
    else if x.BeatHolds? then h.(since := h.since[x.name := 0])
    else if x.TickWaits? then h.(begun := h.begun[t := h.ticks])
    else if x'.TickLeaves? then h.(since := OneMore(h.since, x'.name), ticks := OneMore(h.ticks, x'.name))
    else h
  }

  /** What has happened in a run before its `k`th state. */
  ghost function Past(states: seq<State>, who: seq<nat>, choices: seq<Choice>, k: nat): History
    requires Run(states, who, choices) && k < |states|
  {
    if k == 0 then NOTHING
    else
      assert states[k - 1 + 1] == Step(states[k - 1], who[k - 1], choices[k - 1]);
      StepMovesMonitor(states[k - 1], who[k - 1], choices[k - 1]);
      Observe(Past(states, who, choices, k - 1), states[k - 1], states[k], who[k - 1])
  }

  /** What has happened after one more step. */
  ghost function Then(h: History, s: State, t: nat, c: Choice): History
    requires Enabled(s, t, c)
  {
    StepMovesMonitor(s, t, c);
    Observe(h, s, Step(s, t, c), t)
  }

  // ----- counters -----------------------------------------------------------

  ghost predicate Counted(s: State, h: History) {
    && s.threshold >= 0 && h.since.Keys == s.entries.Keys && h.ticks.Keys == s.entries.Keys
    && forall n :: n in s.entries ==> s.entries[n].missed == Min(s.threshold, h.since[n])
  }

  /** A goroutine whose next step neither writes a counter nor counts in the history. */
  predicate Calm(x: Thread) {
    !x.RegisterAdds? && !x.BeatHolds? && !x.TickWaits? && !x.TickHolds? && !x.TickWrites?
  }

  ghost predicate SameCounters(s: State, s': State) {
    s'.threshold == s.threshold && s'.entries.Keys == s.entries.Keys
    && forall n :: n in s.entries ==> s'.entries[n].missed == s.entries[n].missed
  }

  lemma CalmCounters(s: State, t: nat, c: Choice)
    requires Enabled(s, t, c) && Calm(s.threads[t])
    ensures SameCounters(s, Step(s, t, c))
  {
    var x := s.threads[t];
    if x.InTick() {
      CalmTick(s, t, c);
    } else if x.InStatus() {
      CalmStatus(s, t, c);
    } else if x.InBeat() {
      assert SameCounters(s, BeatStep(s, t, c));
    } else if x.InRegister() {
      assert SameCounters(s, RegisterStep(s, t, c));
    } else {
      assert SameCounters(s, Start(s, t, c));
    }
  }

  lemma CalmTick(s: State, t: nat, c: Choice)
    requires Enabled(s, t, c) && Calm(s.threads[t]) && s.threads[t].InTick()
    ensures SameCounters(s, TickStep(s, t, c))
  {
  }

  lemma CalmStatus(s: State, t: nat, c: Choice)
    requires Enabled(s, t, c) && s.threads[t].InStatus()
    ensures SameCounters(s, StatusStep(s, t, c))
  {
  }

  /** A calm goroutine does not leave a counter behind. */
  lemma CalmThread(s: State, t: nat, c: Choice)
    requires Enabled(s, t, c) && Calm(s.threads[t])
    ensures t < |Step(s, t, c).threads| && !Step(s, t, c).threads[t].TickLeaves?
  {
  }

  lemma CalmHistory(s: State, h: History, t: nat, c: Choice)
    requires Enabled(s, t, c) && Calm(s.threads[t])
    ensures Then(h, s, t, c) == h
  {
    CalmThread(s, t, c);
  }

  lemma StepKeepsCounted(s: State, h: History, t: nat, c: Choice)
    requires Counted(s, h) && Enabled(s, t, c) && Known(s, s.threads[t]) && Current(s, s.threads[t])
    ensures Counted(Step(s, t, c), Then(h, s, t, c))
  {
    var x := s.threads[t];
    if Calm(x) {
      CalmCounters(s, t, c);
      CalmHistory(s, h, t, c);
    } else if x.TickWaits? {
      BeginKeepsCounted(s, h, t, c);
    } else if x.RegisterAdds? {
      AddKeepsCounted(s, h, t, c);
    } else if x.BeatHolds? {
      BeatKeepsCounted(s, h, t, c);
    } else if x.TickHolds? {
      CompareKeepsCounted(s, h, t, c);
    } else {
      WriteKeepsCounted(s, h, t, c);
    }
  }

  lemma BeginKeepsCounted(s: State, h: History, t: nat, c: Choice)
    requires Counted(s, h) && Enabled(s, t, c) && s.threads[t].TickWaits?
    ensures Counted(Step(s, t, c), Then(h, s, t, c))
  {
    assert Step(s, t, c) == TickStep(s, t, c);
  }

  lemma AddKeepsCounted(s: State, h: History, t: nat, c: Choice)
    requires Counted(s, h) && Enabled(s, t, c) && s.threads[t].RegisterAdds?
    ensures Counted(Step(s, t, c), Then(h, s, t, c))
  {
    assert Step(s, t, c) == RegisterStep(s, t, c);
  }

  lemma BeatKeepsCounted(s: State, h: History, t: nat, c: Choice)
    requires Counted(s, h) && Enabled(s, t, c) && s.threads[t].BeatHolds?
    ensures Counted(Step(s, t, c), Then(h, s, t, c))
  {
    assert Step(s, t, c) == BeatStep(s, t, c);
  }

  /** At the threshold, the visit ends without a write. */
  lemma CompareKeepsCounted(s: State, h: History, t: nat, c: Choice)
    requires Counted(s, h) && Enabled(s, t, c) && s.threads[t].TickHolds?
    ensures Counted(Step(s, t, c), Then(h, s, t, c))
  {
    assert Step(s, t, c) == TickStep(s, t, c);
  }

  /** The value read before is still the value of the counter, so that the write adds one. */
  lemma WriteKeepsCounted(s: State, h: History, t: nat, c: Choice)
    requires Counted(s, h) && Enabled(s, t, c) && s.threads[t].TickWrites? && Current(s, s.threads[t])
    ensures Counted(Step(s, t, c), Then(h, s, t, c))
  {
    assert Step(s, t, c) == TickStep(s, t, c);
  }

  // ----- answers ------------------------------------------------------------

  /** What GetStatuses has found so far: every name it is done with, and whoever it found healthy is still healthy. */
  ghost predicate Reported(s: State, h: History, x: Thread) {
    x.Reports() ==>
      && (forall n :: n in s.entries ==> n in x.statuses || n in x.todo || ((x.StatusWaitsFor? || x.StatusHolds?) && n == x.name))
      && (forall n :: n in x.statuses ==> n in s.entries && n !in x.todo)
      && (forall n :: n in x.statuses && x.statuses[n] ==> n in h.since && h.since[n] < s.threshold)
  }

  ghost predicate AllReported(s: State, h: History) {
    forall t :: 0 <= t < |s.threads| ==> Reported(s, h, s.threads[t])
  }

  /** As long as nobody holds the monitor for writing, names stay and no service gets another increment. */
  lemma ReadersSeeNoIncrement(s: State, h: History, t: nat, c: Choice)
    requires Enabled(s, t, c) && s.threads[t].MonitorRole() != Writing
    ensures Step(s, t, c).entries.Keys == s.entries.Keys && Step(s, t, c).threshold == s.threshold
    ensures forall n :: n in h.since ==> n in Then(h, s, t, c).since && Then(h, s, t, c).since[n] <= h.since[n]
  {
    StepAdds(s, t, c);
    StepMovesMonitor(s, t, c);
    NoVisit(s, t, c);
  }

  lemma NoVisit(s: State, t: nat, c: Choice)
    requires Enabled(s, t, c) && s.threads[t].MonitorRole() != Writing
    ensures t < |Step(s, t, c).threads| && !Step(s, t, c).threads[t].TickLeaves?
  {
    if Calm(s.threads[t]) {
      CalmThread(s, t, c);
    }
  }

  lemma OtherReported(s: State, h: History, t: nat, c: Choice, u: nat)
    requires Locks(s) && Enabled(s, t, c) && u < |s.threads| && u != t && Reported(s, h, s.threads[u])
    ensures Reported(Step(s, t, c), Then(h, s, t, c), s.threads[u])
  {
    if s.threads[u].Reports() {
      if s.threads[t].MonitorRole() == Writing {
        WriterIsAlone(s, t, u);
      } else {
        ReadersSeeNoIncrement(s, h, t, c);
      }
    }
  }

  lemma StatusHistory(s: State, h: History, t: nat, c: Choice)
    requires Enabled(s, t, c) && s.threads[t].InStatus()
    ensures Then(h, s, t, c) == h && Step(s, t, c) == StatusStep(s, t, c) && t < |StatusStep(s, t, c).threads|
  {
    CalmThread(s, t, c);
    CalmHistory(s, h, t, c);
  }

  lemma OwnReported(s: State, h: History, t: nat, c: Choice)
    requires Enabled(s, t, c) && Known(s, s.threads[t]) && Reported(s, h, s.threads[t]) && Counted(s, h)
    ensures t < |Step(s, t, c).threads| && Reported(Step(s, t, c), Then(h, s, t, c), Step(s, t, c).threads[t])
  {
    if s.threads[t].InStatus() {
      StatusHistory(s, h, t, c);
      StatusReported(s, h, t, c);
    } else {
      NotReporting(s, t, c);
    }
  }

  lemma StatusReported(s: State, h: History, t: nat, c: Choice)
    requires Enabled(s, t, c) && Known(s, s.threads[t]) && Reported(s, h, s.threads[t]) && Counted(s, h)
    requires s.threads[t].InStatus()
    ensures Reported(StatusStep(s, t, c), h, StatusStep(s, t, c).threads[t])
  {
    var x := s.threads[t];
    if x.StatusWaits? || x.StatusScans? {
      StatusScansOn(s, h, t, c);
    } else if x.StatusHolds? {
      StatusReads(s, h, t, c);
    } else {
      StatusLocks(s, h, t, c);
    }
  }

  lemma StatusScansOn(s: State, h: History, t: nat, c: Choice)
    requires Enabled(s, t, c) && Known(s, s.threads[t]) && Reported(s, h, s.threads[t]) && Counted(s, h)
    requires s.threads[t].StatusWaits? || s.threads[t].StatusScans?
    ensures Reported(StatusStep(s, t, c), h, StatusStep(s, t, c).threads[t])
  {
  }

  lemma StatusReads(s: State, h: History, t: nat, c: Choice)
    requires Enabled(s, t, c) && Known(s, s.threads[t]) && Reported(s, h, s.threads[t]) && Counted(s, h)
    requires s.threads[t].StatusHolds?
    ensures Reported(StatusStep(s, t, c), h, StatusStep(s, t, c).threads[t])
  {
  }

  lemma StatusLocks(s: State, h: History, t: nat, c: Choice)
    requires Enabled(s, t, c) && Known(s, s.threads[t]) && Reported(s, h, s.threads[t]) && Counted(s, h)
    requires s.threads[t].StatusWaitsFor? || s.threads[t].StatusLeaves?
    ensures Reported(StatusStep(s, t, c), h, StatusStep(s, t, c).threads[t])
  {
  }

  lemma NotReporting(s: State, t: nat, c: Choice)
    requires Enabled(s, t, c) && !s.threads[t].InStatus()
    ensures t < |Step(s, t, c).threads| && !Step(s, t, c).threads[t].Reports()
  {
  }

  lemma StepKeepsReported(s: State, h: History, t: nat, c: Choice)
    requires Guarded(s) && Counted(s, h) && AllReported(s, h) && Enabled(s, t, c)
    ensures AllReported(Step(s, t, c), Then(h, s, t, c))
  {
    var s' := Step(s, t, c);
    StepMovesMonitor(s, t, c);
    forall u | 0 <= u < |s'.threads| ensures Reported(s', Then(h, s, t, c), s'.threads[u]) {
      assert Reported(s, h, s.threads[u]) && Known(s, s.threads[u]);
      if u == t {
        OwnReported(s, h, t, c);
      } else {
        OtherReported(s, h, t, c, u);
      }
    }
  }

  // ----- increments ---------------------------------------------------------

  /** Whether an incrementAll still has to visit a name. */
  predicate StillDue(x: Thread, n: string)
    requires x.Increments()
  {
    n in x.todo || ((x.TickWaitsFor? || x.TickHolds? || x.TickReads? || x.TickWrites?) && n == x.name)
  }

  /** What incrementAll has done so far: one visit to every name it is done with, none to the others. */
  ghost predicate Incremented(s: State, h: History, t: nat, x: Thread) {
    x.Increments() ==>
      && t in h.begun && h.begun[t].Keys == s.entries.Keys == h.ticks.Keys
      && forall n :: n in s.entries ==> h.ticks[n] == h.begun[t][n] + if StillDue(x, n) then 0 else 1
  }

  ghost predicate AllIncremented(s: State, h: History) {
    forall t :: 0 <= t < |s.threads| ==> Incremented(s, h, t, s.threads[t])
  }

  /** What the past says about increments does not change as long as nobody holds the monitor for writing. */
  lemma QuietStep(s: State, h: History, t: nat, c: Choice, u: nat)
    requires Enabled(s, t, c) && s.threads[t].MonitorRole() != Writing && u != t
    ensures Step(s, t, c).entries.Keys == s.entries.Keys
    ensures Then(h, s, t, c).ticks == h.ticks && (u in h.begun ==> u in Then(h, s, t, c).begun && Then(h, s, t, c).begun[u] == h.begun[u])
  {
    StepAdds(s, t, c);
    NoVisit(s, t, c);
  }

  lemma OtherIncremented(s: State, h: History, t: nat, c: Choice, u: nat)
    requires Locks(s) && Enabled(s, t, c) && u < |s.threads| && u != t && Incremented(s, h, u, s.threads[u])
    ensures Incremented(Step(s, t, c), Then(h, s, t, c), u, s.threads[u])
  {
    if s.threads[u].Increments() {
      WriterIsAlone(s, u, t);
      QuietStep(s, h, t, c, u);
    }
  }

  lemma OwnIncremented(s: State, h: History, t: nat, c: Choice)
    requires Enabled(s, t, c) && Known(s, s.threads[t]) && Incremented(s, h, t, s.threads[t]) && Counted(s, h)
    ensures t < |Step(s, t, c).threads| && Incremented(Step(s, t, c), Then(h, s, t, c), t, Step(s, t, c).threads[t])
  {
    if s.threads[t].InTick() {
      TickIncremented(s, h, t, c);
    } else {
      NotIncrementing(s, t, c);
    }
  }

  lemma NotIncrementing(s: State, t: nat, c: Choice)
    requires Enabled(s, t, c) && !s.threads[t].InTick()
    ensures t < |Step(s, t, c).threads| && !Step(s, t, c).threads[t].Increments()
  {
  }

  lemma TickIncremented(s: State, h: History, t: nat, c: Choice)
    requires Enabled(s, t, c) && Known(s, s.threads[t]) && Incremented(s, h, t, s.threads[t]) && Counted(s, h)
    requires s.threads[t].InTick()
    ensures t < |TickStep(s, t, c).threads| && Incremented(TickStep(s, t, c), Then(h, s, t, c), t, TickStep(s, t, c).threads[t])
  {
    var x := s.threads[t];
    if x.TickWaits? {
      TickBegins(s, h, t, c);
    } else if x.TickHolds? {
      TickTests(s, h, t, c);
    } else if x.TickWrites? {
      TickAdds(s, h, t, c);
    } else {
      TickGoesOn(s, h, t, c);
    }
  }

  lemma TickBegins(s: State, h: History, t: nat, c: Choice)
    requires Enabled(s, t, c) && Known(s, s.threads[t]) && Incremented(s, h, t, s.threads[t]) && Counted(s, h)
    requires s.threads[t].TickWaits?
    ensures t < |TickStep(s, t, c).threads| && Incremented(TickStep(s, t, c), Then(h, s, t, c), t, TickStep(s, t, c).threads[t])
  {
  }

  lemma TickTests(s: State, h: History, t: nat, c: Choice)
    requires Enabled(s, t, c) && Known(s, s.threads[t]) && Incremented(s, h, t, s.threads[t]) && Counted(s, h)
    requires s.threads[t].TickHolds?
    ensures t < |TickStep(s, t, c).threads| && Incremented(TickStep(s, t, c), Then(h, s, t, c), t, TickStep(s, t, c).threads[t])
  {
  }

  lemma TickAdds(s: State, h: History, t: nat, c: Choice)
    requires Enabled(s, t, c) && Known(s, s.threads[t]) && Incremented(s, h, t, s.threads[t]) && Counted(s, h)
    requires s.threads[t].TickWrites?
    ensures t < |TickStep(s, t, c).threads| && Incremented(TickStep(s, t, c), Then(h, s, t, c), t, TickStep(s, t, c).threads[t])
  {
  }

  lemma TickGoesOn(s: State, h: History, t: nat, c: Choice)
    requires Enabled(s, t, c) && Known(s, s.threads[t]) && Incremented(s, h, t, s.threads[t])
    requires s.threads[t].TickScans? || s.threads[t].TickWaitsFor? || s.threads[t].TickReads? || s.threads[t].TickLeaves?
    ensures t < |TickStep(s, t, c).threads| && Incremented(TickStep(s, t, c), Then(h, s, t, c), t, TickStep(s, t, c).threads[t])
  {
    CalmHistory(s, h, t, c);
    CalmTick(s, t, c);
    SameDue(s, t, c);
  }

  /** Steps between two visits leave the same names to visit. */
  lemma SameDue(s: State, t: nat, c: Choice)
    requires Enabled(s, t, c)
    requires s.threads[t].TickScans? || s.threads[t].TickWaitsFor? || s.threads[t].TickReads? || s.threads[t].TickLeaves?
    ensures t < |TickStep(s, t, c).threads|
    ensures var x := TickStep(s, t, c).threads[t];
      x.Increments() ==> forall n :: StillDue(x, n) <==> StillDue(s.threads[t], n)
  {
  }

  lemma StepKeepsIncremented(s: State, h: History, t: nat, c: Choice)
    requires Guarded(s) && Counted(s, h) && AllIncremented(s, h) && Enabled(s, t, c)
    ensures AllIncremented(Step(s, t, c), Then(h, s, t, c))
  {
    var s' := Step(s, t, c);
    StepMovesMonitor(s, t, c);
    forall u: nat | u < |s'.threads| ensures Incremented(s', Then(h, s, t, c), u, s'.threads[u]) {
      assert Incremented(s, h, u, s.threads[u]) && Known(s, s.threads[u]);
      if u == t {
        OwnIncremented(s, h, t, c);
      } else {
        OtherIncremented(s, h, t, c, u);
      }
    }
  }

  // ----- whole runs ---------------------------------------------------------

  ghost predicate Inv(s: State, h: History) {
    Guarded(s) && Counted(s, h) && AllReported(s, h) && AllIncremented(s, h)
  }

  lemma StepKeepsInv(s: State, h: History, t: nat, c: Choice)
    requires Inv(s, h) && Enabled(s, t, c)
    ensures Inv(Step(s, t, c), Then(h, s, t, c))
  {
    assert Known(s, s.threads[t]) && Current(s, s.threads[t]);
    StepKeepsGuarded(s, t, c);
    StepKeepsCounted(s, h, t, c);
    StepKeepsReported(s, h, t, c);
    StepKeepsIncremented(s, h, t, c);
  }

  lemma StartHasInv(s: State)
    requires Initial(s)
    ensures Inv(s, NOTHING)
  {
    StartIsGuarded(s);
  }

  /** Every step of every run keeps the locks, the counters and what calls have found so far right. */
  lemma {:induction false} RunKeepsInv(states: seq<State>, who: seq<nat>, choices: seq<Choice>, k: nat)
    requires Run(states, who, choices) && k < |states|
    ensures Inv(states[k], Past(states, who, choices, k))
  {
    if k == 0 {
      StartHasInv(states[0]);
    } else {
      RunKeepsInv(states, who, choices, k - 1);
      assert states[k - 1 + 1] == Step(states[k - 1], who[k - 1], choices[k - 1]);
      StepKeepsInv(states[k - 1], Past(states, who, choices, k - 1), who[k - 1], choices[k - 1]);
    }
  }

  /**
   * At every moment of every run, a counter is the number of visits by
   * incrementAll since the registration or the last beat, up to the threshold.
   */
  lemma CountersAreRight(states: seq<State>, who: seq<nat>, choices: seq<Choice>, k: nat, n: string)
    requires Run(states, who, choices) && k < |states| && n in states[k].entries
    ensures var s, h := states[k], Past(states, who, choices, k);
      n in h.since && s.entries[n].missed == Min(s.threshold, h.since[n])
  {
    RunKeepsInv(states, who, choices, k);
  }

  /**
   * When GetStatuses is about to return, it has an answer for every registered
   * name, and every service it calls healthy has still seen fewer increments
   * than the threshold since its last beat.
   */
  lemma StatusesAreRight(states: seq<State>, who: seq<nat>, choices: seq<Choice>, k: nat, t: nat)
    requires Run(states, who, choices) && k < |states| && t < |states[k].threads|
    requires states[k].threads[t].StatusScans? && states[k].threads[t].todo == {}
    ensures var s, h, statuses := states[k], Past(states, who, choices, k), states[k].threads[t].statuses;
      statuses.Keys == s.entries.Keys && forall n :: n in statuses && statuses[n] ==> n in h.since && h.since[n] < s.threshold
  {
    RunKeepsInv(states, who, choices, k);
    assert Reported(states[k], Past(states, who, choices, k), states[k].threads[t]);
  }

  /** An answer of GetStatuses is right at the moment the registration is read. */
  lemma AnswerIsRight(states: seq<State>, who: seq<nat>, choices: seq<Choice>, k: nat, n: string)
    requires Run(states, who, choices) && k < |who|
    requires states[k].threads[who[k]].StatusHolds? && states[k].threads[who[k]].name == n
    ensures who[k] < |states[k + 1].threads| && states[k + 1].threads[who[k]].StatusLeaves?
    ensures var s, h := states[k], Past(states, who, choices, k);
      var before, after := s.threads[who[k]], states[k + 1].threads[who[k]];
      n in h.since && after.statuses == before.statuses[n := h.since[n] < s.threshold]
  {
    RunKeepsInv(states, who, choices, k);
    assert states[k + 1] == Step(states[k], who[k], choices[k]);
  }

  /** incrementAll is atomic: when it is about to return, every registration has had exactly one visit since it began. */
  lemma IncrementAllIsAtomic(states: seq<State>, who: seq<nat>, choices: seq<Choice>, k: nat, t: nat)
    requires Run(states, who, choices) && k < |states| && t < |states[k].threads|
    requires states[k].threads[t].TickScans? && states[k].threads[t].todo == {}
    ensures var s, h := states[k], Past(states, who, choices, k);
      t in h.begun && h.begun[t].Keys == s.entries.Keys == h.ticks.Keys
      && forall n :: n in s.entries ==> h.ticks[n] == h.begun[t][n] + 1
  {
    RunKeepsInv(states, who, choices, k);
    assert Incremented(states[k], Past(states, who, choices, k), t, states[k].threads[t]);
  }
}
