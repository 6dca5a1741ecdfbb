/**
 * The heartbeat monitor under every interleaving of its calls: goroutines that
 * register services, beat, increment all counters and read the statuses, taking
 * the monitor's lock and then the locks of single registrations
 * (internal/heartbeat/heartbeat.go). Every access to shared memory is a step of
 * its own, so that nothing but the locks keeps the accesses of a call together.
 */
module HeartbeatLocks {

  /** A readers-writer lock. New readers wait while a writer holds the lock or waits for it. */
  datatype Lock = Lock(writers: set<nat>, readers: set<nat>, waiting: set<nat>)
  {
    predicate Free() { writers == {} && readers == {} }
    predicate Readable() { writers == {} && waiting == {} }
    function Wait(t: nat): Lock { this.(waiting := waiting + {t}) }
    function Acquire(t: nat): Lock { this.(waiting := waiting - {t}, writers := writers + {t}) }
    function Release(t: nat): Lock { this.(writers := writers - {t}) }
    function AcquireRead(t: nat): Lock { this.(readers := readers + {t}) }
    function ReleaseRead(t: nat): Lock { this.(readers := readers - {t}) }
  }

  const UNLOCKED := Lock({}, {}, {})

  /** A registration: its lock and its counter. */
  datatype Entry = Entry(lock: Lock, missed: int)

  /** What a goroutine is about to do. */
  datatype Thread =
    | Idle
    // Register looks up the name, then adds it
    | RegisterWaits(name: string)
    | RegisterHolds(name: string)
    | RegisterAdds(name: string)
    | RegisterEnds
    // the beat function of a registration
    | BeatWaits(name: string)
    | BeatHolds(name: string)
    | BeatEnds(name: string)
    // incrementAll: `todo` are the names still to visit. A counter is compared, read, and written
    | TickWaits
    | TickScans(todo: set<string>)
    | TickWaitsFor(name: string, todo: set<string>)
    | TickHolds(name: string, todo: set<string>)
    | TickReads(name: string, todo: set<string>)
    | TickWrites(name: string, todo: set<string>, value: int)
    | TickLeaves(name: string, todo: set<string>)
    // GetStatuses
    | StatusWaits
    | StatusScans(todo: set<string>, statuses: map<string, bool>)
    | StatusWaitsFor(name: string, todo: set<string>, statuses: map<string, bool>)
    | StatusHolds(name: string, todo: set<string>, statuses: map<string, bool>)
    | StatusLeaves(name: string, todo: set<string>, statuses: map<string, bool>)
  {
    predicate InRegister() { RegisterWaits? || RegisterHolds? || RegisterAdds? || RegisterEnds? }
    predicate InBeat() { BeatWaits? || BeatHolds? || BeatEnds? }
    predicate InTick() { TickWaits? || Increments() }
    predicate InStatus() { StatusWaits? || Reports() }
    predicate Increments() { TickScans? || TickWaitsFor? || TickHolds? || TickReads? || TickWrites? || TickLeaves? }
    predicate Reports() { StatusScans? || StatusWaitsFor? || StatusHolds? || StatusLeaves? }
    predicate Visits() { Increments() || Reports() }

    /** Whether the goroutine is at a registration. */
    predicate Named() { InBeat() || (Visits() && !TickScans? && !StatusScans?) }

    /** What the goroutine has to do with the lock of the monitor. */
    function MonitorRole(): Role {
      if RegisterWaits? || TickWaits? then Waiting
      else if InRegister() || Increments() then Writing
      else if Reports() then Reading
      else Out
    }

    /** What the goroutine has to do with the lock of the registration of `n`. */
    function EntryRole(n: string): Role {
      if !Named() || name != n then Out
      else if BeatWaits? || TickWaitsFor? then Waiting
      else if InBeat() || Increments() then Writing
      else if StatusHolds? || StatusLeaves? then Reading
      else Out
    }
  }

  datatype Role = Out | Waiting | Writing | Reading

  datatype State = State(threshold: int, lock: Lock, entries: map<string, Entry>, threads: seq<Thread>)

  /** The choices of a goroutine: which call to make, and in which order to visit the registrations. */
  datatype Choice = Register(name: string) | Beat(name: string) | Tick | Status | Visit(name: string) | Proceed

  // ----- the steps ----------------------------------------------------------

  predicate Enabled(s: State, t: nat, c: Choice) {
    t < |s.threads| &&
    var x := s.threads[t];
    if x.Idle? then c.Register? || (c.Beat? && c.name in s.entries) || c.Tick? || c.Status?
    else if (x.TickScans? || x.StatusScans?) && x.todo != {} then c.Visit? && c.name in x.todo && c.name in s.entries
    else c.Proceed? && (x.Named() ==> x.name in s.entries) && Unblocked(s, x)
  }

  /** Whether the lock that a goroutine asks for, if any, can be taken. */
  predicate Unblocked(s: State, x: Thread)
    requires x.Named() ==> x.name in s.entries
  {
    && (x.RegisterWaits? || x.TickWaits? ==> s.lock.Free())
    && (x.StatusWaits? ==> s.lock.Readable())
    && (x.BeatWaits? || x.TickWaitsFor? ==> s.entries[x.name].lock.Free())
    && (x.StatusWaitsFor? ==> s.entries[x.name].lock.Readable())
  }

  function Become(s: State, t: nat, x: Thread): State
    requires t < |s.threads|
  {
    s.(threads := s.threads[t := x])
  }

  function Locked(s: State, lock: Lock): State {
    s.(lock := lock)
  }

  function Put(s: State, n: string, e: Entry): State {
    s.(entries := s.entries[n := e])
  }

  function PutLock(s: State, n: string, lock: Lock): State
    requires n in s.entries
  {
    Put(s, n, s.entries[n].(lock := lock))
  }

  function PutMissed(s: State, n: string, missed: int): State
    requires n in s.entries
  {
    Put(s, n, s.entries[n].(missed := missed))
  }

  /** The next atomic step of goroutine `t`. */
  function Step(s: State, t: nat, c: Choice): State
    requires Enabled(s, t, c)
  {
    var x := s.threads[t];
    if x.Idle? then Start(s, t, c)
    else if x.InRegister() then RegisterStep(s, t, c)
    else if x.InBeat() then BeatStep(s, t, c)
    else if x.InTick() then TickStep(s, t, c)
    else StatusStep(s, t, c)
  }

  function Start(s: State, t: nat, c: Choice): State
    requires Enabled(s, t, c) && s.threads[t].Idle?
  {
    match c
    case Register(n) => Locked(Become(s, t, RegisterWaits(n)), s.lock.Wait(t))
    case Beat(n) => PutLock(Become(s, t, BeatWaits(n)), n, s.entries[n].lock.Wait(t))
    case Tick => Locked(Become(s, t, TickWaits), s.lock.Wait(t))
    case _ => Become(s, t, StatusWaits)
  }

  function RegisterStep(s: State, t: nat, c: Choice): State
    requires Enabled(s, t, c) && s.threads[t].InRegister()
  {
    match s.threads[t]
    case RegisterWaits(n) => Locked(Become(s, t, RegisterHolds(n)), s.lock.Acquire(t))
    case RegisterHolds(n) => Become(s, t, if n in s.entries then RegisterEnds else RegisterAdds(n))
    case RegisterAdds(n) => Put(Become(s, t, RegisterEnds), n, Entry(UNLOCKED, 0))
    case RegisterEnds => Locked(Become(s, t, Idle), s.lock.Release(t))
  }

  function BeatStep(s: State, t: nat, c: Choice): State
    requires Enabled(s, t, c) && s.threads[t].InBeat()
  {
    match s.threads[t]
    case BeatWaits(n) => PutLock(Become(s, t, BeatHolds(n)), n, s.entries[n].lock.Acquire(t))
    case BeatHolds(n) => PutMissed(Become(s, t, BeatEnds(n)), n, 0)
    case BeatEnds(n) => PutLock(Become(s, t, Idle), n, s.entries[n].lock.Release(t))
  }

  function TickStep(s: State, t: nat, c: Choice): State
    requires Enabled(s, t, c) && s.threads[t].InTick()
  {
    match s.threads[t]
    case TickWaits => Locked(Become(s, t, TickScans(s.entries.Keys)), s.lock.Acquire(t))
    case TickScans(todo) =>
      if todo == {} then Locked(Become(s, t, Idle), s.lock.Release(t))
      else PutLock(Become(s, t, TickWaitsFor(c.name, todo - {c.name})), c.name, s.entries[c.name].lock.Wait(t))
    case TickWaitsFor(n, todo) => PutLock(Become(s, t, TickHolds(n, todo)), n, s.entries[n].lock.Acquire(t))
    case TickHolds(n, todo) => Become(s, t, if s.entries[n].missed < s.threshold then TickReads(n, todo) else TickLeaves(n, todo))
    case TickReads(n, todo) => Become(s, t, TickWrites(n, todo, s.entries[n].missed))
    case TickWrites(n, todo, value) => PutMissed(Become(s, t, TickLeaves(n, todo)), n, value + 1)
    case TickLeaves(n, todo) => PutLock(Become(s, t, TickScans(todo)), n, s.entries[n].lock.Release(t))
  }

  function StatusStep(s: State, t: nat, c: Choice): State
    requires Enabled(s, t, c) && s.threads[t].InStatus()
  {
    match s.threads[t]
    case StatusWaits => Locked(Become(s, t, StatusScans(s.entries.Keys, map[])), s.lock.AcquireRead(t))
    case StatusScans(todo, statuses) =>
      if todo == {} then Locked(Become(s, t, Idle), s.lock.ReleaseRead(t))
      else Become(s, t, StatusWaitsFor(c.name, todo - {c.name}, statuses))
    case StatusWaitsFor(n, todo, statuses) =>
      PutLock(Become(s, t, StatusHolds(n, todo, statuses)), n, s.entries[n].lock.AcquireRead(t))
    case StatusHolds(n, todo, statuses) =>
      Become(s, t, StatusLeaves(n, todo, statuses[n := s.entries[n].missed < s.threshold]))
    case StatusLeaves(n, todo, statuses) =>
      PutLock(Become(s, t, StatusScans(todo, statuses)), n, s.entries[n].lock.ReleaseRead(t))
  }

  ghost predicate Initial(s: State) {
    s.threshold >= 0 && s.lock == UNLOCKED && s.entries == map[] && forall t :: 0 <= t < |s.threads| ==> s.threads[t] == Idle
  }

  /** Every state of a run follows from the one before it by a step of some goroutine. */
  ghost predicate Run(states: seq<State>, who: seq<nat>, choices: seq<Choice>) {
    && |states| == |who| + 1 == |choices| + 1
    && Initial(states[0])
    && forall i :: 0 <= i < |who| ==> Enabled(states[i], who[i], choices[i]) && states[i + 1] == Step(states[i], who[i], choices[i])
  }

  // ----- the locks ----------------------------------------------------------

  /** A lock has at most one writer, and no readers beside it. */
  predicate Exclusive(l: Lock) {
    && (forall t, u :: t in l.writers && u in l.writers ==> t == u)
    && (l.writers != {} ==> l.readers == {})
  }

  /** A lock is held and awaited by the goroutines that are at the matching place. */
  ghost predicate Matches(l: Lock, roles: seq<Role>) {
    && Exclusive(l)
    && (forall t: nat :: t in l.writers <==> t < |roles| && roles[t] == Writing)
    && (forall t: nat :: t in l.readers <==> t < |roles| && roles[t] == Reading)
    && (forall t: nat :: t in l.waiting <==> t < |roles| && roles[t] == Waiting)
  }

  ghost function MonitorRoles(s: State): (r: seq<Role>)
    ensures |r| == |s.threads|
  {
    seq(|s.threads|, i requires 0 <= i < |s.threads| => s.threads[i].MonitorRole())
  }

  ghost function EntryRoles(s: State, n: string): (r: seq<Role>)
    ensures |r| == |s.threads|
  {
    seq(|s.threads|, i requires 0 <= i < |s.threads| => s.threads[i].EntryRole(n))
  }

  ghost predicate Locks(s: State) {
    && Matches(s.lock, MonitorRoles(s))
    && (forall n :: n in s.entries ==> Matches(s.entries[n].lock, EntryRoles(s, n)))
  }

  /** The names a goroutine deals with are registered, and a name it is about to add is not. */
  ghost predicate Known(s: State, x: Thread) {
    && (x.Named() ==> x.name in s.entries)
    && (x.Visits() ==> x.todo <= s.entries.Keys)
    && (x.Visits() && x.Named() ==> x.name !in x.todo)
    && (x.RegisterAdds? ==> x.name !in s.entries)
  }

  ghost predicate AllKnown(s: State) {
    forall t :: 0 <= t < |s.threads| ==> Known(s, s.threads[t])
  }

  /** What a goroutine has found out about a counter still holds. */
  ghost predicate Current(s: State, x: Thread) {
    && (x.TickReads? ==> x.name in s.entries && s.entries[x.name].missed < s.threshold)
    && (x.TickWrites? ==> x.name in s.entries && s.entries[x.name].missed == x.value < s.threshold)
  }

  ghost predicate AllCurrent(s: State) {
    forall t :: 0 <= t < |s.threads| ==> Current(s, s.threads[t])
  }

  /** What every step keeps of the locks and of what goroutines know. */
  ghost predicate Guarded(s: State) {
    Locks(s) && AllKnown(s) && AllCurrent(s)
  }

  /** How taking part in a lock changes the lock. */
  predicate Move(l: Lock, a: Role, l': Lock, b: Role, t: nat) {
    match (a, b)
    case (Out, Waiting) => l' == l.Wait(t)
    case (Waiting, Writing) => l.Free() && l' == l.Acquire(t)
    case (Writing, Out) => l' == l.Release(t)
    case (Out, Reading) => l.Readable() && l' == l.AcquireRead(t)
    case (Reading, Out) => l' == l.ReleaseRead(t)
    case _ => a == b && l' == l
  }

  lemma MoveKeeps(l: Lock, roles: seq<Role>, l': Lock, t: nat, b: Role)
    requires Matches(l, roles) && t < |roles| && Move(l, roles[t], l', b, t)
    ensures Matches(l', roles[t := b])
  {
  }

  /** A step changes the thread that takes it, and the monitor's lock as the thread's role demands. */
  ghost predicate MovesMonitor(s: State, t: nat, s': State)
    requires t < |s.threads|
  {
    && |s'.threads| == |s.threads| && s'.threads == s.threads[t := s'.threads[t]] && s'.threshold == s.threshold
    && Move(s.lock, s.threads[t].MonitorRole(), s'.lock, s'.threads[t].MonitorRole(), t)
  }

  lemma StepMovesMonitor(s: State, t: nat, c: Choice)
    requires Enabled(s, t, c)
    ensures MovesMonitor(s, t, Step(s, t, c))
  {
    var x := s.threads[t];
    if x.Idle? {
      assert MovesMonitor(s, t, Start(s, t, c));
    } else if x.InRegister() {
      RegisterMovesMonitor(s, t, c);
    } else if x.InBeat() {
      assert MovesMonitor(s, t, BeatStep(s, t, c));
    } else if x.InTick() {
      TickMovesMonitor(s, t, c);
    } else {
      StatusMovesMonitor(s, t, c);
    }
  }

  lemma RegisterMovesMonitor(s: State, t: nat, c: Choice)
    requires Enabled(s, t, c) && s.threads[t].InRegister()
    ensures MovesMonitor(s, t, RegisterStep(s, t, c))
  {
  }

  lemma TickMovesMonitor(s: State, t: nat, c: Choice)
    requires Enabled(s, t, c) && s.threads[t].InTick()
    ensures MovesMonitor(s, t, TickStep(s, t, c))
  {
  }

  lemma StatusMovesMonitor(s: State, t: nat, c: Choice)
    requires Enabled(s, t, c) && s.threads[t].InStatus()
    ensures MovesMonitor(s, t, StatusStep(s, t, c))
  {
  }

  /** A step changes the lock of a registration as the thread's role demands. */
  ghost predicate MovesEntry(s: State, t: nat, s': State, n: string)
    requires t < |s.threads| && n in s.entries
  {
    && |s'.threads| == |s.threads| && n in s'.entries
    && Move(s.entries[n].lock, s.threads[t].EntryRole(n), s'.entries[n].lock, s'.threads[t].EntryRole(n), t)
  }

  lemma StepMovesEntry(s: State, t: nat, c: Choice, n: string)
    requires Enabled(s, t, c) && Known(s, s.threads[t]) && n in s.entries
    ensures MovesEntry(s, t, Step(s, t, c), n)
  {
    var x := s.threads[t];
    if x.Idle? {
      assert MovesEntry(s, t, Start(s, t, c), n);
    } else if x.InRegister() {
      assert MovesEntry(s, t, RegisterStep(s, t, c), n);
    } else if x.InBeat() {
      BeatMovesEntry(s, t, c, n);
    } else if x.InTick() {
      TickMovesEntry(s, t, c, n);
    } else {
      StatusMovesEntry(s, t, c, n);
    }
  }

  lemma BeatMovesEntry(s: State, t: nat, c: Choice, n: string)
    requires Enabled(s, t, c) && s.threads[t].InBeat() && n in s.entries
    ensures MovesEntry(s, t, BeatStep(s, t, c), n)
  {
  }

  lemma TickMovesEntry(s: State, t: nat, c: Choice, n: string)
    requires Enabled(s, t, c) && s.threads[t].InTick() && n in s.entries
    ensures MovesEntry(s, t, TickStep(s, t, c), n)
  {
  }

  lemma StatusMovesEntry(s: State, t: nat, c: Choice, n: string)
    requires Enabled(s, t, c) && s.threads[t].InStatus() && n in s.entries
    ensures MovesEntry(s, t, StatusStep(s, t, c), n)
  {
  }

  lemma StepKeepsLocks(s: State, t: nat, c: Choice)
    requires Locks(s) && AllKnown(s) && Enabled(s, t, c)
    ensures Locks(Step(s, t, c))
  {
    var s' := Step(s, t, c);
    StepMovesMonitor(s, t, c);
    MoveKeeps(s.lock, MonitorRoles(s), s'.lock, t, s'.threads[t].MonitorRole());
    assert MonitorRoles(s') == MonitorRoles(s)[t := s'.threads[t].MonitorRole()];
    forall n | n in s'.entries
      ensures Matches(s'.entries[n].lock, EntryRoles(s', n))
    {
      if n in s.entries {
        EntryKeeps(s, t, c, n);
      } else {
        NewIsUnlocked(s, t, c, n);
      }
    }
  }

  lemma EntryKeeps(s: State, t: nat, c: Choice, n: string)
    requires AllKnown(s) && Enabled(s, t, c) && n in s.entries && Matches(s.entries[n].lock, EntryRoles(s, n))
    requires var s' := Step(s, t, c); |s'.threads| == |s.threads| && s'.threads == s.threads[t := s'.threads[t]]
    ensures n in Step(s, t, c).entries && Matches(Step(s, t, c).entries[n].lock, EntryRoles(Step(s, t, c), n))
  {
    var s' := Step(s, t, c);
    assert Known(s, s.threads[t]);
    StepMovesEntry(s, t, c, n);
    MoveKeeps(s.entries[n].lock, EntryRoles(s, n), s'.entries[n].lock, t, s'.threads[t].EntryRole(n));
    assert EntryRoles(s', n) == EntryRoles(s, n)[t := s'.threads[t].EntryRole(n)];
  }

  /** A step registers at most the name that its goroutine is about to add. */
  lemma StepAdds(s: State, t: nat, c: Choice)
    requires Enabled(s, t, c)
    ensures var s', x := Step(s, t, c), s.threads[t];
      if x.RegisterAdds? then s'.entries == s.entries[x.name := Entry(UNLOCKED, 0)] && s'.threads[t] == RegisterEnds
      else s'.entries.Keys == s.entries.Keys
  {
  }

  lemma NewIsUnlocked(s: State, t: nat, c: Choice, n: string)
    requires AllKnown(s) && Enabled(s, t, c) && n !in s.entries && n in Step(s, t, c).entries
    requires var s' := Step(s, t, c); |s'.threads| == |s.threads| && s'.threads == s.threads[t := s'.threads[t]]
    ensures Matches(Step(s, t, c).entries[n].lock, EntryRoles(Step(s, t, c), n))
  {
    var s' := Step(s, t, c);
    StepAdds(s, t, c);
    assert s'.entries[n].lock == UNLOCKED;
    forall u | 0 <= u < |s'.threads| ensures EntryRoles(s', n)[u] == Out {
      assert u != t ==> Known(s, s.threads[u]);
    }
  }

  // ----- who is alone -------------------------------------------------------

  /** Nobody increments or registers while somebody else increments, registers or reads the statuses. */
  lemma WriterIsAlone(s: State, t: nat, u: nat)
    requires Locks(s) && t < |s.threads| && u < |s.threads| && t != u
    requires s.threads[t].MonitorRole() == Writing
    ensures s.threads[u].MonitorRole() != Writing && s.threads[u].MonitorRole() != Reading
  {
    RolesExclude(s.lock, MonitorRoles(s), t, u);
  }

  /** While somebody beats or increments a counter, nobody else beats, increments or reads it. */
  lemma EntryWriterIsAlone(s: State, n: string, t: nat, u: nat)
    requires Locks(s) && n in s.entries && t < |s.threads| && u < |s.threads| && t != u
    requires s.threads[t].EntryRole(n) == Writing
    ensures s.threads[u].EntryRole(n) != Writing && s.threads[u].EntryRole(n) != Reading
  {
    RolesExclude(s.entries[n].lock, EntryRoles(s, n), t, u);
  }

  lemma RolesExclude(l: Lock, roles: seq<Role>, t: nat, u: nat)
    requires Matches(l, roles) && t < |roles| && u < |roles| && t != u && roles[t] == Writing
    ensures roles[u] != Writing && roles[u] != Reading
  {
    assert t in l.writers;
    assert u in l.writers <==> roles[u] == Writing;
    assert u in l.readers <==> roles[u] == Reading;
  }

  // ----- what goroutines know -----------------------------------------------

  lemma StepKeepsKnown(s: State, t: nat, c: Choice)
    requires Locks(s) && AllKnown(s) && Enabled(s, t, c)
    ensures AllKnown(Step(s, t, c))
  {
    var s' := Step(s, t, c);
    StepMovesMonitor(s, t, c);
    forall u | 0 <= u < |s'.threads| ensures Known(s', s'.threads[u]) {
      assert Known(s, s.threads[u]);
      if u == t {
        OwnKnown(s, t, c);
      } else {
        OtherKnown(s, t, c, u);
      }
    }
  }

  lemma OtherKnown(s: State, t: nat, c: Choice, u: nat)
    requires Locks(s) && Enabled(s, t, c) && u < |s.threads| && u != t && Known(s, s.threads[u])
    ensures Known(Step(s, t, c), s.threads[u])
  {
    StepAdds(s, t, c);
    if s.threads[u].RegisterAdds? {
      WriterIsAlone(s, u, t);
    }
  }

  lemma OwnKnown(s: State, t: nat, c: Choice)
    requires Enabled(s, t, c) && Known(s, s.threads[t])
    ensures Known(Step(s, t, c), Step(s, t, c).threads[t])
  {
    var x := s.threads[t];
    if x.Idle? {
      assert Known(Start(s, t, c), Start(s, t, c).threads[t]);
    } else if x.InRegister() {
      assert Known(RegisterStep(s, t, c), RegisterStep(s, t, c).threads[t]);
    } else if x.InBeat() {
      assert Known(BeatStep(s, t, c), BeatStep(s, t, c).threads[t]);
    } else if x.InTick() {
      TickKnown(s, t, c);
    } else {
      StatusKnown(s, t, c);
    }
  }

  lemma TickKnown(s: State, t: nat, c: Choice)
    requires Enabled(s, t, c) && Known(s, s.threads[t]) && s.threads[t].InTick()
    ensures Known(TickStep(s, t, c), TickStep(s, t, c).threads[t])
  {
  }

  lemma StatusKnown(s: State, t: nat, c: Choice)
    requires Enabled(s, t, c) && Known(s, s.threads[t]) && s.threads[t].InStatus()
    ensures Known(StatusStep(s, t, c), StatusStep(s, t, c).threads[t])
  {
  }

  /** A counter is only written by a goroutine that holds its lock for writing. */
  lemma OnlyWritersWrite(s: State, t: nat, c: Choice, n: string)
    requires Enabled(s, t, c) && Known(s, s.threads[t]) && n in s.entries && s.threads[t].EntryRole(n) != Writing
    ensures n in Step(s, t, c).entries && Step(s, t, c).entries[n].missed == s.entries[n].missed
  {
  }

  /** Nothing that a goroutine found out about a counter changes before it writes the counter, thanks to the lock. */
  lemma StepKeepsCurrent(s: State, t: nat, c: Choice)
    requires Guarded(s) && Enabled(s, t, c)
    ensures AllCurrent(Step(s, t, c))
  {
    var s' := Step(s, t, c);
    StepMovesMonitor(s, t, c);
    forall u | 0 <= u < |s'.threads| ensures Current(s', s'.threads[u]) {
      assert Current(s, s.threads[u]) && Known(s, s.threads[u]) && Known(s, s.threads[t]);
      if u == t {
        OwnCurrent(s, t, c);
      } else {
        OtherCurrent(s, t, c, u);
      }
    }
  }

  lemma OtherCurrent(s: State, t: nat, c: Choice, u: nat)
    requires Locks(s) && Enabled(s, t, c) && Known(s, s.threads[t]) && u < |s.threads| && u != t
    requires Current(s, s.threads[u]) && Known(s, s.threads[u])
    ensures Current(Step(s, t, c), s.threads[u])
  {
    var x := s.threads[u];
    StepMovesMonitor(s, t, c);
    if x.TickReads? || x.TickWrites? {
      EntryWriterIsAlone(s, x.name, u, t);
      OnlyWritersWrite(s, t, c, x.name);
    }
  }

  lemma OwnCurrent(s: State, t: nat, c: Choice)
    requires Enabled(s, t, c) && Current(s, s.threads[t])
    ensures Current(Step(s, t, c), Step(s, t, c).threads[t])
  {
  }

  lemma StepKeepsGuarded(s: State, t: nat, c: Choice)
    requires Guarded(s) && Enabled(s, t, c)
    ensures Guarded(Step(s, t, c))
  {
    StepKeepsLocks(s, t, c);
    StepKeepsKnown(s, t, c);
    StepKeepsCurrent(s, t, c);
  }

  lemma StartIsGuarded(s: State)
    requires Initial(s)
    ensures Guarded(s)
  {
  }

  lemma {:induction false} RunIsGuarded(states: seq<State>, who: seq<nat>, choices: seq<Choice>, k: nat)
    requires Run(states, who, choices) && k < |states|
    ensures Guarded(states[k])
  {
    if k == 0 {
      StartIsGuarded(states[0]);
    } else {
      RunIsGuarded(states, who, choices, k - 1);
      assert states[k - 1 + 1] == Step(states[k - 1], who[k - 1], choices[k - 1]);
      StepKeepsGuarded(states[k - 1], who[k - 1], choices[k - 1]);
    }
  }
}
