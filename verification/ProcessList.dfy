/**
 * The process lists of SAP instances, completed with processes that are missing
 * because they stopped (internal/sapcontrolclient/sapcontrolclient.go).
 */
module ProcessList {
  import opened Common

  datatype OSProcess = OSProcess(name: string, dispstatus: string, pid: int)

  /** A successful call: the system number of the instance, and the processes it reported. */
  datatype Call = Call(systemNumber: string, processes: seq<OSProcess>)

  const GRAY := "SAPControl-GRAY"

  /** Whether a process is remembered. */
  predicate Counts(p: OSProcess) {
    p.name != "" && p.name != "sapcpe" && p.pid != 0 && p.pid != -1 && p.dispstatus != ""
  }

  ghost predicate ReportedIn(processes: seq<OSProcess>, name: string) {
    exists i :: 0 <= i < |processes| && processes[i].name == name && Counts(processes[i])
  }

  /** A response tells of a process unless its name is empty or sapcpe, it has no process id, or it has no status. */
  lemma ReportedInExactly(processes: seq<OSProcess>, name: string)
    ensures ReportedIn(processes, name) <==>
      name != "" && name != "sapcpe"
      && exists p :: p in processes && p.name == name && p.pid != 0 && p.pid != -1 && p.dispstatus != ""
  {
    if p :| p in processes && name != "" && name != "sapcpe" && p.name == name && p.pid != 0 && p.pid != -1 && p.dispstatus != "" {
      var i :| 0 <= i < |processes| && processes[i] == p;
      assert Counts(processes[i]);
    }
  }

  /** The entry for a missing process. */
  lemma MissingIs(name: string)
    ensures Missing(name).name == name && Missing(name).dispstatus == "SAPControl-GRAY" && Missing(name).pid == -1
  {
  }

  /** Whether some call for a system number reported a process of that name. */
  ghost predicate Reported(history: seq<Call>, name: string, sn: string) {
    exists i :: 0 <= i < |history| && history[i].systemNumber == sn && ReportedIn(history[i].processes, name)
  }

  predicate HasName(processes: seq<OSProcess>, name: string) {
    exists p :: p in processes && p.name == name
  }

  function Missing(name: string): OSProcess {
    OSProcess(name, GRAY, -1)
  }

  /**
   * The processes added to a response: one, gray and without a process id, for
   * every name that was reported before for the system number and is absent now.
   */
  ghost predicate IsCompletion(history: seq<Call>, c: Call, added: seq<OSProcess>) {
    && (forall p :: p in added ==> p == Missing(p.name))
    && (forall i, j :: 0 <= i < j < |added| ==> added[i].name != added[j].name)
    && (forall n :: Missing(n) in added <==> Reported(history, n, c.systemNumber) && !HasName(c.processes, n))
  }

  lemma ReportedSnoc(history: seq<Call>, c: Call, name: string, sn: string)
    ensures Reported(history + [c], name, sn) <==> Reported(history, name, sn) || (c.systemNumber == sn && ReportedIn(c.processes, name))
  {
    var h := history + [c];
    if Reported(history, name, sn) {
      var i :| 0 <= i < |history| && history[i].systemNumber == sn && ReportedIn(history[i].processes, name);
      assert h[i] == history[i];
    }
    assert h[|history|] == c;
  }

  lemma ReportedInSnoc(ps: seq<OSProcess>, p: OSProcess, name: string)
    ensures ReportedIn(ps + [p], name) <==> ReportedIn(ps, name) || (p.name == name && Counts(p))
  {
    var qs := ps + [p];
    if ReportedIn(ps, name) {
      var i :| 0 <= i < |ps| && ps[i].name == name && Counts(ps[i]);
      assert qs[i] == ps[i];
    }
    assert qs[|ps|] == p;
  }

  /** Calls for one system number. */
  ghost function CallsFor(history: seq<Call>, sn: string): seq<Call> {
    if history == [] then []
    else CallsFor(history[..|history| - 1], sn)
         + if history[|history| - 1].systemNumber == sn then [history[|history| - 1]] else []
  }

  lemma {:induction false} ReportedForOwn(history: seq<Call>, name: string, sn: string)
    ensures Reported(history, name, sn) <==> Reported(CallsFor(history, sn), name, sn)
  {
    if history != [] {
      var init, last := history[..|history| - 1], history[|history| - 1];
      ReportedForOwn(init, name, sn);
      assert history == init + [last];
      ReportedSnoc(init, last, name, sn);
      ReportedSnoc(CallsFor(init, sn), last, name, sn);
      assert CallsFor(init, sn) + [] == CallsFor(init, sn);
    }
  }

  /** Calls for other system numbers make no difference. */
  lemma OthersDoNotLeakIn(h: seq<Call>, g: seq<Call>, c: Call, added: seq<OSProcess>)
    requires CallsFor(h, c.systemNumber) == CallsFor(g, c.systemNumber)
    ensures IsCompletion(h, c, added) <==> IsCompletion(g, c, added)
  {
    forall n ensures Reported(h, n, c.systemNumber) <==> Reported(g, n, c.systemNumber) {
      ReportedForOwn(h, n, c.systemNumber);
      ReportedForOwn(g, n, c.systemNumber);
    }
  }

  /** For every name the system numbers that reported it, each once. */
  ghost predicate Remembers(seen: map<string, seq<string>>, history: seq<Call>) {
    && (forall n :: n in seen ==> forall i, j :: 0 <= i < j < |seen[n]| ==> seen[n][i] != seen[n][j])
    && (forall n, sn :: Reported(history, n, sn) <==> n in seen && sn in seen[n])
  }

  class SeenProcessList {
    var seen: map<string, seq<string>>
    /** All successful calls so far. */
    ghost var history: seq<Call>

    ghost predicate Valid()
      reads this
    {
      Remembers(seen, history)
    }

    constructor ()
      ensures Valid() && history == []
    {
      seen, history := map[], [];
    }

    /**
     * The processes of an instance, given the response of the SAP control
     * service or nothing if the call failed.
     */
    method GetProcessList(systemNumber: string, response: Option<seq<OSProcess>>) returns (r: Option<seq<OSProcess>>)
      requires Valid()
      modifies this
      ensures Valid()
      ensures response.None? ==> r.None? && history == old(history) && seen == old(seen)
      ensures response.Some? ==>
        var c := Call(systemNumber, response.value);
        && history == old(history) + [c]
        && r.Some? && response.value <= r.value && IsCompletion(old(history), c, r.value[|response.value|..])
    {
      if response.None? {
        return None;
      }
      var res := response.value;
      ghost var c := Call(systemNumber, res);
      Remember(systemNumber, res);
      var missing := AddMissing(systemNumber, res);
      assert IsCompletion(old(history), c, missing) by {
        forall n
          ensures Reported(history, n, systemNumber) && !HasName(res, n)
             <==> Reported(old(history), n, systemNumber) && !HasName(res, n)
        {
          ReportedSnoc(old(history), c, n, systemNumber);
        }
      }
      r := Some(res + missing);
    }

    /** Takes the processes of a response into account. */
    method Remember(systemNumber: string, processes: seq<OSProcess>)
      requires Valid()
      modifies this
      ensures Valid() && history == old(history) + [Call(systemNumber, processes)]
    {
      ghost var before := history;
      EmptyCall(seen, before, systemNumber);
      TakeAll(processes);
      for i := 0 to |processes|
        invariant history == before && Remembers(seen, before + [Call(systemNumber, processes[..i])])
      {
        var p := processes[i];
        TakeSnoc(processes, i);
        RememberOne(seen, before, systemNumber, processes[..i], p);
        if p.name == "" || p.name == "sapcpe" || p.pid == 0 || p.pid == -1 || p.dispstatus == "" {
          continue;
        }
        var numbers := if p.name in seen then seen[p.name] else [];
        if systemNumber !in numbers {
          seen := seen[p.name := numbers + [systemNumber]];
        }
      }
      history := before + [Call(systemNumber, processes)];
    }

    /** The processes missing from a response. The names are visited in an arbitrary order. */
    method AddMissing(systemNumber: string, processes: seq<OSProcess>) returns (missing: seq<OSProcess>)
      requires Valid()
      ensures IsCompletion(history, Call(systemNumber, processes), missing)
    {
      missing := [];
      var todo := seen.Keys;
      while todo != {}
        invariant todo <= seen.Keys
        invariant forall p :: p in missing ==> p == Missing(p.name) && p.name !in todo
        invariant forall i, j :: 0 <= i < j < |missing| ==> missing[i].name != missing[j].name
        invariant forall n :: Missing(n) in missing <==> n in seen && n !in todo && systemNumber in seen[n] && !HasName(processes, n)
      {
        var name :| name in todo;
        todo := todo - {name};
        if systemNumber in seen[name] && !HasName(processes + missing, name) {
          missing := missing + [Missing(name)];
        }
      }
    }
  }

  /** What is remembered after one more process. */
  function After(seen: map<string, seq<string>>, sn: string, p: OSProcess): map<string, seq<string>> {
    var numbers := if p.name in seen then seen[p.name] else [];
    if Counts(p) && sn !in numbers then seen[p.name := numbers + [sn]] else seen
  }

  lemma RememberOne(seen: map<string, seq<string>>, history: seq<Call>, sn: string, ps: seq<OSProcess>, p: OSProcess)
    requires Remembers(seen, history + [Call(sn, ps)])
    ensures Remembers(After(seen, sn, p), history + [Call(sn, ps + [p])])
  {
    forall n, m
      ensures Reported(history + [Call(sn, ps + [p])], n, m)
         <==> Reported(history + [Call(sn, ps)], n, m) || (m == sn && p.name == n && Counts(p))
    {
      ReportedSnoc(history, Call(sn, ps + [p]), n, m);
      ReportedSnoc(history, Call(sn, ps), n, m);
      ReportedInSnoc(ps, p, n);
    }
  }

  lemma EmptyCall(seen: map<string, seq<string>>, history: seq<Call>, sn: string)
    requires Remembers(seen, history)
    ensures Remembers(seen, history + [Call(sn, [])])
  {
    forall n, m ensures Reported(history + [Call(sn, [])], n, m) <==> Reported(history, n, m) {
      ReportedSnoc(history, Call(sn, []), n, m);
    }
  }
}
