/**
 * Restarting the process metrics collectors when the SAP instances of the host
 * change (internal/processmetrics/processmetrics.go).
 */
module CollectorRestart {
  import opened Common

  /** An instance: what identifies it, and everything else discovery says about it. */
  datatype Instance = Instance(id: Id, details: string)
  datatype Id = Id(sid: string, kind: int, number: string)

  type Instances = Option<seq<Instance>>

  function Ids(s: seq<Instance>): (ids: seq<Id>)
    ensures |ids| == |s| && forall i :: 0 <= i < |s| ==> ids[i] == s[i].id
  {
    seq(|s|, i requires 0 <= i < |s| => s[i].id)
  }

  predicate ContainsId(s: seq<Instance>, id: Id) {
    exists i :: i in s && i.id == id
  }

  /** Whether discovery found the same instances as before, as far as the update loop can tell. */
  method SapInstancesEqual(before: Instances, after: Instances) returns (same: bool)
    ensures same <==> LooksSame(before, after)
  {
    if before.None? && after.None? {
      return true;
    }
    if before.None? || after.None? {
      return false;
    }
    if before.value == after.value {
      IdentityLooksSame(before.value);
      return true;
    }
    if |before.value| != |after.value| {
      return false;
    }
    for i := 0 to |before.value|
      invariant forall k :: 0 <= k < i ==> ContainsId(after.value, before.value[k].id)
    {
      if !ContainsId(after.value, before.value[i].id) {
        return false;
      }
    }
    same := true;
  }

  /** As many instances as before, and every instance of before is there. */
  ghost predicate LooksSame(before: Instances, after: Instances) {
    match (before, after)
    case (None, None) => true
    case (Some(s), Some(t)) => |s| == |t| && forall k :: 0 <= k < |s| ==> ContainsId(t, s[k].id)
    case _ => false
  }

  lemma IdentityLooksSame(s: seq<Instance>)
    ensures LooksSame(Some(s), Some(s))
  {
    forall k | 0 <= k < |s| ensures ContainsId(s, s[k].id) {
      assert s[k] in s;
    }
  }

  /** Whether two lists have the same instances, in some order. */
  ghost predicate SameInstances(before: Instances, after: Instances) {
    match (before, after)
    case (None, None) => true
    case (Some(s), Some(t)) => multiset(Ids(s)) == multiset(Ids(t))
    case _ => false
  }

  ghost predicate DistinctIds(ids: seq<Id>) {
    forall i, j :: 0 <= i < j < |ids| ==> ids[i] != ids[j]
  }

  // ----- what the comparison decides ----------------------------------------

  /** A list of distinct elements that a list of the same length covers is a permutation of it. */
  lemma {:induction false} Pigeonhole(ids: seq<Id>, others: seq<Id>)
    requires DistinctIds(ids) && |ids| == |others| && forall k :: 0 <= k < |ids| ==> ids[k] in others
    ensures multiset(ids) == multiset(others)
  {
    if ids != [] {
      var last, init := ids[|ids| - 1], ids[..|ids| - 1];
      assert ids[|ids| - 1] in others;
      var j :| 0 <= j < |others| && others[j] == last;
      var rest := others[..j] + others[j + 1..];
      forall k | 0 <= k < |init| ensures init[k] in rest {
        assert ids[k] in others && ids[k] != last;
        Elsewhere(others, j, ids[k]);
      }
      Pigeonhole(init, rest);
      assert ids == init + [last];
      assert others == others[..j] + [last] + others[j + 1..];
    }
  }

  lemma Elsewhere(others: seq<Id>, j: nat, x: Id)
    requires j < |others| && x in others && x != others[j]
    ensures x in others[..j] + others[j + 1..]
  {
    assert others == others[..j] + [others[j]] + others[j + 1..];
  }

  /** With distinct instances before, the comparison decides whether the instances are the same. */
  lemma DistinctIsExact(s: seq<Instance>, after: Instances)
    requires DistinctIds(Ids(s))
    ensures LooksSame(Some(s), after) <==> SameInstances(Some(s), after)
  {
    if after.Some? {
      var t := after.value;
      if LooksSame(Some(s), after) {
        forall k | 0 <= k < |s| ensures Ids(s)[k] in Ids(t) {
          var i :| i in t && i.id == s[k].id;
          var m :| 0 <= m < |t| && t[m] == i;
          assert Ids(t)[m] == s[k].id;
        }
        Pigeonhole(Ids(s), Ids(t));
      }
      if SameInstances(Some(s), after) {
        SameLooksSame(s, t);
      }
    }
  }

  /** A permutation always looks the same. */
  lemma SameLooksSame(s: seq<Instance>, t: seq<Instance>)
    requires multiset(Ids(s)) == multiset(Ids(t))
    ensures LooksSame(Some(s), Some(t))
  {
    assert |s| == |multiset(Ids(s))| == |t|;
    forall k | 0 <= k < |s| ensures ContainsId(t, s[k].id) {
      assert Ids(s)[k] in multiset(Ids(t));
      var m :| 0 <= m < |t| && Ids(t)[m] == s[k].id;
      assert t[m] in t;
    }
  }

  lemma {:induction false} FreshSid(s: seq<Instance>) returns (sid: string)
    ensures forall i :: 0 <= i < |s| ==> |s[i].id.sid| < |sid|
  {
    sid := "x";
    if s != [] {
      var shorter := FreshSid(s[..|s| - 1]);
      sid := shorter + s[|s| - 1].id.sid + "x";
    }
  }

  /** With an instance listed twice, replacing one of the two by an unknown instance goes unnoticed. */
  lemma DuplicateIsMissed(s: seq<Instance>, i: nat, j: nat) returns (t: seq<Instance>)
    requires i < j < |s| && s[i].id == s[j].id
    ensures LooksSame(Some(s), Some(t)) && !SameInstances(Some(s), Some(t))
  {
    var sid := FreshSid(s);
    t := s[i := Instance(Id(sid, 0, ""), "")];
    forall k | 0 <= k < |s| ensures ContainsId(t, s[k].id) {
      var m := if k == i then j else k;
      assert t[m] == s[m] && t[m] in t;
    }
    assert Ids(t)[i] in multiset(Ids(t));
    assert forall k :: 0 <= k < |s| ==> Ids(s)[k] != Ids(t)[i];
  }

  /**
   * The comparison with a list of instances is right about every new list exactly
   * when no instance is listed twice in it.
   */
  lemma ExactOnlyIfDistinct(s: seq<Instance>)
    ensures (forall after: Instances :: LooksSame(Some(s), after) <==> SameInstances(Some(s), after)) <==> DistinctIds(Ids(s))
  {
    if DistinctIds(Ids(s)) {
      forall after: Instances ensures LooksSame(Some(s), after) <==> SameInstances(Some(s), after) {
        DistinctIsExact(s, after);
      }
    } else {
      var i, j :| 0 <= i < j < |Ids(s)| && Ids(s)[i] == Ids(s)[j];
      var t := DuplicateIsMissed(s, i, j);
      assert !(LooksSame(Some(s), Some(t)) <==> SameInstances(Some(s), Some(t)));
    }
  }

  // ----- the update loop ----------------------------------------------------

  /** What the loop compares a reading with: the reading before it, nothing at first. */
  ghost function Previous(readings: seq<Instances>, k: nat): Instances
    requires k < |readings|
  {
    if k == 0 then None else readings[k - 1]
  }

  /** The collectors: the contexts they were started with so far, and those that are cancelled. */
  class Collectors {
    var started: nat
    var cancelled: set<nat>

    /** All contexts but the current one are cancelled. */
    ghost predicate Valid()
      reads this
    {
      started >= 1 && forall c: nat :: c in cancelled <==> c < started - 1
    }

    constructor ()
      ensures Valid() && started == 1
    {
      started, cancelled := 1, {};
    }

    /** Cancels the current context and starts the collectors with a new one. */
    method Restart()
      requires Valid()
      modifies this
      ensures Valid() && started == old(started) + 1
    {
      cancelled := cancelled + {started - 1};
      started := started + 1;
    }

    /** Restarts the collectors at every reading of the instances that looks different from the one before. */
    method Update(readings: seq<Instances>) returns (restarts: seq<bool>)
      requires Valid()
      modifies this
      ensures Valid() && started == old(started) + Count(restarts)
      ensures Right(readings, restarts) && |restarts| == |readings|
    {
      restarts := [];
      var lastInstances: Instances := None;
      for i := 0 to |readings|
        invariant Valid() && started == old(started) + Count(restarts)
        invariant |restarts| == i && Right(readings, restarts) && lastInstances == if i == 0 then None else readings[i - 1]
      {
        var same := SapInstancesEqual(lastInstances, readings[i]);
        if !same {
          Restart();
        }
        CountSnoc(restarts, !same);
        RightSnoc(readings, restarts, !same);
        restarts := restarts + [!same];
        lastInstances := readings[i];
      }
    }
  }

  /** The first restarts are at the readings that look different from the ones before them. */
  ghost predicate Right(readings: seq<Instances>, restarts: seq<bool>) {
    |restarts| <= |readings|
    && forall k :: 0 <= k < |restarts| ==> (restarts[k] <==> !LooksSame(Previous(readings, k), readings[k]))
  }

  lemma RightSnoc(readings: seq<Instances>, restarts: seq<bool>, b: bool)
    requires Right(readings, restarts) && |restarts| < |readings|
    requires b <==> !LooksSame(Previous(readings, |restarts|), readings[|restarts|])
    ensures Right(readings, restarts + [b])
  {
  }

  function Count(s: seq<bool>): nat {
    if s == [] then 0 else Count(s[..|s| - 1]) + if s[|s| - 1] then 1 else 0
  }

  lemma CountSnoc(s: seq<bool>, b: bool)
    ensures Count(s + [b]) == Count(s) + if b then 1 else 0
  {
    assert (s + [b])[..|s|] == s;
  }

  /** When no reading lists an instance twice, collectors restart exactly when the instances have changed. */
  lemma RestartsOnChange(readings: seq<Instances>, restarts: seq<bool>, k: nat)
    requires Right(readings, restarts) && |restarts| == |readings|
    requires k < |readings| && forall i :: 0 <= i < |readings| && readings[i].Some? ==> DistinctIds(Ids(readings[i].value))
    ensures restarts[k] <==> !SameInstances(if k == 0 then None else readings[k - 1], readings[k])
  {
    var before := Previous(readings, k);
    if before.Some? {
      DistinctIsExact(before.value, readings[k]);
    }
  }
}
