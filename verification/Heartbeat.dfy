/**
 * The heartbeat monitor, one call at a time (internal/heartbeat/heartbeat.go).
 * HeartbeatLocks.dfy lets the calls interleave.
 */
module Heartbeat {
  import opened Common

  function Min(a: int, b: int): int {
    if a < b then a else b
  }

  class Registration {
    const name: string
    var missedHeartbeats: int
    /** The number of increments since the registration or the last beat. */
    ghost var since: nat

    constructor (name: string)
      ensures this.name == name && missedHeartbeats == 0 && since == 0
    {
      this.name := name;
      missedHeartbeats, since := 0, 0;
    }

    /** The beat function handed out when registering with `monitor`. */
    method Beat(ghost monitor: Monitor)
      requires monitor.Valid() && this in monitor.registrations.Values
      modifies this
      ensures monitor.Valid() && monitor.Since() == old(monitor.Since())[name := 0]
    {
      missedHeartbeats := 0;
      since := 0;
    }
  }

  class Monitor {
    const threshold: int
    var registrations: map<string, Registration>

    ghost predicate Valid()
      reads this, registrations.Values
    {
      && threshold >= 0
      && (forall n :: n in registrations ==> registrations[n].name == n)
      && (forall n :: n in registrations ==> registrations[n].missedHeartbeats == Min(threshold, registrations[n].since))
    }

    /** For every registered name, the number of increments since its registration or last beat. */
    ghost function Since(): map<string, nat>
      reads this, registrations.Values
    {
      map n | n in registrations :: registrations[n].since
    }

    constructor (threshold: int)
      requires threshold >= 0
      ensures Valid() && this.threshold == threshold && Since() == map[]
    {
      this.threshold := threshold;
      registrations := map[];
    }

    /** Fails for a name that is already registered. */
    method Register(name: string) returns (spec: Option<Registration>)
      requires Valid()
      modifies this
      ensures Valid()
      ensures spec.None? <==> name in old(registrations)
      ensures spec.None? ==> registrations == old(registrations) && Since() == old(Since())
      ensures spec.Some? ==> fresh(spec.value) && registrations == old(registrations)[name := spec.value]
                             && Since() == old(Since())[name := 0]
    {
      if name in registrations {
        return None;
      }
      var reg := new Registration(name);
      registrations := registrations[name := reg];
      spec := Some(reg);
    }

    /** Increments every counter that is below the threshold, in any order. */
    method IncrementAll()
      requires Valid()
      modifies registrations.Values
      ensures Valid() && registrations == old(registrations)
      ensures Since() == map n | n in old(Since()) :: old(Since())[n] + 1
    {
      var todo := registrations.Keys;
      while todo != {}
        invariant todo <= registrations.Keys
        invariant Valid()
        invariant forall n :: n in registrations ==> registrations[n].since == old(registrations[n].since) + if n in todo then 0 else 1
      {
        var n :| n in todo;
        IncrementOne(registrations[n]);
        todo := todo - {n};
      }
    }

    method IncrementOne(r: Registration)
      requires r.missedHeartbeats == Min(threshold, r.since)
      modifies r
      ensures r.since == old(r.since) + 1 && r.missedHeartbeats == Min(threshold, r.since)
    {
      if r.missedHeartbeats < threshold {
        r.missedHeartbeats := r.missedHeartbeats + 1;
      }
      r.since := r.since + 1;
    }

    /** A service is healthy exactly when it has seen fewer increments than the threshold since it last reported. */
    method GetStatuses() returns (statuses: map<string, bool>)
      requires Valid()
      ensures statuses == map n | n in Since() :: Since()[n] < threshold
    {
      statuses := map[];
      var todo := registrations.Keys;
      while todo != {}
        invariant todo <= registrations.Keys
        invariant statuses == map n | n in registrations && n !in todo :: registrations[n].since < threshold
      {
        var n :| n in todo;
        statuses := statuses[n := registrations[n].missedHeartbeats < threshold];
        todo := todo - {n};
      }
    }
  }
}
