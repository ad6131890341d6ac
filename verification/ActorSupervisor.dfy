/** The actor supervisor as it works: tables, registry and event log changed in place, instance by instance. */
module ActorSupervisor {
  import opened ActorRuns
  import opened Actors
  import opened Events
  import opened Options

  class Supervisor {
    var hosts: map<string, string>
    var running: seq<Instance>
    var subscribers: set<(string, string)>
    var revisions: map<(string, string), int>
    var events: seq<Event>
    var nextPid: nat

    ghost function Abstract(): State
      reads this
    {
      State(hosts, running, subscribers, revisions, events, nextPid)
    }

    constructor ()
      ensures Abstract() == INITIAL
    {
      hosts, running, subscribers, revisions, events, nextPid := map[], [], {}, map[], [], 0;
    }

    method Find(host: string, pk: string) returns (found: seq<Instance>)
      ensures found == FindActor(running, host, pk)
    {
      found := [];
      for k := 0 to |running|
        invariant found == FindActor(running[..k], host, pk)
      {
        FindAppended(running[..k], running[k], host, pk);
        assert running[..k + 1] == running[..k] + [running[k]];
        if running[k].host == host && running[k].publicKey == pk {
          found := found + [running[k]];
        }
      }
      assert running[..|running|] == running;
    }

    /** One child process: precompiles, records the claims, subscribes, announces itself and registers. */
    method StartChild(host: string, m: Module, oci: string, annotations: Annotations) returns (started: bool)
      requires host in hosts
      modifies this
      ensures Abstract() == StartOne(old(Abstract()), host, m, oci, annotations) && started == m.compiles
    {
      if m.compiles {
        var entry := (hosts[host], m.publicKey);
        revisions := revisions[entry := m.revision];
        subscribers := subscribers + {entry};
        events := events + [ActorStarted(host, m.publicKey)];
        running := running + [Instance(nextPid, host, m.publicKey, oci, annotations, m.code)];
        nextPid := nextPid + 1;
      } else {
        events := events + [ActorStartFailed(host, m.publicKey)];
      }
      started := m.compiles;
    }

    /** Walks the range from 1 to `count`, in whichever direction that is. */
    method StartActorInstances(host: string, m: Module, oci: string, annotations: Annotations, count: int)
      returns (pids: nat)
      requires host in hosts
      modifies this
      ensures Abstract() == StartMany(old(Abstract()), host, m, oci, annotations, RangeSize(count))
      ensures pids == if m.compiles then RangeSize(count) else 0
    {
      var at, step, done := 1, if count >= 1 then 1 else -1, false;
      ghost var left: nat := RangeSize(count);
      pids := 0;
      while !done
        invariant host in hosts && (done <==> left == 0) && left <= RangeSize(count)
        invariant left > 0 ==> at == if count >= 1 then count - (left - 1) else count + (left - 1)
        invariant StartMany(Abstract(), host, m, oci, annotations, left)
          == StartMany(old(Abstract()), host, m, oci, annotations, RangeSize(count))
        invariant pids == if m.compiles then RangeSize(count) - left else 0
        decreases left
      {
        var started := StartChild(host, m, oci, annotations);
        pids := if started then pids + 1 else pids;
        done, at, left := at == count, at + step, left - 1;
      }
    }

    method StartActor(host: string, m: Module, oci: string, count: int, annotations: Annotations, permitted: bool)
      returns (r: Result<nat>)
      modifies this
      ensures (Abstract(), r) == Actors.StartActor(old(Abstract()), host, m, oci, count, annotations, permitted)
    {
      if host !in hosts {
        return Err("Failed to find host");
      }
      if !permitted {
        events := events + [ActorsStartFailed(host, "policy")];
        return Err("denied");
      }
      var k := 0;
      while k < |running|
        invariant k <= |running|
        invariant !OtherReferenceRunning(running[..k], host, m.publicKey, oci)
      {
        if running[k].host == host && running[k].publicKey == m.publicKey && running[k].ociref != oci {
          events := events + [ActorsStartFailed(host, "reference")];
          return Err("already running with different reference");
        }
        k := k + 1;
      }
      assert running[..k] == running;
      var pids := StartActorInstances(host, m, oci, annotations, count);
      events := events + [ActorsStarted(host, m.publicKey, pids)];
      return Ok(pids);
    }

    /** Takes the first `count` instances, then halts those that carry the annotations. */
    method HaltRequiredActors(host: string, pk: string, annotations: Annotations, count: nat) returns (remaining: int)
      modifies this
      ensures Abstract() == HaltRequired(old(Abstract()), host, pk, annotations, count)
      ensures remaining == CountOf(old(Abstract()), host, pk) - count
    {
      var actors := Find(host, pk);
      remaining := |actors| - count;
      var targets := Take(actors, count);
      for k := 0 to |targets|
        invariant HaltEach(Abstract(), targets[k..], annotations) == HaltEach(old(Abstract()), targets, annotations)
      {
        if Matches(targets[k], annotations) {
          events := events + [ActorStopped(targets[k].host, targets[k].publicKey)];
          running := Without(running, targets[k]);
        }
      }
    }

    method TerminateActor(host: string, pk: string, count: nat, annotations: Annotations)
      requires host in hosts
      modifies this
      ensures Abstract() == Actors.TerminateActor(old(Abstract()), host, pk, count, annotations)
    {
      if count > 0 {
        var remaining := HaltRequiredActors(host, pk, annotations, count);
        events := events + [ActorsStopped(host, pk, count, remaining)];
        if remaining <= 0 {
          subscribers := subscribers - {(hosts[host], pk)};
        }
      } else {
        var actors := Find(host, pk);
        var _ := HaltRequiredActors(host, pk, annotations, |actors|);
        subscribers := subscribers - {(hosts[host], pk)};
      }
    }

    method ScaleActor(host: string, pk: string, desired: int, oci: string, fetchable: Fetchable, permitted: bool)
      returns (r: Result<nat>)
      requires host in hosts
      modifies this
      ensures (Abstract(), r) == Actors.ScaleActor(old(Abstract()), host, pk, desired, oci, fetchable, permitted)
    {
      var current := Find(host, pk);
      var ociref := if oci != "" then oci else if |current| >= 1 then current[0].ociref else "";
      var diff := |current| - desired;
      if diff == 0 {
        return Ok(0);
      } else if diff > 0 {
        TerminateActor(host, pk, diff, map[]);
        return Ok(0);
      } else if ociref != "" {
        if ociref !in fetchable {
          return Err("fetch");
        }
        r := StartActor(host, fetchable[ociref], ociref, -diff, map[], permitted);
      } else {
        return Err("no reference");
      }
    }

    /** Tells every running instance of an actor on a host, one after the other, to replace its code. */
    method UpdateInstances(host: string, m: Module) returns (updated: nat)
      modifies this
      ensures updated == CountOf(old(Abstract()), host, m.publicKey)
      ensures
        var told := if m.compiles then ActorUpdated(host, m.publicKey) else ActorUpdateFailed(host, m.publicKey);
        Abstract() == old(Abstract()).(
          running := if m.compiles then Recoded(old(running), host, m) else old(running),
          events := old(events) + Repeat(told, updated))
    {
      var told := if m.compiles then ActorUpdated(host, m.publicKey) else ActorUpdateFailed(host, m.publicKey);
      ghost var was, logged := running, events;
      updated := 0;
      for k := 0 to |running|
        invariant |running| == |was| && running[k..] == was[k..]
        invariant forall j :: 0 <= j < k ==> running[j] == if m.compiles then Recoded(was, host, m)[j] else was[j]
        invariant updated == |FindActor(was[..k], host, m.publicKey)| && events == logged + Repeat(told, updated)
        invariant hosts == old(hosts) && subscribers == old(subscribers) && nextPid == old(nextPid) &&
          revisions == old(revisions)
      {
        FindAppended(was[..k], was[k], host, m.publicKey);
        assert was[..k + 1] == was[..k] + [was[k]];
        assert running[k] == running[k..][0] == was[k..][0] == was[k];
        if running[k].host == host && running[k].publicKey == m.publicKey {
          if m.compiles {
            running := running[k := running[k].(code := m.code)];
          }
          events := events + [told];
          assert Repeat(told, updated + 1) == Repeat(told, updated) + [told];
          updated := updated + 1;
        }
      }
      assert was[..|was|] == was;
      assert running == if m.compiles then Recoded(was, host, m) else was;
    }

    method LiveUpdate(host: string, oci: string, fetchable: Fetchable) returns (r: Result<nat>)
      requires host in hosts
      modifies this
      ensures (Abstract(), r) == Actors.LiveUpdate(old(Abstract()), host, oci, fetchable)
    {
      if oci !in fetchable {
        return Err("fetch");
      }
      var m := fetchable[oci];
      var entry := (hosts[host], m.publicKey);
      if entry !in revisions {
        return Err("no claims");
      }
      if m.revision <= revisions[entry] {
        return Err("not newer");
      }
      revisions := revisions[entry := m.revision];
      var updated := UpdateInstances(host, m);
      return Ok(updated);
    }
  }
}
