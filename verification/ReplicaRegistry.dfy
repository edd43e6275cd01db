/** The master's registry of replicas (src/replication/ReplicaRegistry.cpp). */
module ReplicaRegistry {
  import opened Base
  import opened Resp
  import opened ReplicationLink

  /** A registered replica: what was written to its socket and not yet read, and its last ACK. */
  datatype Peer = Peer(wire: string, acked: int)

  datatype Registry = Registry(offset: nat, peers: map<nat, Peer>, nextId: nat)

  function Added(r: Registry): Registry {
    r.(peers := r.peers[r.nextId := Peer("", 0)], nextId := r.nextId + 1)
  }

  function Removed(r: Registry, id: nat): Registry {
    r.(peers := r.peers - {id})
  }

  /** Every registered replica receives the same bytes, and the master counts them once. */
  function Propagated(r: Registry, bytes: string): Registry {
    r.(offset := r.offset + |bytes|,
       peers := map id | id in r.peers :: r.peers[id].(wire := r.peers[id].wire + bytes))
  }

  function AckRecorded(r: Registry, id: nat, offset: int): Registry {
    if id in r.peers then r.(peers := r.peers[id := r.peers[id].(acked := offset)]) else r
  }

  /** The replicas whose last ACK reached `target`. */
  function AckedAtLeast(r: Registry, target: int): set<nat> {
    set id | id in r.peers && r.peers[id].acked >= target
  }

  class ReplicaRegistry {
    var masterOffset: nat
    var replicas: map<nat, Peer>
    var nextId: nat

    ghost function State(): Registry
      reads this
    {
      Registry(masterOffset, replicas, nextId)
    }

    constructor ()
      ensures State() == Registry(0, map[], 0)
    {
      masterOffset, replicas, nextId := 0, map[], 0;
    }

    method Add() returns (id: nat)
      modifies this
      ensures id == old(nextId) && State() == Added(old(State()))
    {
      id := nextId;
      nextId := nextId + 1;
      replicas := replicas[id := Peer("", 0)];
    }

    method Remove(id: nat)
      modifies this
      ensures State() == Removed(old(State()), id)
    {
      replicas := replicas - {id};
    }

    /** Counts the bytes, then writes them to every replica in turn. */
    method Propagate(bytes: string)
      modifies this
      ensures State() == Propagated(old(State()), bytes)
    {
      masterOffset := masterOffset + |bytes|;
      var todo := replicas.Keys;
      while todo != {}
        invariant todo <= replicas.Keys == old(replicas).Keys
        invariant masterOffset == old(masterOffset) + |bytes| && nextId == old(nextId)
        invariant forall id :: id in replicas && id in todo ==> replicas[id] == old(replicas)[id]
        invariant forall id :: id in replicas && id !in todo ==>
                    replicas[id] == old(replicas)[id].(wire := old(replicas)[id].wire + bytes)
        decreases |todo|
      {
        var id :| id in todo;
        replicas := replicas[id := replicas[id].(wire := replicas[id].wire + bytes)];
        todo := todo - {id};
      }
    }

    method RecordAck(id: nat, offset: int)
      modifies this
      ensures State() == AckRecorded(old(State()), id, offset)
    {
      if id in replicas {
        replicas := replicas[id := replicas[id].(acked := offset)];
      }
    }

    method RequestGetAck()
      modifies this
      ensures State() == Propagated(old(State()), Serialize(GetAck))
    {
      Propagate(Serialize(GetAck));
    }

    method CountAckedAtLeast(target: int) returns (count: nat)
      ensures count == |AckedAtLeast(State(), target)|
    {
      var todo := replicas.Keys;
      ghost var counted: set<nat> := {};
      count := 0;
      while todo != {}
        invariant todo <= replicas.Keys
        invariant counted == (set id | id in replicas && id !in todo && replicas[id].acked >= target)
        invariant count == |counted|
        decreases |todo|
      {
        var id :| id in todo;
        todo := todo - {id};
        if replicas[id].acked >= target {
          count := count + 1;
          counted := counted + {id};
        }
      }
      assert counted == AckedAtLeast(State(), target);
    }
  }

  /**
   WAIT (src/command/impl/ReplicationCommands.cpp) up to its first poll: it answers at once when enough
   replicas already acknowledged everything propagated so far, and otherwise asks all of them for an ACK.
   */
  method WaitStart(registry: ReplicaRegistry, wanted: nat) returns (target: nat, reply: Option<nat>)
    modifies registry
    ensures target == old(registry.masterOffset)
    ensures
      var already := |AckedAtLeast(old(registry.State()), target)|;
      if already >= wanted then reply == Some(already) && registry.State() == old(registry.State())
      else reply == None && registry.State() == Propagated(old(registry.State()), Serialize(GetAck))
  {
    target := registry.masterOffset;
    var already := registry.CountAckedAtLeast(target);
    if already >= wanted { return target, Some(already); }
    registry.RequestGetAck();
    return target, None;
  }

  /** One poll of WAIT: it answers with the count once that is enough, or when its time is up. */
  method WaitPoll(registry: ReplicaRegistry, target: nat, wanted: nat, timedOut: bool) returns (reply: Option<nat>)
    ensures
      var count := |AckedAtLeast(registry.State(), target)|;
      reply == if count >= wanted || timedOut then Some(count) else None
  {
    var count := registry.CountAckedAtLeast(target);
    if count >= wanted || timedOut { return Some(count); }
    return None;
  }
}
