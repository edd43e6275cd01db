/** The replication theorems for the server's own write commands. */
module RedisCluster {
  import opened StoreData
  import opened Session
  import opened RedisMachine
  import opened Cluster
  import opened ClusterRuns

  lemma RedisIsSound()
    ensures Sound(Redis)
  {
    RedisIsDeterministic();
    RedisReadsAcks();
  }

  /**
   A replica that has run every command it consumed holds exactly the keys and values the master held
   when the master's offset was the replica's, and there was such a moment.
   */
  lemma RedisReplicaWasTheMaster(states: seq<Cluster<Data>>, steps: seq<Step<Data>>, j: nat, id: nat) returns (i: nat)
    requires IsRun(Redis, states, steps) && EqualStarts(states, steps) && j < |states|
    requires id in states[j].nodes && states[j].nodes[id].session.phase.Streaming?
    requires states[j].nodes[id].applied == |Posted(states[j].nodes[id].session.taken)|
    ensures i <= j && states[i].registry.offset == states[j].nodes[id].session.offset
    ensures states[j].nodes[id].store == states[i].store
  {
    RedisIsSound();
    i := ReplicaWasTheMaster(Redis, states, steps, j, id);
  }
}
