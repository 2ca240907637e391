/** Runs in which resynchronizations of one replica overlap.

    Nothing in the program prevents these: the resynchronization endpoint may be called while
    an earlier call is under way, the synchronizer takes no lock, and a snapshot is installed
    whatever its generation.  Every run here starts synchronizations only as the program
    does: comparing at startup, resynchronizing on request. */
module ProtocolRuns {
  import opened Basics
  import opened Nodes
  import opened Protocol
  import opened ProtocolSafety

  function Last(t: Trace): Shard
    requires t.states != []
  {
    t.states[|t.states| - 1]
  }

  lemma Extend(p: Pipeline, t: Trace, step: Step) returns (t': Trace)
    requires IsRun(p, t) && Enabled(p, Last(t), step)
    ensures IsRun(p, t') && Last(t') == Next(p, Last(t), step)
    ensures t'.steps == t.steps + [step] && t.states <= t'.states
    ensures DeployedRun(p, t) && AsDeployed(Last(t), step) ==> DeployedRun(p, t')
  {
    t' := Trace(t.states + [Next(p, Last(t), step)], t.steps + [step]);
    forall k | 0 <= k < |t'.steps| ensures StepsTo(p, t'.states[k], t'.steps[k], t'.states[k + 1]) {
      if k < |t.steps| {
        assert StepsTo(p, t.states[k], t.steps[k], t.states[k + 1]);
      }
    }
  }

  // ---------------------------------------------------------------------------
  // A shard with one replica, both copies serving an empty corpus
  // ---------------------------------------------------------------------------

  function Live(p: Pipeline, disk: Disk): Node {
    Node(disk, disk.generation, Rebuilt(p, disk.documents), Ready)
  }

  const EMPTY := Disk(map[], 0)

  function Cold(p: Pipeline): Shard {
    Shard([], Down(p, EMPTY), [Replica(Down(p, EMPTY), map[])], Idle, {}, {}, {})
  }

  function WithPrimary(log: seq<Op>, primary: Node, r: Replica, pending: Pending,
    messages: set<Message>, replies: set<(nat, nat)>, acked: set<nat>): Shard
  {
    Shard(log, primary, [r], pending, messages, replies, acked)
  }

  function Quiet(p: Pipeline, r: Replica): Shard {
    WithPrimary([], Live(p, EMPTY), r, Idle, {}, {}, {})
  }

  function Waiting(p: Pipeline): Node {
    Live(p, EMPTY).(state := Recovering)
  }

  lemma BothUp(p: Pipeline) returns (t: Trace)
    ensures DeployedRun(p, t)
    ensures Last(t) == Quiet(p, Replica(Waiting(p), map[0 := Verifying(0)]))
  {
    t := Trace([Cold(p)], []);
    t := Extend(p, t, PrimaryRestart(RebuildSucceeds));
    assert Last(t) == Quiet(p, Replica(Down(p, EMPTY), map[]));
    t := Extend(p, t, ReplicaRestart(0, 0, RebuildSucceeds));
  }

  lemma BothReady(p: Pipeline) returns (t: Trace)
    ensures DeployedRun(p, t) && Last(t) == Quiet(p, Replica(Live(p, EMPTY), map[]))
  {
    t := BothUp(p);
    t := Extend(p, t, ReadRemote(0, 0));
    assert map[0 := Verifying(0)][0 := Compared(0, 0)] == map[0 := Compared(0, 0)];
    assert Last(t) == Quiet(p, Replica(Waiting(p), map[0 := Compared(0, 0)]));
    t := Extend(p, t, Decide(0, 0));
    assert map[0 := Compared(0, 0)] - {0} == map[];
  }

  // ---------------------------------------------------------------------------
  // A stale snapshot undoes an acknowledged write
  // ---------------------------------------------------------------------------

  lemma OneSnapshotHeld(p: Pipeline) returns (t: Trace)
    ensures DeployedRun(p, t)
    ensures Last(t) == Quiet(p, Replica(Waiting(p), map[1 := Holding(EMPTY)]))
  {
    t := BothReady(p);
    t := Extend(p, t, StartResync(0, 1));
    assert Last(t) == Quiet(p, Replica(Waiting(p), map[1 := Fetching]));
    t := Extend(p, t, Export(0, 1));
    assert map[1 := Fetching][1 := Holding(EMPTY)] == map[1 := Holding(EMPTY)];
  }

  lemma TwoSnapshotsHeld(p: Pipeline) returns (t: Trace)
    ensures DeployedRun(p, t)
    ensures Last(t) == Quiet(p, Replica(Waiting(p), map[1 := Holding(EMPTY), 2 := Holding(EMPTY)]))
  {
    t := OneSnapshotHeld(p);
    t := Extend(p, t, StartResync(0, 2));
    var one := map[1 := Holding(EMPTY), 2 := Fetching];
    assert Last(t) == Quiet(p, Replica(Waiting(p), one));
    t := Extend(p, t, Export(0, 2));
    assert one[2 := Holding(EMPTY)] == map[1 := Holding(EMPTY), 2 := Holding(EMPTY)];
  }

  /** One resynchronization overtakes another that already holds its snapshot. */
  lemma Overtaken(p: Pipeline) returns (t: Trace)
    ensures DeployedRun(p, t)
    ensures Last(t) == Quiet(p, Replica(Live(p, EMPTY), map[1 := Holding(EMPTY)]))
  {
    t := TwoSnapshotsHeld(p);
    t := Extend(p, t, Install(0, 2, INSTALLED));
    assert map[1 := Holding(EMPTY), 2 := Holding(EMPTY)] - {2} == map[1 := Holding(EMPTY)];
  }

  const WRITE: Op := Put("a", "")
  const ONE := Disk(map["a" := ""], 1)

  function FirstMessage(): Message {
    Message(0, 1, WRITE)
  }

  /** A write is then acknowledged by both copies while the old snapshot is still held. */
  lemma Acknowledged(p: Pipeline) returns (t: Trace)
    ensures DeployedRun(p, t)
    ensures Last(t) == WithPrimary([WRITE], Live(p, ONE),
              Replica(Live(p, ONE), map[1 := Holding(EMPTY)]), Idle, {FirstMessage()}, {(0, 1)}, {1})
  {
    t := ReplicaReported(p);
    t := Extend(p, t, Acknowledge);
  }

  /** The replica has reported the write; the primary has yet to acknowledge it. */
  lemma ReplicaReported(p: Pipeline) returns (t: Trace)
    ensures DeployedRun(p, t)
    ensures Last(t) == WithPrimary([WRITE], Live(p, ONE),
              Replica(Live(p, ONE), map[1 := Holding(EMPTY)]),
              InFlight(1, WRITE, 1), {FirstMessage()}, {(0, 1)}, {})
  {
    t := Overtaken(p);
    var holding := map[1 := Holding(EMPTY)];
    DeriveIsRebuild(p, map[], WRITE);
    assert ApplyOp(map[], WRITE) == ONE.documents;
    t := Extend(p, t, PrimaryWrite(WRITE, NoFault));
    assert Last(t) == WithPrimary([WRITE], Live(p, ONE), Replica(Live(p, EMPTY), holding),
                        InFlight(1, WRITE, 0), {}, {}, {});
    t := Extend(p, t, Send);
    assert Last(t) == WithPrimary([WRITE], Live(p, ONE), Replica(Live(p, EMPTY), holding),
                        InFlight(1, WRITE, 0), {FirstMessage()}, {}, {});
    t := Extend(p, t, Deliver(FirstMessage(), NoFault));
    assert Last(t) == WithPrimary([WRITE], Live(p, ONE), Replica(Live(p, ONE), holding),
                        InFlight(1, WRITE, 0), {FirstMessage()}, {(0, 1)}, {});
    t := Extend(p, t, Advance);
    assert Last(t) == WithPrimary([WRITE], Live(p, ONE), Replica(Live(p, ONE), holding),
                        InFlight(1, WRITE, 1), {FirstMessage()}, {(0, 1)}, {});
  }

  /** The write-all guarantee needs the assumption: here a READY replica has lost an
      acknowledged write because a second, older snapshot was installed. */
  lemma OverlapLosesAcknowledgedWrite(p: Pipeline) returns (t: Trace)
    ensures DeployedRun(p, t) && !ExclusiveRun(p, t)
    ensures var s := Last(t);
            && 1 in s.acked && s.log == [WRITE] && |s.replicas| == 1
            && s.replicas[0].node == Live(p, EMPTY) && "a" !in s.replicas[0].node.disk.documents
  {
    t := Acknowledged(p);
    t := Extend(p, t, Install(0, 1, INSTALLED));
    assert Last(t).replicas[0].node == Live(p, EMPTY);
    assert !Reached(Last(t), 1);
    if ExclusiveRun(p, t) {
      ExclusiveRunIsSafe(p, t, |t.states| - 1);
      AcknowledgedIsReached(p, Last(t), 1);
      assert false;
    }
  }

  /** Nor is it enough that the snapshot is as new as every acknowledged write: here nothing
      has been acknowledged when the older snapshot is installed, but the replica has already
      reported a write, and the primary acknowledges it afterwards. */
  lemma ReportedWriteIsLost(p: Pipeline) returns (t: Trace)
    ensures DeployedRun(p, t) && |t.steps| >= 2
    ensures t.steps[|t.steps| - 2..] == [Install(0, 1, INSTALLED), Acknowledge]
    ensures t.states[|t.states| - 3].acked == {}
    ensures var s := Last(t);
            && 1 in s.acked && s.log == [WRITE] && |s.replicas| == 1
            && s.replicas[0].node == Live(p, EMPTY) && "a" !in s.replicas[0].node.disk.documents
  {
    t := ReplicaReported(p);
    var before := t;
    t := Extend(p, t, Install(0, 1, INSTALLED));
    t := Extend(p, t, Acknowledge);
    assert t.states[|t.states| - 3] == Last(before);
  }

  // ---------------------------------------------------------------------------
  // Memory ahead of the disk
  // ---------------------------------------------------------------------------

  /** Two resynchronizations hold snapshots from before and after a write. */
  lemma BeforeAndAfterHeld(p: Pipeline) returns (t: Trace)
    ensures DeployedRun(p, t)
    ensures Last(t) == WithPrimary([WRITE], Live(p, ONE),
              Replica(Waiting(p), map[1 := Holding(EMPTY), 2 := Holding(ONE)]),
              InFlight(1, WRITE, 0), {}, {}, {})
  {
    t := OneSnapshotHeld(p);
    DeriveIsRebuild(p, map[], WRITE);
    assert ApplyOp(map[], WRITE) == ONE.documents;
    t := Extend(p, t, PrimaryWrite(WRITE, NoFault));
    assert Last(t) == WithPrimary([WRITE], Live(p, ONE), Replica(Waiting(p), map[1 := Holding(EMPTY)]),
                        InFlight(1, WRITE, 0), {}, {}, {});
    t := Extend(p, t, StartResync(0, 2));
    var one := map[1 := Holding(EMPTY), 2 := Fetching];
    assert Last(t) == WithPrimary([WRITE], Live(p, ONE), Replica(Waiting(p), one),
                        InFlight(1, WRITE, 0), {}, {}, {});
    t := Extend(p, t, Export(0, 2));
    assert one[2 := Holding(ONE)] == map[1 := Holding(EMPTY), 2 := Holding(ONE)];
  }

  /** The newer snapshot is installed; then the older one replaces the disk, but its rebuild
      fails, and memory stays at the newer generation. */
  lemma MemoryAhead(p: Pipeline) returns (t: Trace)
    ensures DeployedRun(p, t)
    ensures Last(t) == WithPrimary([WRITE], Live(p, ONE),
              Replica(Live(p, ONE).(disk := EMPTY, state := Recovering), map[1 := Failing]),
              InFlight(1, WRITE, 0), {}, {}, {})
  {
    t := BeforeAndAfterHeld(p);
    t := Extend(p, t, Install(0, 2, INSTALLED));
    assert map[1 := Holding(EMPTY), 2 := Holding(ONE)] - {2} == map[1 := Holding(EMPTY)];
    assert Last(t) == WithPrimary([WRITE], Live(p, ONE), Replica(Live(p, ONE), map[1 := Holding(EMPTY)]),
                        InFlight(1, WRITE, 0), {}, {}, {});
    t := Extend(p, t, Install(0, 1, Replaced(NothingRebuilt)));
    assert map[1 := Holding(EMPTY)][1 := Failing] == map[1 := Failing];
  }

  /** The guard on memory is needed as well: here the replica had reported nothing when the
      older snapshot was installed, yet it answers the write from memory, as a duplicate, and
      the write is acknowledged with the replica's disk empty. */
  lemma DuplicateFromMemoryLosesWrite(p: Pipeline) returns (t: Trace)
    ensures DeployedRun(p, t)
    ensures forall k :: 0 <= k < |t.steps| && t.steps[k].Install? ==> t.states[k].replies == {}
    ensures var s := Last(t);
            && 1 in s.acked && s.log == [WRITE] && |s.replicas| == 1
            && s.replicas[0].node.disk == EMPTY
  {
    t := MemoryAhead(p);
    var behind := Live(p, ONE).(disk := EMPTY, state := Recovering);
    var before := t;
    t := Extend(p, t, Send);
    t := Extend(p, t, Deliver(FirstMessage(), NoFault));
    assert Last(t) == WithPrimary([WRITE], Live(p, ONE), Replica(behind, map[1 := Failing]),
                        InFlight(1, WRITE, 0), {FirstMessage()}, {(0, 1)}, {});
    t := Extend(p, t, Advance);
    t := Extend(p, t, Acknowledge);
    RepliesOnlyGrow(p, before, |before.steps|);
    forall k | 0 <= k < |t.steps| && t.steps[k].Install? ensures t.states[k].replies == {} {
      assert k < |before.steps|;
      RepliesOnlyGrow(p, before, k);
    }
  }

  lemma {:induction false} RepliesOnlyGrow(p: Pipeline, t: Trace, k: nat)
    requires IsRun(p, t) && k <= |t.steps|
    ensures t.states[k].replies <= Last(t).replies
    decreases |t.steps| - k
  {
    if k < |t.steps| {
      assert StepsTo(p, t.states[k], t.steps[k], t.states[k + 1]);
      RepliesOnlyGrow(p, t, k + 1);
    }
  }
}
