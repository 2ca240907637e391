/** Safety of replication over whole runs. */
module ProtocolSafety {
  import opened Basics
  import opened Nodes
  import opened Protocol

  // ---------------------------------------------------------------------------
  // The log only grows
  // ---------------------------------------------------------------------------

  lemma PrefixKept(log: seq<Op>, op: Op, n: nat)
    requires n <= |log|
    ensures (log + [op])[..n] == log[..n]
  {
  }

  lemma NodeOkExtends(p: Pipeline, log: seq<Op>, op: Op, n: Node)
    requires NodeOk(p, log, n)
    ensures NodeOk(p, log + [op], n)
  {
    PrefixKept(log, op, n.disk.generation);
  }

  lemma PhaseOkExtends(log: seq<Op>, op: Op, phase: Phase)
    requires PhaseOk(log, phase)
    ensures PhaseOk(log + [op], phase)
  {
    if phase.Holding? {
      PrefixKept(log, op, phase.snapshot.generation);
    }
  }

  // ---------------------------------------------------------------------------
  // One node at a time
  // ---------------------------------------------------------------------------

  lemma ReplayNext(log: seq<Op>, op: Op)
    ensures Replay(log + [op]) == ApplyOp(Replay(log), op)
  {
    assert (log + [op])[..|log|] == log;
  }

  lemma ReplayPrefix(log: seq<Op>, g: nat)
    requires 1 <= g <= |log|
    ensures Replay(log[..g]) == ApplyOp(Replay(log[..g - 1]), log[g - 1])
  {
    assert log[..g] == log[..g - 1] + [log[g - 1]];
    ReplayNext(log[..g - 1], log[g - 1]);
  }

  /** A local write commits at most one operation, and then exactly the one asked for. */
  lemma WriteKeepsPrimary(p: Pipeline, log: seq<Op>, n: Node, op: Op, fault: Fault)
    requires PrimaryOk(p, log, n)
    ensures var (after, reply) := Write(p, n, op, fault);
            PrimaryOk(p, if Committed(reply) then log + [op] else log, after)
  {
    if Committed(Write(p, n, op, fault).1) {
      CommitKeepsPrimary(p, log, n, op, fault.Wreck());
    }
  }

  lemma CommitKeepsPrimary(p: Pipeline, log: seq<Op>, n: Node, op: Op, wreck: Option<Derived>)
    requires PrimaryOk(p, log, n) && n.state == Ready
    ensures PrimaryOk(p, log + [op], CommitLocal(p, n, op, wreck))
  {
    ReplayNext(log, op);
    DeriveIsRebuild(p, n.disk.documents, op);
  }

  /** A replicated mutation from the log keeps a replica on the log, never moves its disk
      back, and is on disk whenever the reply is a success. */
  lemma ApplyKeepsNode(
    p: Pipeline, log: seq<Op>, n: Node, op: Op, generation: nat, fault: Fault)
    requires NodeOk(p, log, n)
    requires 1 <= generation <= |log| && op == log[generation - 1]
    ensures var (after, reply) := ApplyReplicated(p, n, op, generation, fault);
            && NodeOk(p, log, after)
            && n.disk.generation <= after.disk.generation
            && (reply.Applied? || reply.Duplicate? ==> generation <= after.disk.generation)
            && (n.state != Ready ==> after.state != Ready && after.disk == n.disk && after.generation == n.generation)
  {
    if generation == n.generation + 1 && n.state == Ready {
      ReplayPrefix(log, generation);
      DeriveIsRebuild(p, n.disk.documents, op);
      if op.Delete? && op.id !in n.disk.documents {
        assert ApplyOp(n.disk.documents, op) == n.disk.documents;
      }
    }
  }

  /** Installing a snapshot of the log keeps a replica on the log exactly when memory does
      not run ahead of it, even if the rebuild fails after the commit. */
  lemma InstallKeepsNode(
    p: Pipeline, log: seq<Op>, n: Node, snapshot: Disk, fault: InstallFault)
    requires NodeOk(p, log, n)
    requires snapshot.generation <= |log| && snapshot.documents == Replay(log[..snapshot.generation])
    ensures var after := Resynchronize(p, n, snapshot.documents, snapshot.generation, fault);
            && (NodeOk(p, log, after) <==>
                  (fault.Replaced? ==> MemoryFollows(p, n, snapshot, fault.rebuild)))
            && after.disk == (if fault.ReplaceFails? then n.disk else snapshot)
            && (after.state == Ready <==> fault == INSTALLED)
  {
  }

  lemma DownIsOk(p: Pipeline, log: seq<Op>, n: Node)
    requires NodeOk(p, log, n)
    ensures NodeOk(p, log, Down(p, n.disk))
  {
    assert log[..0] == [];
  }

  // ---------------------------------------------------------------------------
  // One step at a time
  // ---------------------------------------------------------------------------

  /** Replacing one replica keeps the invariant exactly when the new one is on the log and
      holds everything it has reported. */
  lemma ReplaceReplica(p: Pipeline, s: Shard, i: nat, r: Replica)
    requires Inv(p, s) && i < |s.replicas|
    ensures Inv(p, WithReplica(s, i, r)) <==>
              ReplicaOk(p, s.log, r) && KeepsReports(s, i, r.node.disk.generation)
  {
    var s' := WithReplica(s, i, r);
    assert s'.replicas[i] == r;
    forall reply | reply in s.replies
      ensures ReplyOk(s', reply) <==> (reply.0 == i ==> reply.1 <= r.node.disk.generation)
    {
      assert ReplyOk(s, reply);
    }
    forall g | g in s.acked ensures Reported(s', |s'.replicas|, g) {
      assert Reported(s, |s.replicas|, g);
    }
  }

  /** Whatever was acknowledged has reached every disk. */
  lemma AcknowledgedIsReached(p: Pipeline, s: Shard, g: nat)
    requires Inv(p, s) && g in s.acked
    ensures Reached(s, g)
  {
    assert Reported(s, |s.replicas|, g);
    forall i | 0 <= i < |s.replicas| ensures g <= s.replicas[i].node.disk.generation {
      assert ReplyOk(s, (i, g));
    }
  }

  lemma WriteKeepsInv(p: Pipeline, s: Shard, op: Op, fault: Fault)
    requires Inv(p, s) && s.pending.Idle?
    ensures Inv(p, WriteStep(p, s, op, fault))
  {
    var (node, reply) := Write(p, s.primary, op, fault);
    var after := WriteStep(p, s, op, fault);
    WriteKeepsPrimary(p, s.log, s.primary, op, fault);
    if Committed(reply) {
      ExtendLog(p, s, op);
      assert InFlightOk(after);
    } else {
      assert after == s.(primary := node);
    }
  }

  lemma ExtendLog(p: Pipeline, s: Shard, op: Op)
    requires Inv(p, s)
    ensures var log := s.log + [op];
            && (forall i :: 0 <= i < |s.replicas| ==> ReplicaOk(p, log, s.replicas[i]))
            && (forall m :: m in s.messages ==> MessageOk(log, m))
            && (forall g :: g in s.acked ==> Reported(s.(log := log), |s.replicas|, g))
            && (forall reply :: reply in s.replies ==> ReplyOk(s.(log := log), reply))
  {
    var log := s.log + [op];
    forall i | 0 <= i < |s.replicas| ensures ReplicaOk(p, log, s.replicas[i]) {
      var r := s.replicas[i];
      NodeOkExtends(p, s.log, op, r.node);
      forall k | k in r.sessions ensures PhaseOk(log, r.sessions[k]) {
        PhaseOkExtends(s.log, op, r.sessions[k]);
      }
    }
    forall g | g in s.acked ensures Reported(s.(log := log), |s.replicas|, g) {
      assert Reported(s, |s.replicas|, g);
    }
    forall reply | reply in s.replies ensures ReplyOk(s.(log := log), reply) {
      assert ReplyOk(s, reply);
    }
    forall m | m in s.messages ensures MessageOk(log, m) {
      assert MessageOk(s.log, m);
    }
  }

  lemma PrimaryStepKeepsInv(p: Pipeline, s: Shard, step: Step)
    requires Inv(p, s) && Enabled(p, s, step) && IsPrimaryStep(step)
    ensures Inv(p, Next(p, s, step))
  {
    var s' := Next(p, s, step);
    assert s'.replicas == s.replicas && s'.log == s.log;
    forall g | g in s'.acked ensures Reported(s', |s'.replicas|, g) {
      if g in s.acked {
        assert Reported(s, |s.replicas|, g);
      }
    }
    forall reply | reply in s'.replies ensures ReplyOk(s', reply) {
      assert ReplyOk(s, reply);
    }
  }

  lemma DeliverKeepsInv(p: Pipeline, s: Shard, m: Message, fault: Fault)
    requires Inv(p, s) && m in s.messages && m.target < |s.replicas|
    ensures Inv(p, DeliverStep(p, s, m, fault))
  {
    var r := s.replicas[m.target];
    assert MessageOk(s.log, m) && ReplicaOk(p, s.log, r);
    ApplyKeepsNode(p, s.log, r.node, m.op, m.generation, fault);
    var (node, reply) := ApplyReplicated(p, r.node, m.op, m.generation, fault);
    StillReports(p, s, m.target);
    ReplaceReplica(p, s, m.target, r.(node := node));
    AddReply(p, WithReplica(s, m.target, r.(node := node)), m.target, m.generation);
  }

  lemma StillReports(p: Pipeline, s: Shard, i: nat)
    requires Inv(p, s) && i < |s.replicas|
    ensures KeepsReports(s, i, s.replicas[i].node.disk.generation)
  {
    forall g | (i, g) in s.replies ensures g <= s.replicas[i].node.disk.generation {
      assert ReplyOk(s, (i, g));
    }
  }

  lemma AddReply(p: Pipeline, s: Shard, i: nat, g: nat)
    requires Inv(p, s) && i < |s.replicas|
    ensures g <= s.replicas[i].node.disk.generation ==>
              Inv(p, s.(replies := s.replies + {(i, g)}))
  {
    var s' := s.(replies := s.replies + {(i, g)});
    forall a | a in s'.acked ensures Reported(s', |s'.replicas|, a) {
      assert Reported(s, |s.replicas|, a);
    }
    if g <= s.replicas[i].node.disk.generation {
      forall reply | reply in s'.replies ensures ReplyOk(s', reply) {
        assert reply in s.replies ==> ReplyOk(s, reply);
      }
    }
  }

  predicate IsPrimaryStep(step: Step) {
    step.Send? || step.Advance? || step.Acknowledge? || step.GiveUp?
    || step.PrimaryCrash? || step.PrimaryRestart?
  }

  predicate IsReplicaStep(step: Step) {
    !IsPrimaryStep(step) && !step.PrimaryWrite? && !step.Deliver?
  }

  /** What a step of a replica's own does to that replica. */
  function ReplicaAfter(p: Pipeline, s: Shard, step: Step): Replica
    requires Enabled(p, s, step) && IsReplicaStep(step)
  {
    Next(p, s, step).replicas[step.i]
  }

  lemma InstallStepKeepsReplica(p: Pipeline, s: Shard, i: nat, session: nat, fault: InstallFault)
    requires Inv(p, s) && Enabled(p, s, Install(i, session, fault))
    ensures var after := InstallStep(p, s.replicas[i], session, fault);
            ReplicaOk(p, s.log, after) && KeepsReports(s, i, after.node.disk.generation)
            <==> Guarded(p, s, Install(i, session, fault))
  {
    var r := s.replicas[i];
    assert ReplicaOk(p, s.log, r) && PhaseOk(s.log, r.sessions[session]);
    StillReports(p, s, i);
    InstallKeepsNode(p, s.log, r.node, r.sessions[session].snapshot, fault);
  }

  /** A replica's own step leaves it on the log, holding what it reported, exactly when the
      step is guarded. */
  lemma ReplicaStepKeepsReplica(p: Pipeline, s: Shard, step: Step)
    requires Inv(p, s) && Enabled(p, s, step) && IsReplicaStep(step)
    ensures ReplicaOk(p, s.log, ReplicaAfter(p, s, step))
            && KeepsReports(s, step.i, ReplicaAfter(p, s, step).node.disk.generation)
            <==> Guarded(p, s, step)
  {
    if step.Install? {
      InstallStepKeepsReplica(p, s, step.i, step.session, step.installFault);
    } else {
      OtherStepKeepsReplica(p, s, step);
    }
  }

  lemma OtherStepKeepsReplica(p: Pipeline, s: Shard, step: Step)
    requires Inv(p, s) && Enabled(p, s, step) && IsReplicaStep(step) && !step.Install?
    ensures ReplicaOk(p, s.log, ReplicaAfter(p, s, step)) <==> Guarded(p, s, step)
    ensures KeepsReports(s, step.i, ReplicaAfter(p, s, step).node.disk.generation)
  {
    var r := s.replicas[step.i];
    assert ReplicaOk(p, s.log, r);
    StillReports(p, s, step.i);
    if step.ReplicaCrash? {
      DownIsOk(p, s.log, r.node);
    }
    assert s.log[..|s.log|] == s.log;
  }

  /** The guards are exact: whatever the interleaving, a step keeps the invariant if and only
      if it is guarded. */
  lemma StepKeepsInvIff(p: Pipeline, s: Shard, step: Step)
    requires Inv(p, s) && Enabled(p, s, step)
    ensures Inv(p, Next(p, s, step)) <==> Guarded(p, s, step)
  {
    if step.PrimaryWrite? {
      WriteKeepsInv(p, s, step.op, step.fault);
    } else if step.Deliver? {
      DeliverKeepsInv(p, s, step.message, step.fault);
    } else if IsPrimaryStep(step) {
      PrimaryStepKeepsInv(p, s, step);
    } else {
      ReplicaStepKeepsReplica(p, s, step);
      ReplaceReplica(p, s, step.i, ReplicaAfter(p, s, step));
      OnlyThatReplica(p, s, step);
    }
  }

  lemma OnlyThatReplica(p: Pipeline, s: Shard, step: Step)
    requires Enabled(p, s, step) && IsReplicaStep(step)
    ensures Next(p, s, step) == WithReplica(s, step.i, ReplicaAfter(p, s, step))
  {
  }

  // ---------------------------------------------------------------------------
  // Synchronizations that do not overlap are guarded
  // ---------------------------------------------------------------------------

  lemma SoleSessionGuarded(p: Pipeline, s: Shard, step: Step)
    requires Inv(p, s) && NoOverlap(s) && Enabled(p, s, step) && IsReplicaStep(step)
    ensures Guarded(p, s, step)
  {
    if step.Decide? || step.Install? {
      var r := s.replicas[step.i];
      assert SoleSession(r) && ReplicaOk(p, s.log, r);
      StillReports(p, s, step.i);
      assert SessionOk(r, r.sessions[step.session]) && PhaseOk(s.log, r.sessions[step.session]);
    }
  }

  lemma SoleSessionKept(p: Pipeline, s: Shard, step: Step)
    requires Inv(p, s) && NoOverlap(s) && Enabled(p, s, step) && Exclusive(s, step)
    requires IsReplicaStep(step)
    ensures SoleSession(ReplicaAfter(p, s, step))
  {
    var r := s.replicas[step.i];
    assert SoleSession(r) && ReplicaOk(p, s.log, r);
    if step.Decide? || step.Install? {
      assert SessionOk(r, r.sessions[step.session]);
    }
  }

  lemma DeliveryKeepsSole(p: Pipeline, s: Shard, m: Message, fault: Fault)
    requires Inv(p, s) && NoOverlap(s) && m in s.messages && m.target < |s.replicas|
    ensures SoleSession(DeliverStep(p, s, m, fault).replicas[m.target])
  {
    var r := s.replicas[m.target];
    assert MessageOk(s.log, m) && SoleSession(r) && ReplicaOk(p, s.log, r);
    ApplyKeepsNode(p, s.log, r.node, m.op, m.generation, fault);
    assert forall k :: k in r.sessions ==> SessionOk(r, r.sessions[k]);
  }

  /** With one synchronization at a time the two unchecked conditions hold by themselves. */
  lemma ExclusiveIsGuarded(p: Pipeline, s: Shard, step: Step)
    requires Inv(p, s) && NoOverlap(s) && Enabled(p, s, step) && Exclusive(s, step)
    ensures Guarded(p, s, step)
    ensures NoOverlap(Next(p, s, step))
  {
    if IsReplicaStep(step) {
      SoleSessionGuarded(p, s, step);
      SoleSessionKept(p, s, step);
      OnlyThatReplica(p, s, step);
      OthersStaySole(s, step.i, ReplicaAfter(p, s, step));
    } else if step.Deliver? {
      DeliveryKeepsSole(p, s, step.message, step.fault);
      OthersStaySole(s, step.message.target, Next(p, s, step).replicas[step.message.target]);
    } else {
      assert Next(p, s, step).replicas == s.replicas;
    }
  }

  lemma OthersStaySole(s: Shard, i: nat, r: Replica)
    requires NoOverlap(s) && i < |s.replicas| && SoleSession(r)
    ensures NoOverlap(WithReplica(s, i, r))
  {
  }

  // ---------------------------------------------------------------------------
  // Whole runs
  // ---------------------------------------------------------------------------

  lemma InitialIsOk(p: Pipeline, s: Shard)
    requires Initial(p, s)
    ensures Inv(p, s) && NoOverlap(s)
  {
    assert Replay([]) == map[];
  }

  lemma GuardedStep(p: Pipeline, t: Trace, k: nat)
    requires GuardedRun(p, t) && k < |t.steps|
    ensures StepsTo(p, t.states[k], t.steps[k], t.states[k + 1]) && Guarded(p, t.states[k], t.steps[k])
  {
  }

  /** In every guarded run, every state satisfies the invariant. */
  lemma {:induction false} GuardedRunIsSafe(p: Pipeline, t: Trace, k: nat)
    requires GuardedRun(p, t) && k < |t.states|
    ensures Inv(p, t.states[k])
  {
    if k == 0 {
      InitialIsOk(p, t.states[0]);
    } else {
      GuardedRunIsSafe(p, t, k - 1);
      GuardedStep(p, t, k - 1);
      StepKeepsInvIff(p, t.states[k - 1], t.steps[k - 1]);
    }
  }

  lemma ExclusiveStepIsSafe(p: Pipeline, s: Shard, step: Step, s': Shard)
    requires Inv(p, s) && NoOverlap(s) && StepsTo(p, s, step, s') && Exclusive(s, step)
    ensures Guarded(p, s, step) && Inv(p, s') && NoOverlap(s')
  {
    ExclusiveIsGuarded(p, s, step);
    StepKeepsInvIff(p, s, step);
  }

  /** In every run with non-overlapping synchronizations, likewise. */
  lemma {:induction false} ExclusiveRunIsSafe(p: Pipeline, t: Trace, k: nat)
    requires ExclusiveRun(p, t) && k < |t.states|
    ensures Inv(p, t.states[k]) && NoOverlap(t.states[k])
  {
    if k == 0 {
      InitialIsOk(p, t.states[0]);
    } else {
      ExclusiveRunIsSafe(p, t, k - 1);
      ExclusiveStepIsSafe(p, t.states[k - 1], t.steps[k - 1], t.states[k]);
    }
  }

  lemma ExclusiveRunIsGuardedRun(p: Pipeline, t: Trace)
    requires ExclusiveRun(p, t)
    ensures GuardedRun(p, t)
  {
    forall k | 0 <= k < |t.steps|
      ensures StepsTo(p, t.states[k], t.steps[k], t.states[k + 1])
      ensures Guarded(p, t.states[k], t.steps[k])
    {
      assert StepsTo(p, t.states[k], t.steps[k], t.states[k + 1]);
      ExclusiveRunIsSafe(p, t, k);
      ExclusiveStepIsSafe(p, t.states[k], t.steps[k], t.states[k + 1]);
    }
  }

  // ---------------------------------------------------------------------------
  // What the invariant is worth
  // ---------------------------------------------------------------------------

  /** The durable copies of a shard: the primary's disk and each replica's. */
  ghost predicate IsCopy(s: Shard, n: Node) {
    n == s.primary || exists i :: 0 <= i < |s.replicas| && n == s.replicas[i].node
  }

  /** Every copy's durable corpus is the replay of the first `generation` log entries, and
      no copy is ahead of the primary. */
  lemma CopyReplaysPrefix(p: Pipeline, s: Shard, n: Node)
    requires Inv(p, s) && IsCopy(s, n)
    ensures n.disk.generation <= s.primary.disk.generation == |s.log|
    ensures n.disk.documents == Replay(s.log[..n.disk.generation])
  {
    assert s.log[..|s.log|] == s.log;
    if n != s.primary {
      var i :| 0 <= i < |s.replicas| && n == s.replicas[i].node;
      assert ReplicaOk(p, s.log, s.replicas[i]);
    }
  }

  /** Equal generations mean equal corpora. */
  lemma EqualGenerationsEqualCorpora(p: Pipeline, s: Shard, a: Node, b: Node)
    requires Inv(p, s) && IsCopy(s, a) && IsCopy(s, b)
    requires a.disk.generation == b.disk.generation
    ensures a.disk == b.disk
  {
    CopyReplaysPrefix(p, s, a);
    CopyReplaysPrefix(p, s, b);
  }

  /** READY is never granted over stale derived state. */
  lemma ReadyIsFresh(p: Pipeline, s: Shard, n: Node)
    requires Inv(p, s) && IsCopy(s, n) && n.state == Ready
    ensures Fresh(p, n)
  {
    if n != s.primary {
      var i :| 0 <= i < |s.replicas| && n == s.replicas[i].node;
      assert ReplicaOk(p, s.log, s.replicas[i]);
    }
  }

  /** Steps extend the log and never take an acknowledgement back. */
  lemma StepExtendsHistory(p: Pipeline, s: Shard, step: Step)
    requires Enabled(p, s, step)
    ensures s.log <= Next(p, s, step).log && s.acked <= Next(p, s, step).acked
  {
  }

  lemma {:induction false} RunExtendsHistory(p: Pipeline, t: Trace, j: nat, k: nat)
    requires IsRun(p, t) && j <= k < |t.states|
    ensures t.states[j].log <= t.states[k].log && t.states[j].acked <= t.states[k].acked
    decreases k - j
  {
    if j < k {
      assert StepsTo(p, t.states[j], t.steps[j], t.states[j + 1]);
      StepExtendsHistory(p, t.states[j], t.steps[j]);
      RunExtendsHistory(p, t, j + 1, k);
    }
  }

  /** What it means for a copy to hold the first `g` mutations of a history durably. */
  ghost predicate Holds(n: Node, log: seq<Op>, g: nat) {
    && g <= n.disk.generation <= |log|
    && n.disk.documents == Replay(log[..n.disk.generation])
  }

  /** The write-all guarantee: once a generation is acknowledged, every copy holds it
      durably in every later state, as an entry of the same history. */
  lemma AcknowledgedIsDurableEverywhere(p: Pipeline, t: Trace, j: nat, k: nat, g: nat, n: Node)
    requires GuardedRun(p, t) && j <= k < |t.states|
    requires g in t.states[j].acked && IsCopy(t.states[k], n)
    ensures g <= |t.states[j].log| && t.states[j].log <= t.states[k].log
    ensures Holds(n, t.states[k].log, g)
  {
    var s := t.states[k];
    GuardedRunIsSafe(p, t, j);
    GuardedRunIsSafe(p, t, k);
    RunExtendsHistory(p, t, j, k);
    AcknowledgedIsReached(p, t.states[j], g);
    AcknowledgedIsReached(p, s, g);
    CopyReplaysPrefix(p, s, n);
  }

  /** Every READY copy serves an index built from a history that contains every
      acknowledged mutation. */
  lemma ReadyServesAcknowledged(p: Pipeline, t: Trace, j: nat, k: nat, g: nat, n: Node)
    requires ExclusiveRun(p, t) && j <= k < |t.states|
    requires g in t.states[j].acked && IsCopy(t.states[k], n) && n.state == Ready
    ensures g <= n.generation <= |t.states[k].log|
    ensures n.derived == Rebuilt(p, Replay(t.states[k].log[..n.generation]))
  {
    ExclusiveRunIsGuardedRun(p, t);
    AcknowledgedIsDurableEverywhere(p, t, j, k, g, n);
    GuardedRunIsSafe(p, t, k);
    ReadyIsFresh(p, t.states[k], n);
  }

  /** With no unacknowledged mutation outstanding, READY copies are interchangeable. */
  lemma ReadyCopiesAgree(p: Pipeline, s: Shard, a: Node, b: Node)
    requires Inv(p, s) && IsCopy(s, a) && IsCopy(s, b) && a.state == b.state == Ready
    requires |s.log| == 0 || |s.log| in s.acked
    ensures a.disk == b.disk && a.derived == b.derived == Rebuilt(p, Replay(s.log))
  {
    forall n | IsCopy(s, n) ensures n.disk.generation == |s.log| {
      CopyReplaysPrefix(p, s, n);
      if |s.log| > 0 {
        AcknowledgedIsReached(p, s, |s.log|);
      }
    }
    EqualGenerationsEqualCorpora(p, s, a, b);
    ReadyIsFresh(p, s, a);
    ReadyIsFresh(p, s, b);
    CopyReplaysPrefix(p, s, a);
    assert s.log[..|s.log|] == s.log;
  }

  /** The branch for a replica ahead of its primary is never taken. */
  lemma NeverAheadOfPrimary(p: Pipeline, t: Trace, k: nat, i: nat, session: nat)
    requires ExclusiveRun(p, t) && k < |t.states|
    requires InPhase(t.states[k], i, session) && t.states[k].replicas[i].sessions[session].Compared?
    ensures var phase := t.states[k].replicas[i].sessions[session];
            phase.local <= phase.remote
  {
    ExclusiveRunIsSafe(p, t, k);
    var r := t.states[k].replicas[i];
    assert SoleSession(r) && ReplicaOk(p, t.states[k].log, r);
    assert SessionOk(r, r.sessions[session]);
  }

  /** Becoming READY at the end of a synchronization is earned, from whatever condition the
      replica started in. */
  lemma SynchronizationEarnsReady(p: Pipeline, t: Trace, k: nat, i: nat)
    requires ExclusiveRun(p, t) && k < |t.steps| && i < |t.states[k].replicas|
    requires t.states[k].replicas[i].node.state != Ready
    requires i < |t.states[k + 1].replicas| && t.states[k + 1].replicas[i].node.state == Ready
    ensures t.steps[k].Decide? || t.steps[k].Install?
    ensures var s' := t.states[k + 1];
            && Fresh(p, s'.replicas[i].node)
            && forall g :: g in s'.acked ==> g <= s'.replicas[i].node.generation
  {
    var s, s' := t.states[k], t.states[k + 1];
    assert StepsTo(p, s, t.steps[k], s');
    ExclusiveRunIsSafe(p, t, k + 1);
    ReadyIsFresh(p, s', s'.replicas[i].node);
    forall g | g in s'.acked ensures g <= s'.replicas[i].node.generation {
      AcknowledgedIsReached(p, s', g);
    }
  }

  /** Validation is exact on replicas: whatever a replica went through, it validates only
      when its derived state is right.  The gap belongs to the primary alone. */
  lemma ReplicaValidationIsExact(p: Pipeline, log: seq<Op>, n: Node)
    requires NodeOk(p, log, n)
    ensures Validates(n) <==> Fresh(p, n)
  {
    if Fresh(p, n) {
      FreshValidates(p, n);
    }
  }

  // ---------------------------------------------------------------------------
  // As deployed, READY needs no guards
  // ---------------------------------------------------------------------------

  /** A READY replica is fresh, and one that compares generations does nothing else, on a
      fresh node. */
  ghost predicate ServesFresh(p: Pipeline, r: Replica) {
    && (r.node.state == Ready ==> Fresh(p, r.node))
    && (forall k :: k in r.sessions && Comparing(r.sessions[k]) ==>
          && Fresh(p, r.node) && r.node.state != Ready && r.node.state != Starting
          && forall l :: l in r.sessions ==> l == k)
  }

  ghost predicate AllServeFresh(p: Pipeline, s: Shard) {
    && (s.primary.state == Ready ==> Fresh(p, s.primary))
    && (forall i :: 0 <= i < |s.replicas| ==> ServesFresh(p, s.replicas[i]))
  }

  lemma DeliveryServesFresh(p: Pipeline, s: Shard, m: Message, fault: Fault)
    requires AllServeFresh(p, s) && m.target < |s.replicas|
    ensures ServesFresh(p, DeliverStep(p, s, m, fault).replicas[m.target])
  {
    var r := s.replicas[m.target];
    assert ServesFresh(p, r);
    if r.node.state == Ready {
      FollowKeepsFresh(p, r.node, m.op);
      assert !Touches(r.node, m.op) ==>
          Follow(p, r.node, m.op, fault.Wreck()) == Follow(p, r.node, m.op, None);
    }
  }

  lemma ReplicaServesFresh(p: Pipeline, s: Shard, step: Step)
    requires AllServeFresh(p, s) && Enabled(p, s, step) && AsDeployed(s, step) && IsReplicaStep(step)
    ensures ServesFresh(p, ReplicaAfter(p, s, step))
  {
    assert ServesFresh(p, s.replicas[step.i]);
  }

  lemma PrimaryServesFresh(p: Pipeline, s: Shard, step: Step)
    requires AllServeFresh(p, s) && Enabled(p, s, step)
    ensures var n := Next(p, s, step).primary; n.state == Ready ==> Fresh(p, n)
  {
    if step.PrimaryWrite? && s.primary.state == Ready {
      CommitKeepsFresh(p, s.primary, step.op);
    }
  }

  lemma StepServesFresh(p: Pipeline, s: Shard, step: Step)
    requires AllServeFresh(p, s) && Enabled(p, s, step) && AsDeployed(s, step)
    ensures AllServeFresh(p, Next(p, s, step))
  {
    PrimaryServesFresh(p, s, step);
    if step.Deliver? {
      DeliveryServesFresh(p, s, step.message, step.fault);
    } else if IsReplicaStep(step) {
      ReplicaServesFresh(p, s, step);
      OnlyThatReplica(p, s, step);
    }
  }

  lemma {:induction false} DeployedRunServesFresh(p: Pipeline, t: Trace, k: nat)
    requires DeployedRun(p, t) && k < |t.states|
    ensures AllServeFresh(p, t.states[k])
  {
    if k > 0 {
      DeployedRunServesFresh(p, t, k - 1);
      assert StepsTo(p, t.states[k - 1], t.steps[k - 1], t.states[k]);
      StepServesFresh(p, t.states[k - 1], t.steps[k - 1]);
    }
  }

  /** READY is never granted over stale derived state, in any run the program can take:
      overlapping resynchronizations, stale snapshots and failed installs included. */
  lemma ReadyIsAlwaysFresh(p: Pipeline, t: Trace, k: nat, n: Node)
    requires DeployedRun(p, t) && k < |t.states| && IsCopy(t.states[k], n) && n.state == Ready
    ensures Fresh(p, n)
  {
    DeployedRunServesFresh(p, t, k);
    if n != t.states[k].primary {
      var i :| 0 <= i < |t.states[k].replicas| && n == t.states[k].replicas[i].node;
      assert ServesFresh(p, t.states[k].replicas[i]);
    }
  }

  /** So of the two guards only the one on installs can fail. */
  lemma ComparisonsAreGuarded(p: Pipeline, t: Trace, k: nat)
    requires DeployedRun(p, t) && k < |t.steps| && !t.steps[k].Install?
    ensures StepsTo(p, t.states[k], t.steps[k], t.states[k + 1]) && Guarded(p, t.states[k], t.steps[k])
  {
    assert StepsTo(p, t.states[k], t.steps[k], t.states[k + 1]);
    DeployedRunServesFresh(p, t, k);
    if t.steps[k].Decide? {
      assert ServesFresh(p, t.states[k].replicas[t.steps[k].i]);
    }
  }

  // ---------------------------------------------------------------------------
  // Without the guards
  // ---------------------------------------------------------------------------

  /** The exact condition for an install: the snapshot contains everything the replica has
      told its primary it holds, acknowledged or not, and memory does not run ahead of it. */
  lemma InstallLosesNothingIff(p: Pipeline, s: Shard, i: nat, session: nat, fault: InstallFault)
    requires Inv(p, s) && Enabled(p, s, Install(i, session, fault)) && fault.Replaced?
    ensures var snapshot := s.replicas[i].sessions[session].snapshot;
            Inv(p, Next(p, s, Install(i, session, fault))) <==>
              && (forall g :: (i, g) in s.replies ==> g <= snapshot.generation)
              && MemoryFollows(p, s.replicas[i].node, snapshot, fault.rebuild)
  {
    StepKeepsInvIff(p, s, Install(i, session, fault));
  }

  // ---------------------------------------------------------------------------
  // The condition on reports is needed
  // ---------------------------------------------------------------------------

  ghost predicate Leads(p: Pipeline, s: Shard, steps: seq<Step>, s': Shard)
    decreases |steps|
  {
    if steps == [] then s' == s
    else Enabled(p, s, steps[0]) && Leads(p, Next(p, s, steps[0]), steps[1..], s')
  }

  lemma {:induction false} LeadsOn(p: Pipeline, s: Shard, steps: seq<Step>, mid: Shard, more: seq<Step>, s': Shard)
    requires Leads(p, s, steps, mid) && Leads(p, mid, more, s')
    ensures Leads(p, s, steps + more, s')
    decreases |steps|
  {
    if steps == [] {
      assert steps + more == more;
    } else {
      LeadsOn(p, Next(p, s, steps[0]), steps[1..], mid, more, s');
      assert (steps + more)[1..] == steps[1..] + more;
    }
  }

  lemma OneStepOn(p: Pipeline, s: Shard, steps: seq<Step>, mid: Shard, step: Step)
    requires Leads(p, s, steps, mid) && Enabled(p, mid, step)
    ensures Leads(p, s, steps + [step], Next(p, mid, step))
  {
    assert [step][1..] == [];
    assert Leads(p, mid, [step], Next(p, mid, step));
    LeadsOn(p, s, steps, mid, [step], Next(p, mid, step));
  }

  /** The primary is replicating, and every target it still waits for has reported the
      mutation or is no further than it. */
  ghost predicate CanFinish(s: Shard) {
    && s.pending.InFlight? && s.pending.next <= |s.replicas|
    && s.primary.state == Ready && s.primary.generation == s.pending.generation
    && forall j: nat :: s.pending.next <= j < |s.replicas| ==>
         (j, s.pending.generation) in s.replies
         || s.replicas[j].node.disk.generation <= s.pending.generation
  }

  /** A replica that comes up and reads the primary's generation, whatever it was doing. */
  lemma ComesUp(p: Pipeline, s: Shard, j: nat) returns (steps: seq<Step>, s': Shard)
    requires j < |s.replicas| && s.primary.state == Ready
    ensures var disk := s.replicas[j].node.disk;
            && Leads(p, s, steps, s')
            && s' == WithReplica(s, j,
                 Replica(Node(disk, disk.generation, Rebuilt(p, disk.documents), Recovering),
                         map[0 := Compared(disk.generation, s.primary.generation)]))
  {
    var disk := s.replicas[j].node.disk;
    var up := Node(disk, disk.generation, Rebuilt(p, disk.documents), Recovering);
    steps, s' := TakeStep(p, s, [], s, ReplicaCrash(j));
    assert s' == WithReplica(s, j, Replica(Down(p, disk), map[]));
    steps, s' := TakeStep(p, s, steps, s', ReplicaRestart(j, 0, RebuildSucceeds));
    var verifying := map[0 := Verifying(disk.generation)];
    SetTwice(s.replicas, j, Replica(Down(p, disk), map[]), Replica(up, verifying));
    assert s' == WithReplica(s, j, Replica(up, verifying));
    steps, s' := TakeStep(p, s, steps, s', ReadRemote(j, 0));
    var compared := map[0 := Compared(disk.generation, s.primary.generation)];
    assert verifying[0 := Compared(disk.generation, s.primary.generation)] == compared;
    SetTwice(s.replicas, j, Replica(up, verifying), Replica(up, compared));
  }

  lemma SetTwice<T>(list: seq<T>, j: nat, x: T, y: T)
    requires j < |list|
    ensures list[j := x][j := y] == list[j := y]
  {
  }

  /** A replica no further than the primary can come up, synchronize, and serve. */
  lemma CatchesUp(p: Pipeline, s: Shard, j: nat) returns (steps: seq<Step>, s': Shard)
    requires j < |s.replicas| && s.primary.state == Ready
    requires s.replicas[j].node.disk.generation <= s.primary.generation
    ensures Leads(p, s, steps, s') && |s'.replicas| == |s.replicas|
    ensures s' == s.(replicas := s'.replicas)
    ensures forall i :: 0 <= i < |s.replicas| && i != j ==> s'.replicas[i] == s.replicas[i]
    ensures s'.replicas[j].node.state == Ready && s'.replicas[j].node.generation == s.primary.generation
  {
    steps, s' := ComesUp(p, s, j);
    var level := s'.replicas[j].node.generation == s.primary.generation;
    steps, s' := TakeStep(p, s, steps, s', Decide(j, 0));
    if !level {
      steps, s' := TakeStep(p, s, steps, s', Export(j, 0));
      steps, s' := TakeStep(p, s, steps, s', Install(j, 0, INSTALLED));
    }
  }

  lemma TakeStep(p: Pipeline, s: Shard, steps: seq<Step>, mid: Shard, step: Step)
    returns (longer: seq<Step>, s': Shard)
    requires Leads(p, s, steps, mid) && Enabled(p, mid, step)
    ensures longer == steps + [step] && s' == Next(p, mid, step) && Leads(p, s, longer, s')
  {
    longer, s' := steps + [step], Next(p, mid, step);
    OneStepOn(p, s, steps, mid, step);
  }

  /** Having synchronized past the mutation in flight, it reports it as a duplicate. */
  lemma ReportsDuplicate(p: Pipeline, s: Shard) returns (steps: seq<Step>, s': Shard)
    requires s.pending.InFlight? && s.pending.next < |s.replicas|
    requires s.replicas[s.pending.next].node.state == Ready
    requires s.pending.generation <= s.replicas[s.pending.next].node.generation
    ensures Leads(p, s, steps, s')
    ensures s'.replicas == s.replicas && s'.primary == s.primary && s'.acked == s.acked
    ensures s'.pending == s.pending.(next := s.pending.next + 1) && s.replies <= s'.replies
  {
    var j, g := s.pending.next, s.pending.generation;
    steps, s' := [], s;
    steps, s' := TakeStep(p, s, steps, s', Send);
    steps, s' := TakeStep(p, s, steps, s', Deliver(Message(j, g, s.pending.op), NoFault));
    assert s'.replicas == s.replicas;
    steps, s' := TakeStep(p, s, steps, s', Advance);
  }

  /** A broken report cannot be taken back: a mutation in flight can still be acknowledged,
      without a further word from the replicas that have reported it, whatever has happened to
      their disks since. */
  lemma {:induction false} ReportsAreAcknowledged(p: Pipeline, s: Shard) returns (steps: seq<Step>, s': Shard)
    requires CanFinish(s)
    ensures Leads(p, s, steps, s')
    ensures s.pending.generation in s'.acked && |s'.replicas| == |s.replicas|
    ensures forall i: nat :: i < |s.replicas| && (i, s.pending.generation) in s.replies ==>
              s'.replicas[i] == s.replicas[i]
    decreases |s.replicas| - s.pending.next
  {
    if s.pending.next == |s.replicas| {
      steps, s' := TakeStep(p, s, [], s, Acknowledge);
      return;
    }
    var mid;
    if (s.pending.next, s.pending.generation) in s.replies {
      steps, mid := TakeStep(p, s, [], s, Advance);
    } else {
      var up, more;
      steps, up := CatchesUp(p, s, s.pending.next);
      more, mid := ReportsDuplicate(p, up);
      LeadsOn(p, s, steps, up, more, mid);
      steps := steps + more;
    }
    var rest;
    rest, s' := ReportsAreAcknowledged(p, mid);
    LeadsOn(p, s, steps, mid, rest, s');
    steps := steps + rest;
  }

  /** So an install that drops a reported generation which is acknowledged already, or in
      flight still, leads to a state in which it is acknowledged and this replica's disk is
      behind it.  What is left are reports of writes the primary has given up on. */
  lemma DroppedReportLosesWrite(
    p: Pipeline, s: Shard, i: nat, session: nat, fault: InstallFault, g: nat)
    returns (steps: seq<Step>, s': Shard)
    requires Inv(p, s) && Enabled(p, s, Install(i, session, fault)) && fault.Replaced?
    requires (i, g) in s.replies && g > s.replicas[i].sessions[session].snapshot.generation
    requires g in s.acked || (s.pending.InFlight? && g == s.pending.generation)
    ensures Leads(p, s, [Install(i, session, fault)] + steps, s')
    ensures g in s'.acked && |s'.replicas| == |s.replicas|
    ensures s'.replicas[i].node.disk.generation < g
  {
    var after := Next(p, s, Install(i, session, fault));
    assert after.replicas[i].node.disk == s.replicas[i].sessions[session].snapshot;
    if g in s.acked {
      steps, s' := [], after;
    } else {
      forall j: nat | j < |s.replicas| ensures s.replicas[j].node.disk.generation <= g {
        assert ReplicaOk(p, s.log, s.replicas[j]);
      }
      steps, s' := ReportsAreAcknowledged(p, after);
    }
    assert ([Install(i, session, fault)] + steps)[1..] == steps;
  }

  /** The exact condition under which a positive comparison may declare a replica ready: its
      memory still stands at its disk's generation. */
  lemma MarkReadyIsFreshIff(p: Pipeline, s: Shard, i: nat, session: nat)
    requires Inv(p, s) && Enabled(p, s, Decide(i, session))
    requires s.replicas[i].sessions[session].local == s.replicas[i].sessions[session].remote
    ensures var after := Next(p, s, Decide(i, session)).replicas[i].node;
            && after.state == Ready
            && (Fresh(p, after) <==> s.replicas[i].node.generation == s.replicas[i].node.disk.generation)
  {
    assert ReplicaOk(p, s.log, s.replicas[i]);
  }

  // ---------------------------------------------------------------------------
  // Progress
  // ---------------------------------------------------------------------------

  /** The copy serves the first `g` mutations, fresh. */
  ghost predicate Level(p: Pipeline, n: Node, g: nat) {
    n.state == Ready && n.generation == g && Fresh(p, n)
  }

  /** Replication is under way, and so far without a hitch. */
  ghost predicate OnCourse(p: Pipeline, s: Shard) {
    && s.pending.InFlight? && s.pending.next <= |s.replicas| && s.pending.generation >= 1
    && forall i: nat :: i < |s.replicas| ==>
         Level(p, s.replicas[i].node,
           if i < s.pending.next then s.pending.generation else s.pending.generation - 1)
  }

  /** The next target takes the mutation and reports it. */
  lemma NextTargetTakes(p: Pipeline, s: Shard) returns (steps: seq<Step>, s': Shard)
    requires OnCourse(p, s) && s.pending.next < |s.replicas|
    ensures Leads(p, s, steps, s') && OnCourse(p, s')
    ensures s'.pending == s.pending.(next := s.pending.next + 1)
    ensures s'.log == s.log && s'.primary == s.primary && |s'.replicas| == |s.replicas|
  {
    var j, g := s.pending.next, s.pending.generation;
    var n := s.replicas[j].node;
    assert Level(p, n, g - 1);
    FollowKeepsFresh(p, n, s.pending.op);
    steps, s' := TakeStep(p, s, [], s, Send);
    steps, s' := TakeStep(p, s, steps, s', Deliver(Message(j, g, s.pending.op), NoFault));
    assert Level(p, s'.replicas[j].node, g);
    steps, s' := TakeStep(p, s, steps, s', Advance);
    forall i: nat | i < |s.replicas|
      ensures Level(p, s'.replicas[i].node, if i < j + 1 then g else g - 1)
    {
      assert i != j ==> s'.replicas[i] == s.replicas[i];
    }
  }

  lemma {:induction false} AllTargetsTake(p: Pipeline, s: Shard) returns (steps: seq<Step>, s': Shard)
    requires OnCourse(p, s)
    ensures Leads(p, s, steps, s')
    ensures s.pending.generation in s'.acked && s'.pending.Idle?
    ensures s'.log == s.log && s'.primary == s.primary && |s'.replicas| == |s.replicas|
    ensures forall i: nat :: i < |s'.replicas| ==> Level(p, s'.replicas[i].node, s.pending.generation)
    decreases |s.replicas| - s.pending.next
  {
    if s.pending.next == |s.replicas| {
      steps, s' := TakeStep(p, s, [], s, Acknowledge);
    } else {
      var mid, rest;
      steps, mid := NextTargetTakes(p, s);
      rest, s' := AllTargetsTake(p, mid);
      LeadsOn(p, s, steps, mid, rest, s');
      steps := steps + rest;
    }
  }

  /** When every copy serves the whole log, a put, or a deletion of a stored document, can go
      all the way: committed as the next generation, taken by every replica, acknowledged,
      with every copy serving it. */
  lemma HealthyWriteIsAcknowledged(p: Pipeline, s: Shard, op: Op) returns (steps: seq<Step>, s': Shard)
    requires s.pending.Idle? && Level(p, s.primary, |s.log|)
    requires forall i: nat :: i < |s.replicas| ==> Level(p, s.replicas[i].node, |s.log|)
    requires op.Put? || op.id in s.primary.disk.documents
    ensures Leads(p, s, [PrimaryWrite(op, NoFault)] + steps, s')
    ensures s'.log == s.log + [op] && |s'.log| in s'.acked && s'.pending.Idle?
    ensures Level(p, s'.primary, |s'.log|) && |s'.replicas| == |s.replicas|
    ensures s'.primary.disk.documents == ApplyOp(s.primary.disk.documents, op)
    ensures forall i: nat :: i < |s'.replicas| ==> Level(p, s'.replicas[i].node, |s'.log|)
  {
    CommitKeepsFresh(p, s.primary, op);
    var mid := Next(p, s, PrimaryWrite(op, NoFault));
    forall i: nat | i < |mid.replicas| ensures Level(p, mid.replicas[i].node, |mid.log| - 1) {
      assert mid.replicas[i] == s.replicas[i];
    }
    steps, s' := AllTargetsTake(p, mid);
    assert ([PrimaryWrite(op, NoFault)] + steps)[1..] == steps;
  }
}
