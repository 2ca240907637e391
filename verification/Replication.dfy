/** The primary's write path and the replica's synchronizer, driving an engine.

    What other nodes answer is passed in: which mutations each target takes, and what
    the primary reports.  `Protocol` treats the same calls interleaved with everything else;
    here each call is followed from beginning to end. */
module Replication {
  import opened Basics
  import opened Nodes
  import opened Protocol
  import opened ProtocolSafety
  import opened Engines

  datatype WriteOutcome =
    | Acknowledged(reply: WriteReply)
    | Refused(reply: WriteReply)
    | NotReplicated(target: nat)

  // ---------------------------------------------------------------------------
  // Primary
  // ---------------------------------------------------------------------------

  /** A replica as the primary sees it: whether it takes the mutation of this generation. */
  type Target = (Op, nat) -> bool

  class Replicator {
    const engine: SearchEngine
    const targetCount: nat

    constructor (engine: SearchEngine, targetCount: nat)
      ensures this.engine == engine && this.targetCount == targetCount
    {
      this.engine, this.targetCount := engine, targetCount;
    }

    /** Sends to the targets in turn and stops at the first that does not take it. */
    method Replicate(op: Op, generation: nat, targets: seq<Target>) returns (failed: Option<nat>)
      requires |targets| == targetCount
      ensures failed.None? <==> AllTake(targets, op, generation)
      ensures failed.Some? ==> FirstRefusal(targets, op, generation, failed.value)
    {
      var i := 0;
      while i < targetCount
        invariant 0 <= i <= targetCount
        invariant forall k :: 0 <= k < i ==> targets[k](op, generation)
      {
        if !targets[i](op, generation) {
          return Some(i);
        }
        i := i + 1;
      }
      failed := None;
    }

    /** Acknowledged exactly when the engine committed and every target took the generation
        just committed.  A mutation some target refused stays committed here; one the engine
        refused changed nothing, unless it broke off after its commit. */
    method IndexDocument(id: Id, text: Text, trouble: Trouble, targets: seq<Target>)
      returns (outcome: WriteOutcome)
      requires engine.Valid() && |targets| == targetCount
      modifies engine.Repr
      ensures engine.Valid()
      ensures Settles(outcome, old(engine.View()), engine.View(), Put(id, text))
      ensures outcome.Acknowledged? <==>
                && old(engine.state) == Ready
                && (trouble.NoTrouble? || (trouble.CannotEmbed? && engine.p.embedder.None?))
                && AllTake(targets, Put(id, text), engine.store.generation)
      ensures outcome.Acknowledged? ==> outcome.reply == Stored(id !in old(engine.store.documents))
      ensures outcome.NotReplicated? ==>
                FirstRefusal(targets, Put(id, text), engine.store.generation, outcome.target)
    {
      ghost var was := engine.View();
      var reply := engine.IndexDocument(id, text, trouble);
      WriteSettles(engine.p, was, Put(id, text),
                   Resolve(engine.p, trouble, was.derived, Put(id, text)), engine.View(), reply);
      ghost var after := engine.View();
      outcome := Conclude(Put(id, text), reply, targets);
      assert engine.View() == after;
    }

    method DeleteDocument(id: Id, trouble: Trouble, targets: seq<Target>)
      returns (outcome: WriteOutcome)
      requires engine.Valid() && |targets| == targetCount
      modifies engine.Repr
      ensures engine.Valid()
      ensures Settles(outcome, old(engine.View()), engine.View(), Delete(id))
      ensures outcome.Acknowledged? <==>
                && old(engine.state) == Ready && id in old(engine.documents)
                && !trouble.CannotStore? && !trouble.CannotDerive?
                && AllTake(targets, Delete(id), engine.store.generation)
      ensures outcome.NotReplicated? ==>
                FirstRefusal(targets, Delete(id), engine.store.generation, outcome.target)
    {
      ghost var was := engine.View();
      var reply := engine.DeleteDocument(id, trouble);
      WriteSettles(engine.p, was, Delete(id),
                   Resolve(engine.p, trouble, was.derived, Delete(id)), engine.View(), reply);
      ghost var after := engine.View();
      outcome := Conclude(Delete(id), reply, targets);
      assert engine.View() == after;
    }

    /** Replicates what the engine committed, under the generation it committed it as. */
    method Conclude(op: Op, reply: WriteReply, targets: seq<Target>) returns (outcome: WriteOutcome)
      requires |targets| == targetCount
      ensures outcome.Refused? <==> !reply.Stored? && !reply.Removed?
      ensures !outcome.Refused? ==>
                (outcome.Acknowledged? <==> AllTake(targets, op, engine.generation))
      ensures outcome.NotReplicated? ==> FirstRefusal(targets, op, engine.generation, outcome.target)
      ensures !outcome.NotReplicated? ==> outcome.reply == reply
    {
      if !reply.Stored? && !reply.Removed? {
        return Refused(reply);
      }
      var failed := Replicate(op, engine.generation, targets);
      outcome := if failed.Some? then NotReplicated(failed.value) else Acknowledged(reply);
    }
  }

  predicate AllTake(targets: seq<Target>, op: Op, generation: nat) {
    forall i :: 0 <= i < |targets| ==> targets[i](op, generation)
  }

  /** The target that stopped the round: those before it took the mutation. */
  predicate FirstRefusal(targets: seq<Target>, op: Op, generation: nat, target: nat) {
    target < |targets| && !targets[target](op, generation)
    && forall i :: 0 <= i < target ==> targets[i](op, generation)
  }

  /** Acknowledged or not replicated: committed here as the next generation, still serving.
      Refused: nothing changed, or the copy degraded after the commit. */
  ghost predicate Settles(outcome: WriteOutcome, before: Node, after: Node, op: Op) {
    var next := Disk(ApplyOp(before.disk.documents, op), before.disk.generation + 1);
    if !outcome.Refused? then before.state == after.state == Ready && after.disk == next
    else if outcome.reply.BecameDegraded? then after.state == Degraded && after.disk == next
    else after == before
  }

  /** What the engine's own reply says about where a write got to. */
  lemma WriteSettles(p: Pipeline, n: Node, op: Op, fault: Fault, after: Node, reply: WriteReply)
    requires n.state == Ready ==> Fresh(p, n)
    requires (after, reply) == Write(p, n, op, fault)
    ensures if reply.Stored? || reply.Removed? then
              && after.generation == after.disk.generation
              && Settles(Acknowledged(reply), n, after, op)
              && (forall target :: Settles(NotReplicated(target), n, after, op))
            else Settles(Refused(reply), n, after, op)
    ensures op.Put? ==>
              && (reply.Stored? <==>
                    n.state == Ready && (fault.NoFault? || (fault.EmbeddingFails? && p.embedder.None?)))
              && !reply.Removed? && (reply.Stored? ==> reply.created == (op.id !in n.disk.documents))
    ensures op.Delete? ==>
              && (reply.Removed? <==>
                    && n.state == Ready && op.id in n.derived.documents
                    && !fault.StorageFails? && !fault.DerivedFails?)
              && !reply.Stored?
  {
  }

  // ---------------------------------------------------------------------------
  // Replica
  // ---------------------------------------------------------------------------

  datatype SyncOutcome = SyncOutcome(synchronized: bool, localGeneration: nat, primaryGeneration: Option<nat>)

  /** What the synchronizer relies on in the answers it gets: a matching generation matches
      the disk too, and a snapshot is of the log and no older than the disk or than the
      generation reported before it. */
  ghost predicate AnswersFrom(log: seq<Op>, n: Node, remote: Option<nat>, snapshot: Option<Disk>) {
    && (remote == Some(n.generation) ==> n.generation == n.disk.generation)
    && (snapshot.Some? ==>
          && n.disk.generation <= snapshot.value.generation <= |log|
          && (remote.Some? ==> remote.value <= snapshot.value.generation)
          && snapshot.value.documents == Replay(log[..snapshot.value.generation]))
  }

  // ---------------------------------------------------------------------------
  // In runs without overlap the answers qualify
  // ---------------------------------------------------------------------------

  /** From state `first` to state `last` one synchronization of replica `i` waits for the
      primary: it has neither its snapshot nor a failure to report. */
  ghost predicate Waiting(t: Trace, i: nat, session: nat, first: nat, last: nat) {
    && last < |t.states|
    && forall k :: first <= k <= last ==>
         && InPhase(t.states[k], i, session)
         && !t.states[k].replicas[i].sessions[session].Holding?
         && !t.states[k].replicas[i].sessions[session].Failing?
  }

  predicate SameButState(a: Node, b: Node) {
    b == a.(state := b.state)
  }

  /** One step changes nothing about the replica that the synchronization relies on. */
  lemma WaitingStep(p: Pipeline, t: Trace, i: nat, session: nat, k: nat)
    requires ExclusiveRun(p, t) && Waiting(t, i, session, k, k + 1)
    ensures SameButState(t.states[k].replicas[i].node, t.states[k + 1].replicas[i].node)
  {
    var s, step := t.states[k], t.steps[k];
    assert StepsTo(p, s, step, t.states[k + 1]) && Exclusive(s, step);
    ExclusiveRunIsSafe(p, t, k);
    var r := s.replicas[i];
    assert SoleSession(r) && SessionOk(r, r.sessions[session]);
    assert ReplicaOk(p, s.log, r);
    if step.Deliver? && step.message.target == i {
      assert MessageOk(s.log, step.message);
    }
  }

  /** So while it waits, disk, memory and derived state stand still. */
  lemma {:induction false} WaitingReplicaIsStill(p: Pipeline, t: Trace, i: nat, session: nat, first: nat, last: nat)
    requires ExclusiveRun(p, t) && first <= last && Waiting(t, i, session, first, last)
    ensures SameButState(t.states[first].replicas[i].node, t.states[last].replicas[i].node)
    decreases last - first
  {
    if first < last {
      assert Waiting(t, i, session, first, last - 1) && Waiting(t, i, session, last - 1, last);
      WaitingReplicaIsStill(p, t, i, session, first, last - 1);
      WaitingStep(p, t, i, session, last - 1);
    }
  }

  /** The generation a running primary reports at state `k`. */
  function Remote(t: Trace, k: nat): nat
    requires k < |t.states|
  {
    t.states[k].primary.generation
  }

  lemma RemoteIsLogLength(p: Pipeline, t: Trace, i: nat, session: nat, k: nat)
    requires ExclusiveRun(p, t) && k < |t.steps|
    requires t.steps[k] == ReadRemote(i, session) || t.steps[k] == Export(i, session)
    ensures Remote(t, k) == |t.states[k].log|
  {
    ExclusiveRunIsSafe(p, t, k);
    assert StepsTo(p, t.states[k], t.steps[k], t.states[k + 1]);
  }

  /** The replica as it was when the synchronization began is on the log of every later state
      in which it still waits. */
  lemma NodeStaysOk(p: Pipeline, t: Trace, i: nat, session: nat, first: nat, last: nat)
    requires ExclusiveRun(p, t) && first <= last && Waiting(t, i, session, first, last)
    ensures NodeOk(p, t.states[last].log, t.states[first].replicas[i].node)
  {
    WaitingReplicaIsStill(p, t, i, session, first, last);
    ExclusiveRunIsSafe(p, t, first);
    ExclusiveRunIsSafe(p, t, last);
    var r := t.states[first].replicas[i];
    assert SoleSession(r) && SessionOk(r, r.sessions[session]);
    assert ReplicaOk(p, t.states[last].log, t.states[last].replicas[i]);
  }

  /** A step that calls `Synchronize`: the program does so when a replica has come up. */
  predicate Calls(step: Step, i: nat, session: nat) {
    step == ReplicaRestart(i, session, RebuildSucceeds) || step == StartSync(i, session)
  }

  /** The replica it is called on. */
  function Caller(p: Pipeline, t: Trace, call: nat, i: nat): Node
    requires call < |t.steps| && call < |t.states| && i < |t.states[call].replicas|
  {
    var n := t.states[call].replicas[i].node;
    if t.steps[call].StartSync? then n else Initialize(p, n, RebuildSucceeds)
  }

  /** What `Synchronize` relies on holds of every answer it gets in a run without overlap:
      called at step `call`, it reads the primary's generation at step `read`. */
  lemma ComparisonQualifies(p: Pipeline, t: Trace, i: nat, session: nat, call: nat, read: nat)
    requires ExclusiveRun(p, t) && call < read < |t.steps|
    requires Calls(t.steps[call], i, session) && t.steps[read] == ReadRemote(i, session)
    requires Waiting(t, i, session, call + 1, read + 1)
    ensures i < |t.states[call].replicas|
    ensures var n := Caller(p, t, call, i);
            && NodeOk(p, t.states[read].log, n)
            && AnswersFrom(t.states[read].log, n, Some(Remote(t, read)), None)
  {
    CallerIsWaiting(p, t, i, session, call, read);
    RemoteIsLogLength(p, t, i, session, read);
  }

  /** If it goes on, it takes a snapshot at step `taken`, and that qualifies as well. */
  lemma SnapshotQualifies(
    p: Pipeline, t: Trace, i: nat, session: nat, call: nat, read: nat, taken: nat)
    requires ExclusiveRun(p, t) && call < read < taken < |t.steps|
    requires Calls(t.steps[call], i, session) && t.steps[read] == ReadRemote(i, session)
    requires t.steps[taken] == Export(i, session) && Waiting(t, i, session, call + 1, taken)
    ensures i < |t.states[call].replicas|
    ensures var n := Caller(p, t, call, i);
            && NodeOk(p, t.states[taken].log, n)
            && AnswersFrom(t.states[taken].log, n, Some(Remote(t, read)), Snapshot(t.states[taken].primary))
  {
    assert Waiting(t, i, session, call + 1, read + 1);
    ComparisonQualifies(p, t, i, session, call, read);
    CallerIsWaiting(p, t, i, session, call, taken);
    RemoteIsLogLength(p, t, i, session, read);
    RemoteIsLogLength(p, t, i, session, taken);
    RunExtendsHistory(p, t, read, taken);
    ExclusiveRunIsSafe(p, t, taken);
    assert StepsTo(p, t.states[taken], t.steps[taken], t.states[taken + 1]);
    assert t.states[taken].log[..|t.states[taken].log|] == t.states[taken].log;
  }

  /** Starting a synchronization changes only the state of the replica. */
  lemma CallerIsWaiting(p: Pipeline, t: Trace, i: nat, session: nat, call: nat, last: nat)
    requires ExclusiveRun(p, t) && call < last < |t.states|
    requires Calls(t.steps[call], i, session) && Waiting(t, i, session, call + 1, last)
    ensures i < |t.states[call].replicas|
    ensures SameButState(Caller(p, t, call, i), t.states[call + 1].replicas[i].node)
    ensures NodeOk(p, t.states[last].log, Caller(p, t, call, i))
  {
    assert StepsTo(p, t.states[call], t.steps[call], t.states[call + 1]);
    ExclusiveRunIsSafe(p, t, call);
    assert ReplicaOk(p, t.states[call].log, t.states[call].replicas[i]);
    NodeStaysOk(p, t, i, session, call + 1, last);
  }

  // ---------------------------------------------------------------------------
  // The synchronizer
  // ---------------------------------------------------------------------------

  /** What becomes of a replica that installs what the primary exported, or could not. */
  function Installed(p: Pipeline, n: Node, snapshot: Option<Disk>, fault: InstallFault): Node {
    if snapshot.None? then n.(state := OutOfSync)
    else
      var after := Resynchronize(p, n, snapshot.value.documents, snapshot.value.generation, fault);
      if fault == INSTALLED then after else after.(state := OutOfSync)
  }

  /** What becomes of a replica that synchronizes and gets these answers, whatever they are. */
  function Synchronized(
    p: Pipeline, n: Node, remote: Option<nat>, snapshot: Option<Disk>, fault: InstallFault): Node
  {
    if remote.None? then n.(state := Recovering)
    else if n.generation == remote.value then n.(state := Ready)
    else if n.generation > remote.value then n.(state := OutOfSync)
    else Installed(p, n, snapshot, fault)
  }

  /** Which answers the synchronizer of a running shard gets: the primary's, or none. */
  function Answer(s: Shard, reached: bool): Option<nat> {
    if reached then Some(s.primary.generation) else None
  }

  function Exported(s: Shard, exported: bool): Option<Disk> {
    if exported then Snapshot(s.primary) else None
  }

  /** The result is where the protocol's own steps lead: those of one synchronization, from
      its start to its end, with nothing in between. */
  lemma SynchronizedIsWhereStepsLead(
    p: Pipeline, s: Shard, i: nat, session: nat, reached: bool, exported: bool, fault: InstallFault)
    returns (steps: seq<Step>, s': Shard)
    requires Running(s, i) && session !in s.replicas[i].sessions && s.primary.state == Ready
    ensures Leads(p, s, [StartSync(i, session)] + steps, s')
    ensures forall step :: step in steps ==> OfSession(step, i, session)
    ensures s' == WithReplica(s, i, Replica(
                    Synchronized(p, s.replicas[i].node, Answer(s, reached), Exported(s, exported), fault),
                    s.replicas[i].sessions))
  {
    var r := s.replicas[i];
    var started := Enter(r, Recovering, session, Verifying(r.node.generation));
    var mid := WithReplica(s, i, started);
    assert Next(p, s, StartSync(i, session)) == mid;
    steps, s' := FromVerifying(p, mid, i, session, reached, exported, fault);
    assert ([StartSync(i, session)] + steps)[1..] == steps;
    SetTwice(s.replicas, i, started, s'.replicas[i]);
    assert started.sessions - {session} == r.sessions;
    StateDoesNotMatter(p, r.node, Answer(s, reached), Exported(s, exported), fault);
  }

  /** Synchronizing starts by marking the replica, so its state before makes no difference. */
  lemma StateDoesNotMatter(
    p: Pipeline, n: Node, remote: Option<nat>, snapshot: Option<Disk>, fault: InstallFault)
    ensures Synchronized(p, n.(state := Recovering), remote, snapshot, fault)
         == Synchronized(p, n, remote, snapshot, fault)
  {
  }

  predicate OfSession(step: Step, i: nat, session: nat) {
    match step
    case ReadRemote(j, k) => j == i && k == session
    case ReadRemoteFails(j, k) => j == i && k == session
    case Decide(j, k) => j == i && k == session
    case Export(j, k) => j == i && k == session
    case ExportFails(j, k) => j == i && k == session
    case Install(j, k, _) => j == i && k == session
    case ReportFailure(j, k) => j == i && k == session
    case _ => false
  }

  /** A replica that has read its own generation and not yet the primary's. */
  lemma FromVerifying(
    p: Pipeline, s: Shard, i: nat, session: nat, reached: bool, exported: bool, fault: InstallFault)
    returns (steps: seq<Step>, s': Shard)
    requires InPhase(s, i, session) && s.primary.state == Ready
    requires s.replicas[i].sessions[session] == Verifying(s.replicas[i].node.generation)
    ensures Leads(p, s, steps, s') && forall step :: step in steps ==> OfSession(step, i, session)
    ensures s' == WithReplica(s, i, Replica(
                    Synchronized(p, s.replicas[i].node, Answer(s, reached), Exported(s, exported), fault),
                    s.replicas[i].sessions - {session}))
  {
    var r := s.replicas[i];
    if !reached {
      steps, s' := TakeStep(p, s, [], s, ReadRemoteFails(i, session));
      return;
    }
    steps, s' := TakeStep(p, s, [], s, ReadRemote(i, session));
    var compared := Replica(r.node, r.sessions[session := Compared(r.node.generation, s.primary.generation)]);
    assert s' == WithReplica(s, i, compared);
    steps, s' := TakeStep(p, s, steps, s', Decide(i, session));
    SetTwice(s.replicas, i, compared, s'.replicas[i]);
    assert compared.sessions - {session} == r.sessions - {session};
    if r.node.generation < s.primary.generation {
      var fetching := Replica(r.node.(state := Recovering), r.sessions[session := Fetching]);
      assert compared.sessions[session := Fetching] == fetching.sessions;
      assert s' == WithReplica(s, i, fetching);
      var rest, last := FromFetching(p, s', i, session, exported, fault);
      LeadsOn(p, s, steps, s', rest, last);
      SetTwice(s.replicas, i, fetching, last.replicas[i]);
      assert fetching.sessions - {session} == r.sessions - {session};
      steps, s' := steps + rest, last;
    }
  }

  /** A replica that is behind, or resynchronizes on request. */
  lemma FromFetching(p: Pipeline, s: Shard, i: nat, session: nat, exported: bool, fault: InstallFault)
    returns (steps: seq<Step>, s': Shard)
    requires InPhase(s, i, session) && s.primary.state == Ready
    requires s.replicas[i].sessions[session].Fetching?
    ensures Leads(p, s, steps, s') && forall step :: step in steps ==> OfSession(step, i, session)
    ensures s' == WithReplica(s, i, Replica(
                    Installed(p, s.replicas[i].node, Exported(s, exported), fault),
                    s.replicas[i].sessions - {session}))
  {
    var r := s.replicas[i];
    if exported {
      steps, s' := TakeStep(p, s, [], s, Export(i, session));
      var holding := Replica(r.node, r.sessions[session := Holding(Snapshot(s.primary).value)]);
      assert s' == WithReplica(s, i, holding);
      steps, s' := TakeStep(p, s, steps, s', Install(i, session, fault));
      SetTwice(s.replicas, i, holding, s'.replicas[i]);
      assert holding.sessions - {session} == r.sessions - {session};
    } else {
      steps, s' := TakeStep(p, s, [], s, ExportFails(i, session));
    }
    if !exported || fault != INSTALLED {
      var failing := s'.replicas[i];
      assert s' == WithReplica(s, i, failing) && failing.sessions[session] == Failing;
      assert failing.sessions - {session} == r.sessions - {session};
      steps, s' := TakeStep(p, s, steps, s', ReportFailure(i, session));
      SetTwice(s.replicas, i, failing, s'.replicas[i]);
    }
  }

  /** When a replica serves after synchronizing, and in which state each failure leaves it. */
  lemma SynchronizedStates(
    p: Pipeline, n: Node, remote: Option<nat>, snapshot: Option<Disk>, fault: InstallFault)
    ensures var after := Synchronized(p, n, remote, snapshot, fault);
            var level := remote == Some(n.generation);
            var caughtUp := remote.Some? && n.generation < remote.value && snapshot.Some? && fault == INSTALLED;
            && (after.state == Ready <==> level || caughtUp)
            && (after.state == Recovering <==> remote.None?)
            && (after.state == OutOfSync <==> remote.Some? && !level && !caughtUp)
            && (caughtUp ==> after.disk == snapshot.value && Fresh(p, after))
            && (level || remote.None? || n.generation > remote.value ==> after == n.(state := after.state))
  {
  }

  /** With answers that qualify, from whatever condition the replica is in, DEGRADED and
      half-installed included: it stays on the log, never goes back, and serves afterwards
      only if it is fresh and no older than the generation the primary reported. */
  lemma SynchronizationIsSound(
    p: Pipeline, log: seq<Op>, n: Node, remote: Option<nat>, snapshot: Option<Disk>, fault: InstallFault)
    requires NodeOk(p, log, n) && AnswersFrom(log, n, remote, snapshot)
    ensures var after := Synchronized(p, n, remote, snapshot, fault);
            && NodeOk(p, log, after) && n.disk.generation <= after.disk.generation
            && (after.state == Ready ==>
                  Fresh(p, after) && remote.Some? && remote.value <= after.generation)
  {
    if snapshot.Some? {
      InstallIsSound(p, log, n, remote, snapshot.value, fault);
    }
  }

  lemma InstallIsSound(
    p: Pipeline, log: seq<Op>, n: Node, remote: Option<nat>, snapshot: Disk, fault: InstallFault)
    requires NodeOk(p, log, n) && AnswersFrom(log, n, remote, Some(snapshot))
    ensures var after := Installed(p, n, Some(snapshot), fault);
            && NodeOk(p, log, after) && n.disk.generation <= after.disk.generation
            && (after.state == Ready ==> Fresh(p, after) && after.generation == snapshot.generation)
  {
    InstallKeepsNode(p, log, n, snapshot, fault);
  }

  class ReplicaSynchronizer {
    const engine: SearchEngine

    constructor (engine: SearchEngine)
      ensures this.engine == engine
    {
      this.engine := engine;
    }

    /** The replica serves afterwards exactly when this reports success.  What it takes for
        that to be sound is `SynchronizationIsSound`. */
    method Synchronize(remote: Option<nat>, snapshot: Option<Disk>, trouble: ResyncTrouble)
      returns (outcome: SyncOutcome)
      requires engine.Valid()
      modifies engine.Repr
      ensures engine.Structure() && fresh(engine.Repr - old(engine.Repr))
      ensures engine.View()
           == Synchronized(engine.p, old(engine.View()), remote, snapshot,
                InstallOutcome(trouble, CountOf(snapshot), engine.p.embedder.Some?))
      ensures outcome.synchronized <==> engine.state == Ready
      ensures outcome.synchronized ==>
                outcome.localGeneration == engine.generation
                && outcome.primaryGeneration == Some(engine.generation)
      ensures !outcome.synchronized ==>
                outcome.localGeneration == old(engine.generation) && outcome.primaryGeneration == remote
    {
      engine.MarkRecovering();
      var local := engine.generation;
      if remote.None? {
        engine.MarkRecovering();
        return SyncOutcome(false, local, None);
      }
      if local == remote.value {
        engine.MarkReady();
        return SyncOutcome(true, local, remote);
      }
      if local > remote.value {
        engine.MarkOutOfSync();
        return SyncOutcome(false, local, remote);
      }
      outcome := ResynchronizeFrom(local, remote, snapshot, trouble);
    }

    /** Pulls a snapshot and installs it; any failure ends OUT_OF_SYNC. */
    method ResynchronizeFrom(
      local: nat, remote: Option<nat>, snapshot: Option<Disk>, trouble: ResyncTrouble)
      returns (outcome: SyncOutcome)
      requires engine.Valid()
      modifies engine.Repr
      ensures engine.Valid() && fresh(engine.Repr - old(engine.Repr))
      ensures engine.View()
           == Installed(engine.p, old(engine.View()), snapshot,
                InstallOutcome(trouble, CountOf(snapshot), engine.p.embedder.Some?))
      ensures outcome.synchronized <==> engine.state == Ready
      ensures outcome == if outcome.synchronized
                         then SyncOutcome(true, engine.generation, Some(engine.generation))
                         else SyncOutcome(false, local, remote)
    {
      engine.MarkRecovering();
      if snapshot.None? {
        engine.MarkOutOfSync();
        return SyncOutcome(false, local, remote);
      }
      var ok := engine.Resynchronize(snapshot.value.documents, snapshot.value.generation, trouble);
      if !ok {
        engine.MarkOutOfSync();
        return SyncOutcome(false, local, remote);
      }
      outcome := SyncOutcome(true, snapshot.value.generation, Some(snapshot.value.generation));
    }
  }

  function CountOf(snapshot: Option<Disk>): nat {
    if snapshot.Some? then |snapshot.value.documents| else 0
  }
}
