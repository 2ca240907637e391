/** The replication protocol of one logical shard as a step relation.

    One step is one lock-protected engine call, one message event or one process event, so
    steps of different nodes, and the phases of a synchronization, interleave freely.
    Messages are never consumed: a message may be delivered late, repeatedly, out of order,
    or never, and a call that timed out may still be applied later. */
module Protocol {
  import opened Basics
  import opened Nodes

  // ---------------------------------------------------------------------------
  // State
  // ---------------------------------------------------------------------------

  /** How far one run of the replica's synchronizer has got. */
  datatype Phase =
    | Verifying(local: nat)
    | Compared(local: nat, remote: nat)
    | Fetching
    | Holding(snapshot: Disk)
    | Failing

  datatype Replica = Replica(node: Node, sessions: map<nat, Phase>)

  /** The mutation the primary is replicating: it waits for target `next`. */
  datatype Pending = Idle | InFlight(generation: nat, op: Op, next: nat)

  datatype Message = Message(target: nat, generation: nat, op: Op)

  /** `log` and `acked` are history: every mutation the primary committed, in order, and
      the generations whose writes were acknowledged. */
  datatype Shard = Shard(
    log: seq<Op>, primary: Node, replicas: seq<Replica>, pending: Pending,
    messages: set<Message>, replies: set<(nat, nat)>, acked: set<nat>)

  datatype Step =
    | PrimaryWrite(op: Op, fault: Fault)
    | Send | Advance | Acknowledge | GiveUp
    | PrimaryCrash | PrimaryRestart(rebuild: RebuildFault)
    | Deliver(message: Message, fault: Fault)
    | ReplicaCrash(i: nat) | ReplicaRestart(i: nat, session: nat, rebuild: RebuildFault)
    | StartSync(i: nat, session: nat) | StartResync(i: nat, session: nat)
    | ReadRemote(i: nat, session: nat) | ReadRemoteFails(i: nat, session: nat)
    | Decide(i: nat, session: nat)
    | Export(i: nat, session: nat) | ExportFails(i: nat, session: nat)
    | Install(i: nat, session: nat, installFault: InstallFault)
    | ReportFailure(i: nat, session: nat)

  function Replay(log: seq<Op>): Documents {
    if log == [] then map[] else ApplyOp(Replay(log[..|log| - 1]), log[|log| - 1])
  }

  /** A process that is down: only its disk survives. */
  function Down(p: Pipeline, disk: Disk): Node {
    Node(disk, 0, Rebuilt(p, map[]), Starting)
  }

  // ---------------------------------------------------------------------------
  // Steps of the primary
  // ---------------------------------------------------------------------------

  function WriteStep(p: Pipeline, s: Shard, op: Op, fault: Fault): Shard {
    var (node, reply) := Write(p, s.primary, op, fault);
    s.(primary := node,
       log := if Committed(reply) then s.log + [op] else s.log,
       pending := if reply.Stored? || reply.Removed? then InFlight(node.generation, op, 0) else Idle)
  }

  // ---------------------------------------------------------------------------
  // Steps of a replica
  // ---------------------------------------------------------------------------

  function WithReplica(s: Shard, i: nat, r: Replica): Shard
    requires i < |s.replicas|
  {
    s.(replicas := s.replicas[i := r])
  }

  function DeliverStep(p: Pipeline, s: Shard, m: Message, fault: Fault): Shard
    requires m.target < |s.replicas|
  {
    var r := s.replicas[m.target];
    var (node, reply) := ApplyReplicated(p, r.node, m.op, m.generation, fault);
    WithReplica(s, m.target, r.(node := node)).(
      replies := if reply.Applied? || reply.Duplicate? then s.replies + {(m.target, m.generation)}
                 else s.replies)
  }

  function Enter(r: Replica, state: NodeState, session: nat, phase: Phase): Replica {
    Replica(r.node.(state := state), r.sessions[session := phase])
  }

  function Leave(r: Replica, state: NodeState, session: nat): Replica {
    Replica(r.node.(state := state), r.sessions - {session})
  }

  function DecideStep(r: Replica, session: nat): Replica
    requires session in r.sessions && r.sessions[session].Compared?
  {
    var Compared(local, remote) := r.sessions[session];
    if local == remote then Leave(r, Ready, session)
    else if local > remote then Leave(r, OutOfSync, session)
    else Enter(r, Recovering, session, Fetching)
  }

  function InstallStep(p: Pipeline, r: Replica, session: nat, fault: InstallFault): Replica
    requires session in r.sessions && r.sessions[session].Holding?
  {
    var Disk(documents, generation) := r.sessions[session].snapshot;
    Replica(Resynchronize(p, r.node, documents, generation, fault),
            if fault == INSTALLED then r.sessions - {session}
            else r.sessions[session := Failing])
  }

  /** A process that comes up synchronizes at once; one whose rebuild fails stays down. */
  function RestartStep(p: Pipeline, r: Replica, session: nat, rebuild: RebuildFault): Replica {
    var node := Initialize(p, r.node, rebuild);
    if rebuild.RebuildSucceeds? then
      Replica(node.(state := Recovering), map[session := Verifying(node.generation)])
    else r.(node := node)
  }

  // ---------------------------------------------------------------------------
  // The step relation
  // ---------------------------------------------------------------------------

  predicate InPhase(s: Shard, i: nat, session: nat) {
    i < |s.replicas| && session in s.replicas[i].sessions
  }

  predicate Running(s: Shard, i: nat) {
    i < |s.replicas| && s.replicas[i].node.state != Starting
  }

  predicate Enabled(p: Pipeline, s: Shard, step: Step) {
    match step
    case PrimaryWrite(_, _) => s.pending.Idle?
    case Send => s.pending.InFlight? && s.pending.next < |s.replicas|
    case Advance =>
      && s.pending.InFlight? && s.pending.next < |s.replicas|
      && (s.pending.next, s.pending.generation) in s.replies
    case Acknowledge => s.pending.InFlight? && s.pending.next == |s.replicas|
    case GiveUp => s.pending.InFlight?
    case PrimaryCrash => true
    case PrimaryRestart(_) => s.primary.state == Starting
    case Deliver(m, _) => m in s.messages && Running(s, m.target)
    case ReplicaCrash(i) => i < |s.replicas|
    case ReplicaRestart(i, _, _) => i < |s.replicas| && s.replicas[i].node.state == Starting
    case StartSync(i, session) => Running(s, i) && session !in s.replicas[i].sessions
    case StartResync(i, session) => Running(s, i) && session !in s.replicas[i].sessions
    case ReadRemote(i, session) =>
      InPhase(s, i, session) && s.replicas[i].sessions[session].Verifying? && s.primary.state != Starting
    case ReadRemoteFails(i, session) =>
      InPhase(s, i, session) && s.replicas[i].sessions[session].Verifying?
    case Decide(i, session) => InPhase(s, i, session) && s.replicas[i].sessions[session].Compared?
    case Export(i, session) =>
      InPhase(s, i, session) && s.replicas[i].sessions[session].Fetching? && s.primary.state == Ready
    case ExportFails(i, session) => InPhase(s, i, session) && s.replicas[i].sessions[session].Fetching?
    case Install(i, session, _) => InPhase(s, i, session) && s.replicas[i].sessions[session].Holding?
    case ReportFailure(i, session) => InPhase(s, i, session) && s.replicas[i].sessions[session].Failing?
  }

  function Next(p: Pipeline, s: Shard, step: Step): Shard
    requires Enabled(p, s, step)
  {
    match step
    case PrimaryWrite(op, fault) => WriteStep(p, s, op, fault)
    case Send =>
      s.(messages := s.messages + {Message(s.pending.next, s.pending.generation, s.pending.op)})
    case Advance => s.(pending := s.pending.(next := s.pending.next + 1))
    case Acknowledge => s.(acked := s.acked + {s.pending.generation}, pending := Idle)
    case GiveUp => s.(pending := Idle)
    case PrimaryCrash => s.(primary := Down(p, s.primary.disk), pending := Idle)
    case PrimaryRestart(rebuild) => s.(primary := Initialize(p, s.primary, rebuild))
    case Deliver(m, fault) => DeliverStep(p, s, m, fault)
    case ReplicaCrash(i) => WithReplica(s, i, Replica(Down(p, s.replicas[i].node.disk), map[]))
    case ReplicaRestart(i, session, rebuild) =>
      WithReplica(s, i, RestartStep(p, s.replicas[i], session, rebuild))
    case StartSync(i, session) =>
      var r := s.replicas[i];
      WithReplica(s, i, Enter(r, Recovering, session, Verifying(r.node.generation)))
    case StartResync(i, session) =>
      WithReplica(s, i, Enter(s.replicas[i], Recovering, session, Fetching))
    case ReadRemote(i, session) =>
      var r := s.replicas[i];
      WithReplica(s, i, r.(sessions := r.sessions[session :=
        Compared(r.sessions[session].local, s.primary.generation)]))
    case ReadRemoteFails(i, session) => WithReplica(s, i, Leave(s.replicas[i], Recovering, session))
    case Decide(i, session) => WithReplica(s, i, DecideStep(s.replicas[i], session))
    case Export(i, session) =>
      var r := s.replicas[i];
      WithReplica(s, i, r.(sessions := r.sessions[session := Holding(Snapshot(s.primary).value)]))
    case ExportFails(i, session) =>
      var r := s.replicas[i];
      WithReplica(s, i, r.(sessions := r.sessions[session := Failing]))
    case Install(i, session, fault) => WithReplica(s, i, InstallStep(p, s.replicas[i], session, fault))
    case ReportFailure(i, session) => WithReplica(s, i, Leave(s.replicas[i], OutOfSync, session))
  }

  // ---------------------------------------------------------------------------
  // Runs
  // ---------------------------------------------------------------------------

  /** A cold shard: every process down, every disk empty. */
  predicate Initial(p: Pipeline, s: Shard) {
    && s.log == [] && s.primary == Down(p, Disk(map[], 0))
    && (forall i :: 0 <= i < |s.replicas| ==> s.replicas[i] == Replica(Down(p, Disk(map[], 0)), map[]))
    && s.pending.Idle? && s.messages == {} && s.replies == {} && s.acked == {}
  }

  datatype Trace = Trace(states: seq<Shard>, steps: seq<Step>)

  ghost predicate IsRun(p: Pipeline, t: Trace) {
    && |t.states| == |t.steps| + 1
    && Initial(p, t.states[0])
    && (forall k :: 0 <= k < |t.steps| ==> StepsTo(p, t.states[k], t.steps[k], t.states[k + 1]))
  }

  ghost predicate StepsTo(p: Pipeline, s: Shard, step: Step, s': Shard) {
    Enabled(p, s, step) && s' == Next(p, s, step)
  }

  /** Whatever the replica has told its primary it holds is in the first `generation`
      entries. */
  ghost predicate KeepsReports(s: Shard, i: nat, generation: nat) {
    forall g :: (i, g) in s.replies ==> g <= generation
  }

  /** When the rebuild after an install fails, memory stays where it was; it must not be
      ahead of the new disk, and level with it only if derived state happens to match. */
  predicate MemoryFollows(p: Pipeline, n: Node, snapshot: Disk, rebuild: RebuildFault) {
    match rebuild
    case RebuildSucceeds => true
    case GenerationUnread => n.generation <= snapshot.generation
    case NothingRebuilt =>
      n.generation < snapshot.generation
      || (n.generation == snapshot.generation && n.derived == Rebuilt(p, snapshot.documents))
  }

  ghost predicate SnapshotFits(p: Pipeline, s: Shard, i: nat, snapshot: Disk, fault: InstallFault)
    requires i < |s.replicas|
  {
    fault.Replaced? ==>
      && KeepsReports(s, i, snapshot.generation)
      && MemoryFollows(p, s.replicas[i].node, snapshot, fault.rebuild)
  }

  /** What the code does not check: an installed snapshot contains everything the replica has
      reported to hold, and a replica is declared ready only over what is on its disk. */
  ghost predicate Guarded(p: Pipeline, s: Shard, step: Step)
    requires Enabled(p, s, step)
  {
    match step
    case Install(i, session, fault) =>
      SnapshotFits(p, s, i, s.replicas[i].sessions[session].snapshot, fault)
    case Decide(i, session) =>
      var phase := s.replicas[i].sessions[session];
      var node := s.replicas[i].node;
      phase.local == phase.remote ==> node.generation == node.disk.generation
    case _ => true
  }

  /** At most one synchronization per replica is ever under way. */
  predicate Exclusive(s: Shard, step: Step) {
    && (step.StartSync? && step.i < |s.replicas| ==> s.replicas[step.i].sessions == map[])
    && (step.StartResync? && step.i < |s.replicas| ==> s.replicas[step.i].sessions == map[])
  }

  ghost predicate GuardedRun(p: Pipeline, t: Trace) {
    && IsRun(p, t)
    && forall k :: 0 <= k < |t.steps| ==>
         StepsTo(p, t.states[k], t.steps[k], t.states[k + 1]) && Guarded(p, t.states[k], t.steps[k])
  }

  ghost predicate ExclusiveRun(p: Pipeline, t: Trace) {
    && IsRun(p, t)
    && forall k :: 0 <= k < |t.steps| ==> Exclusive(t.states[k], t.steps[k])
  }

  predicate Comparing(phase: Phase) {
    phase.Verifying? || phase.Compared?
  }

  /** How the program starts synchronizations: one that compares generations only when the
      process comes up, before it answers any request; a serving process only resynchronizes,
      as often and as concurrently as it is asked to. */
  predicate AsDeployed(s: Shard, step: Step) {
    && !step.StartSync?
    && (step.StartResync? && step.i < |s.replicas| ==>
          forall k :: k in s.replicas[step.i].sessions ==> !Comparing(s.replicas[step.i].sessions[k]))
  }

  ghost predicate DeployedRun(p: Pipeline, t: Trace) {
    && IsRun(p, t)
    && forall k :: 0 <= k < |t.steps| ==> AsDeployed(t.states[k], t.steps[k])
  }

  // ---------------------------------------------------------------------------
  // The safety invariant
  // ---------------------------------------------------------------------------

  ghost predicate PrimaryOk(p: Pipeline, log: seq<Op>, n: Node) {
    && n.disk == Disk(Replay(log), |log|)
    && (n.state != Starting ==> n.generation == |log|)
    && (n.state == Ready ==> n.derived == Rebuilt(p, n.disk.documents))
  }

  /** A replica's disk is the replay of a prefix of the log, and when its memory claims the
      disk's generation its derived state is the rebuild of that disk. */
  ghost predicate NodeOk(p: Pipeline, log: seq<Op>, n: Node) {
    && n.disk.generation <= |log|
    && n.disk.documents == Replay(log[..n.disk.generation])
    && n.generation <= n.disk.generation
    && (n.generation == n.disk.generation ==> n.derived == Rebuilt(p, n.disk.documents))
    && (n.state == Ready ==> n.generation == n.disk.generation)
  }

  ghost predicate PhaseOk(log: seq<Op>, phase: Phase) {
    && (phase.Compared? ==> phase.remote <= |log|)
    && (phase.Holding? ==>
          && phase.snapshot.generation <= |log|
          && phase.snapshot.documents == Replay(log[..phase.snapshot.generation]))
  }

  ghost predicate ReplicaOk(p: Pipeline, log: seq<Op>, r: Replica) {
    && NodeOk(p, log, r.node)
    && (forall k :: k in r.sessions ==> PhaseOk(log, r.sessions[k]))
  }

  /** Every replica's disk has reached generation `g`. */
  ghost predicate Reached(s: Shard, g: nat) {
    g <= |s.log| && forall i :: 0 <= i < |s.replicas| ==> g <= s.replicas[i].node.disk.generation
  }

  /** The first `count` replicas have all reported to hold generation `g`. */
  ghost predicate Reported(s: Shard, count: nat, g: nat) {
    g <= |s.log| && forall i: nat :: i < count ==> (i, g) in s.replies
  }

  ghost predicate InFlightOk(s: Shard) {
    s.pending.InFlight? ==>
      && 1 <= s.pending.generation == |s.log| && s.pending.op == s.log[s.pending.generation - 1]
      && s.primary.state == Ready
      && s.pending.next <= |s.replicas| && Reported(s, s.pending.next, s.pending.generation)
  }

  ghost predicate MessageOk(log: seq<Op>, m: Message) {
    1 <= m.generation <= |log| && m.op == log[m.generation - 1]
  }

  ghost predicate ReplyOk(s: Shard, reply: (nat, nat)) {
    reply.0 < |s.replicas| ==> reply.1 <= s.replicas[reply.0].node.disk.generation
  }

  /** Every copy is on the log, an acknowledgement rests on a report of every replica, and
      every report is still true of the disk it was made from. */
  ghost predicate Inv(p: Pipeline, s: Shard) {
    && PrimaryOk(p, s.log, s.primary)
    && (forall i :: 0 <= i < |s.replicas| ==> ReplicaOk(p, s.log, s.replicas[i]))
    && InFlightOk(s)
    && (forall m :: m in s.messages ==> MessageOk(s.log, m))
    && (forall reply :: reply in s.replies ==> ReplyOk(s, reply))
    && (forall g :: g in s.acked ==> Reported(s, |s.replicas|, g))
  }

  /** Extra facts when synchronizations do not overlap. */
  ghost predicate SessionOk(r: Replica, phase: Phase) {
    && r.node.state != Ready && r.node.state != Starting
    && (phase.Verifying? ==> phase.local == r.node.generation)
    && (phase.Compared? ==> phase.local == r.node.generation && r.node.disk.generation <= phase.remote)
    && (phase.Holding? ==> r.node.disk.generation <= phase.snapshot.generation)
  }

  ghost predicate SoleSession(r: Replica) {
    && (forall k, l :: k in r.sessions && l in r.sessions ==> k == l)
    && (forall k :: k in r.sessions ==> SessionOk(r, r.sessions[k]))
  }

  ghost predicate NoOverlap(s: Shard) {
    forall i :: 0 <= i < |s.replicas| ==> SoleSession(s.replicas[i])
  }
}
