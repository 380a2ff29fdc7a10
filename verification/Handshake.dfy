/**
 * The fork set-up handshake: child and parent over a pair of byte streams, each
 * of them able to fail at any point.
 */
module Handshake {
  import opened Common

  datatype ChildPc =
    | Unshare | SendSignal | AwaitAck | BringUpLoopback | CreateTun | SetUpMounts | SendFd | AwaitReady
    | CommandRunning | ChildDead

  datatype ParentPc =
    | AwaitSignal | WriteMaps | SendAck | AwaitFd | BindListeners | BuildRuntime | RegisterListeners | SendReady
    | Serving | ParentDead

  /** Child to parent: the unshare byte, or the byte that carries the TUN fd. */
  datatype Up = SignalByte(value: byte) | FdByte

  /** Parent to child: only the value travels; the purpose is a history. */
  datatype Purpose = Ack | Ready
  datatype Down = Down(value: byte, purpose: Purpose)

  /** The two processes, the bytes in flight, what has been done to the system, and
      histories of what each side has sent and read. */
  datatype State = State(
    child: ChildPc, parent: ParentPc, up: seq<Up>, down: seq<Down>,
    needsMaps: bool, mapsWritten: bool, publishes: nat, bound: nat, registered: nat,
    signalSent: bool, ackRead: bool, fdSent: bool, readyRead: bool,
    signalRead: bool, ackSent: bool, fdRead: bool, readySent: bool)

  function Initial(publishes: nat): State {
    State(Unshare, AwaitSignal, [], [], false, false, publishes, 0, 0,
          false, false, false, false, false, false, false, false)
  }

  predicate ChildAlive(s: State) {
    !s.child.ChildDead?
  }

  predicate ParentAlive(s: State) {
    !s.parent.ParentDead?
  }

  // ---------------------------------------------------------------- moves

  /** `ChildStep(choice)` and `ParentStep` are the next action of the program, which
      may be discovering that the peer is gone. `ChildFails` and `ParentFails` end a
      process by itself, wherever it stands: an error, a signal or, for a child
      whose command runs, the end of the command. */
  datatype Move = ChildStep(choice: bool) | ParentStep | ChildFails | ParentFails

  predicate Enabled(s: State, m: Move) {
    match m
    case ChildStep(_) =>
      match s.child {
        case AwaitAck => s.down != [] || !ParentAlive(s)
        case AwaitReady => s.down != [] || !ParentAlive(s)
        case CommandRunning => false
        case ChildDead => false
        case _ => true
      }
    case ParentStep =>
      match s.parent {
        case AwaitSignal => s.up != [] || !ChildAlive(s)
        case AwaitFd => s.up != [] || !ChildAlive(s)
        case Serving => !ChildAlive(s)
        case ParentDead => false
        case _ => true
      }
    case ChildFails => ChildAlive(s)
    case ParentFails => ParentAlive(s)
  }

  function KillChild(s: State): State {
    s.(child := ChildDead)
  }

  function KillParent(s: State): State {
    s.(parent := ParentDead)
  }

  /** Reading one byte, and finding the channel closed or the byte wrong. */
  function ChildTakes(s: State): State
    requires Enabled(s, ChildStep(false))
  {
    match s.child
    case Unshare => s
    case SendSignal =>
      if !ParentAlive(s) then KillChild(s) else
        s.(up := s.up + [SignalByte(if s.needsMaps then 1 else 0)], signalSent := true,
           child := if s.needsMaps then AwaitAck else BringUpLoopback)
    case AwaitAck =>
      if s.down == [] || s.down[0].value != 1 then KillChild(s)
      else s.(down := s.down[1..], ackRead := true, child := BringUpLoopback)
    case BringUpLoopback => s.(child := CreateTun)
    case CreateTun => s.(child := SetUpMounts)
    case SetUpMounts => s.(child := SendFd)
    case SendFd =>
      if !ParentAlive(s) then KillChild(s) else s.(up := s.up + [FdByte], fdSent := true, child := AwaitReady)
    case AwaitReady =>
      if s.down == [] || s.down[0].value != 1 then KillChild(s)
      else s.(down := s.down[1..], readyRead := true, child := CommandRunning)
  }

  function ParentTakes(s: State): State
    requires Enabled(s, ParentStep)
  {
    match s.parent
    case AwaitSignal =>
      if s.up == [] || s.up[0].FdByte? || s.up[0].value > 1 then KillParent(s)
      else s.(up := s.up[1..], signalRead := true, parent := if s.up[0].value == 1 then WriteMaps else AwaitFd)
    case WriteMaps => s.(mapsWritten := true, parent := SendAck)
    case SendAck =>
      if !ChildAlive(s) then KillParent(s)
      else s.(down := s.down + [Down(1, Ack)], ackSent := true, parent := AwaitFd)
    case AwaitFd =>
      if s.up == [] || !s.up[0].FdByte? then KillParent(s)
      else s.(up := s.up[1..], fdRead := true, parent := BindListeners)
    case BindListeners =>
      if s.bound < s.publishes then s.(bound := s.bound + 1) else s.(parent := BuildRuntime)
    case BuildRuntime => s.(parent := RegisterListeners)
    case RegisterListeners =>
      if s.registered < s.bound then s.(registered := s.registered + 1) else s.(parent := SendReady)
    case SendReady =>
      if !ChildAlive(s) then KillParent(s)
      else s.(down := s.down + [Down(1, Ready)], readySent := true, parent := Serving)
    case Serving => KillParent(s)
  }

  function Apply(s: State, m: Move): State
    requires Enabled(s, m)
  {
    match m
    case ChildStep(choice) => if s.child.Unshare? then s.(needsMaps := choice, child := SendSignal) else ChildTakes(s)
    case ParentStep => ParentTakes(s)
    case ChildFails => KillChild(s)
    case ParentFails => KillParent(s)
  }

  // ---------------------------------------------------------------- the invariant

  function Flight<T>(sent: bool, read: bool, x: T): seq<T> {
    if sent && !read then [x] else []
  }

  /** Exactly what was sent and not yet read is in flight, in order. */
  ghost predicate Channels(s: State) {
    && s.up == Flight(s.signalSent, s.signalRead, SignalByte(if s.needsMaps then 1 else 0))
               + Flight(s.fdSent, s.fdRead, FdByte)
    && s.down == Flight(s.ackSent, s.ackRead, Down(1, Ack)) + Flight(s.readySent, s.readyRead, Down(1, Ready))
  }

  /** What each action presupposes, whoever is still alive. */
  ghost predicate Causality(s: State) {
    && (s.signalRead ==> s.signalSent)
    && (s.ackSent ==> s.signalRead && s.needsMaps && s.mapsWritten)
    && (s.ackRead ==> s.ackSent)
    && (s.fdSent ==> s.signalSent && (s.needsMaps ==> s.ackRead))
    && (s.fdRead ==> s.fdSent && s.signalRead)
    && (s.readySent ==> s.fdRead && s.bound == s.publishes && s.registered == s.publishes)
    && (s.readyRead ==> s.readySent)
    && s.registered <= s.bound <= s.publishes
  }

  ghost predicate ChildAt(s: State) {
    match s.child
    case Unshare => !s.signalSent
    case SendSignal => !s.signalSent
    case AwaitAck => s.signalSent && s.needsMaps && !s.ackRead && !s.fdSent
    case AwaitReady => s.fdSent && !s.readyRead
    case CommandRunning => s.readyRead
    case ChildDead => true
    case _ => s.signalSent && (s.needsMaps ==> s.ackRead) && !s.fdSent
  }

  ghost predicate ParentAt(s: State) {
    match s.parent
    case AwaitSignal => !s.signalRead
    case WriteMaps => s.signalRead && s.needsMaps && !s.ackSent
    case SendAck => s.signalRead && s.needsMaps && !s.ackSent && s.mapsWritten
    case AwaitFd => s.signalRead && (s.needsMaps ==> s.ackSent) && !s.fdRead
    case BindListeners => s.fdRead && !s.readySent && s.registered == 0
    case BuildRuntime => s.fdRead && !s.readySent && s.bound == s.publishes && s.registered == 0
    case RegisterListeners => s.fdRead && !s.readySent && s.bound == s.publishes
    case SendReady => s.fdRead && !s.readySent && s.bound == s.publishes && s.registered == s.publishes
    case Serving => s.readySent
    case ParentDead => true
  }

  /** Nothing is bound before the fd has arrived. */
  ghost predicate NothingEarly(s: State) {
    !s.fdRead ==> s.bound == 0 && s.registered == 0
  }

  ghost predicate Inv(s: State) {
    Channels(s) && Causality(s) && ChildAt(s) && ParentAt(s) && NothingEarly(s)
  }

  lemma ChildStepKeeps(s: State, choice: bool)
    requires Inv(s) && Enabled(s, ChildStep(choice))
    ensures Inv(Apply(s, ChildStep(choice)))
  {
  }

  predicate ReadsChannel(p: ParentPc) {
    p.AwaitSignal? || p.AwaitFd?
  }

  predicate WritesChannel(p: ParentPc) {
    p.SendAck? || p.SendReady?
  }

  lemma ParentReadKeeps(s: State)
    requires Inv(s) && Enabled(s, ParentStep) && ReadsChannel(s.parent)
    ensures Inv(Apply(s, ParentStep))
  {
  }

  lemma ParentWriteKeeps(s: State)
    requires Inv(s) && Enabled(s, ParentStep) && WritesChannel(s.parent)
    ensures Inv(Apply(s, ParentStep))
  {
  }

  lemma ParentLocalKeeps(s: State)
    requires Inv(s) && Enabled(s, ParentStep) && !ReadsChannel(s.parent) && !WritesChannel(s.parent)
    ensures Inv(Apply(s, ParentStep))
  {
  }

  lemma ParentStepKeeps(s: State)
    requires Inv(s) && Enabled(s, ParentStep)
    ensures Inv(Apply(s, ParentStep))
  {
    if ReadsChannel(s.parent) {
      ParentReadKeeps(s);
    } else if WritesChannel(s.parent) {
      ParentWriteKeeps(s);
    } else {
      ParentLocalKeeps(s);
    }
  }

  lemma ApplyKeeps(s: State, m: Move)
    requires Inv(s) && Enabled(s, m)
    ensures Inv(Apply(s, m)) && Apply(s, m).publishes == s.publishes
  {
    match m
    case ChildStep(choice) => ChildStepKeeps(s, choice);
    case ParentStep => ParentStepKeeps(s);
    case _ =>
  }

  // ---------------------------------------------------------------- runs

  ghost predicate IsRun(trace: seq<State>, moves: seq<Move>, publishes: nat) {
    && |trace| == |moves| + 1 && trace[0] == Initial(publishes)
    && forall i {:trigger Follows(trace, moves, i)} | 0 <= i < |moves| :: Follows(trace, moves, i)
  }

  ghost predicate Follows(trace: seq<State>, moves: seq<Move>, i: int)
    requires |trace| == |moves| + 1 && 0 <= i < |moves|
  {
    Enabled(trace[i], moves[i]) && trace[i + 1] == Apply(trace[i], moves[i])
  }

  lemma {:induction false} RunsKeepInv(trace: seq<State>, moves: seq<Move>, publishes: nat, i: nat)
    requires IsRun(trace, moves, publishes) && i < |trace|
    ensures Inv(trace[i]) && trace[i].publishes == publishes
  {
    if i > 0 {
      RunsKeepInv(trace, moves, publishes, i - 1);
      StepKeepsInv(trace, moves, publishes, i - 1);
    }
  }

  lemma StepKeepsInv(trace: seq<State>, moves: seq<Move>, publishes: nat, i: nat)
    requires IsRun(trace, moves, publishes) && i < |moves| && Inv(trace[i])
    ensures Inv(trace[i + 1]) && trace[i + 1].publishes == trace[i].publishes
  {
    assert Follows(trace, moves, i);
    ApplyKeeps(trace[i], moves[i]);
  }

  /** In every interleaving, whatever fails: the command runs only after every
      published listener is bound and registered and, if a user namespace was
      needed, after its id maps were written. */
  lemma CommandStartsLast(trace: seq<State>, moves: seq<Move>, publishes: nat, i: nat)
    requires IsRun(trace, moves, publishes) && i < |trace| && trace[i].child.CommandRunning?
    ensures trace[i].bound == publishes && trace[i].registered == publishes
    ensures trace[i].needsMaps ==> trace[i].mapsWritten
  {
    RunsKeepInv(trace, moves, publishes, i);
  }

  /** Both control bytes have the same value, yet the byte a waiting child reads is
      always the one it waits for. */
  lemma BytesAreNotConfused(trace: seq<State>, moves: seq<Move>, publishes: nat, i: nat)
    requires IsRun(trace, moves, publishes) && i < |trace| && trace[i].down != []
    ensures trace[i].down[0].value == 1
    ensures trace[i].child.AwaitAck? ==> trace[i].down[0].purpose == Ack
    ensures trace[i].child.AwaitReady? ==> trace[i].down[0].purpose == Ready
  {
    RunsKeepInv(trace, moves, publishes, i);
  }

  // ---------------------------------------------------------------- progress

  /** Neither program has a next action. */
  predicate Quiet(s: State) {
    !Enabled(s, ParentStep) && !Enabled(s, ChildStep(false))
  }

  /** No deadlock: neither side has a next action exactly when the command runs
      under a serving parent, the command runs and the parent is gone, or both are
      gone. In particular nobody waits forever for a dead peer. */
  lemma NeverStuck(s: State)
    requires Inv(s)
    ensures Quiet(s) <==>
      || (s.child.CommandRunning? && s.parent.Serving?)
      || (s.child.CommandRunning? && s.parent.ParentDead?)
      || (s.child.ChildDead? && s.parent.ParentDead?)
  {
  }

  function ChildRank(c: ChildPc): nat {
    match c
    case Unshare => 9 case SendSignal => 8 case AwaitAck => 7 case BringUpLoopback => 6 case CreateTun => 5
    case SetUpMounts => 4 case SendFd => 3 case AwaitReady => 2 case CommandRunning => 1 case ChildDead => 0
  }

  function ParentRank(p: ParentPc): nat {
    match p
    case AwaitSignal => 9 case WriteMaps => 8 case SendAck => 7 case AwaitFd => 6 case BindListeners => 5
    case BuildRuntime => 4 case RegisterListeners => 3 case SendReady => 2 case Serving => 1 case ParentDead => 0
  }

  /** How many actions are left at most. */
  function Fuel(s: State): int {
    ChildRank(s.child) + ParentRank(s.parent) + (s.publishes - s.bound) + (s.publishes - s.registered)
  }

  /** An action leaves the other process alone ... */
  lemma ActionsAreLocal(s: State, choice: bool)
    requires Inv(s)
    ensures Enabled(s, ChildStep(choice)) ==>
      var t := Apply(s, ChildStep(choice));
      (t.parent, t.publishes, t.bound, t.registered) == (s.parent, s.publishes, s.bound, s.registered)
    ensures Enabled(s, ParentStep) ==>
      var t := Apply(s, ParentStep); (t.child, t.publishes) == (s.child, s.publishes)
  {
  }

  /** ... and brings its own process forward, ... */
  lemma ChildUsesFuel(s: State, choice: bool)
    requires Inv(s) && Enabled(s, ChildStep(choice))
    ensures ChildRank(Apply(s, ChildStep(choice)).child) < ChildRank(s.child)
  {
  }

  function ParentLeft(s: State): int {
    ParentRank(s.parent) - s.bound - s.registered
  }

  lemma ParentTalkUsesFuel(s: State)
    requires Inv(s) && Enabled(s, ParentStep) && (ReadsChannel(s.parent) || WritesChannel(s.parent))
    ensures ParentLeft(Apply(s, ParentStep)) < ParentLeft(s)
  {
  }

  /** ... or binds or registers one more listener. */
  lemma ParentUsesFuel(s: State)
    requires Inv(s) && Enabled(s, ParentStep)
    ensures ParentLeft(Apply(s, ParentStep)) < ParentLeft(s)
  {
    if ReadsChannel(s.parent) || WritesChannel(s.parent) {
      ParentTalkUsesFuel(s);
    }
  }

  lemma MovesUseFuel(s: State, m: Move)
    requires Inv(s) && Enabled(s, m)
    ensures Fuel(Apply(s, m)) < Fuel(s)
  {
    match m
    case ChildStep(choice) =>
      ActionsAreLocal(s, choice);
      ChildUsesFuel(s, choice);
    case ParentStep =>
      ActionsAreLocal(s, false);
      ParentUsesFuel(s);
    case _ =>
  }

  lemma {:induction false} FuelBoundsRuns(trace: seq<State>, moves: seq<Move>, publishes: nat, i: nat)
    requires IsRun(trace, moves, publishes) && i < |trace|
    ensures i + Fuel(trace[i]) <= 18 + 2 * publishes
  {
    if i > 0 {
      FuelBoundsRuns(trace, moves, publishes, i - 1);
      StepUsesFuel(trace, moves, publishes, i - 1);
    }
  }

  lemma StepUsesFuel(trace: seq<State>, moves: seq<Move>, publishes: nat, i: nat)
    requires IsRun(trace, moves, publishes) && i < |moves|
    ensures Fuel(trace[i + 1]) < Fuel(trace[i])
  {
    RunsKeepInv(trace, moves, publishes, i);
    assert Follows(trace, moves, i);
    MovesUseFuel(trace[i], moves[i]);
  }

  /** Once the ready byte is out, the child ends only by itself. */
  lemma ReadyKeepsChild(s: State, m: Move)
    requires Inv(s) && Enabled(s, m) && !m.ChildFails?
    requires s.readySent ==> ChildAlive(s)
    ensures var t := Apply(s, m); t.readySent ==> ChildAlive(t)
  {
  }

  lemma {:induction false} ReadyKeepsChildOverRun(trace: seq<State>, moves: seq<Move>, publishes: nat, i: nat)
    requires IsRun(trace, moves, publishes) && i < |trace| && ChildFails !in moves[..i]
    ensures trace[i].readySent ==> ChildAlive(trace[i])
  {
    if i > 0 {
      assert moves[..i] == moves[..i - 1] + [moves[i - 1]];
      ReadyKeepsChildOverRun(trace, moves, publishes, i - 1);
      StepKeepsChild(trace, moves, publishes, i - 1);
    }
  }

  lemma StepKeepsChild(trace: seq<State>, moves: seq<Move>, publishes: nat, i: nat)
    requires IsRun(trace, moves, publishes) && i < |moves| && !moves[i].ChildFails?
    requires trace[i].readySent ==> ChildAlive(trace[i])
    ensures trace[i + 1].readySent ==> ChildAlive(trace[i + 1])
  {
    RunsKeepInv(trace, moves, publishes, i);
    assert Follows(trace, moves, i);
    ReadyKeepsChild(trace[i], moves[i]);
  }

  /** Every run has at most 18 + 2n moves. Where neither side has a next action:
      a dead child has a dead parent; a child survives a dead parent exactly if it
      runs the command, which takes the ready byte; a parent that died before
      sending that byte has a dead child; and unless the child ended by itself, a
      dead parent leads it to stop exactly if the byte was not sent. */
  lemma RunsSettle(trace: seq<State>, moves: seq<Move>, publishes: nat)
    requires IsRun(trace, moves, publishes)
    ensures |moves| <= 18 + 2 * publishes
    ensures var last := trace[|trace| - 1];
      Quiet(last) ==>
        && (last.child.ChildDead? ==> last.parent.ParentDead?)
        && (last.parent.ParentDead? ==>
              && (!last.child.ChildDead? <==> last.child.CommandRunning?)
              && (!last.readyRead ==> last.child.ChildDead?)
              && (!last.readySent ==> last.child.ChildDead? && !last.readyRead)
              && (ChildFails !in moves ==>
                    && (last.child.ChildDead? <==> !last.readyRead)
                    && (last.child.ChildDead? <==> !last.readySent)))
  {
    var last := trace[|trace| - 1];
    RunsKeepInv(trace, moves, publishes, |moves|);
    FuelBoundsRuns(trace, moves, publishes, |moves|);
    assert last == trace[|moves|] && Fuel(last) >= 0;
    NeverStuck(last);
    if ChildFails !in moves {
      assert moves[..|moves|] == moves;
      ReadyKeepsChildOverRun(trace, moves, publishes, |moves|);
    }
  }

  // ---------------------------------------------------------------- undisturbed runs

  predicate BothAlive(s: State) {
    ChildAlive(s) && ParentAlive(s)
  }

  /** No action of a program ends it while the other lives. */
  lemma ChildActsAlive(s: State, choice: bool)
    requires Inv(s) && BothAlive(s) && Enabled(s, ChildStep(choice))
    ensures BothAlive(Apply(s, ChildStep(choice)))
  {
  }

  lemma ParentActsAlive(s: State)
    requires Inv(s) && BothAlive(s) && Enabled(s, ParentStep)
    ensures BothAlive(Apply(s, ParentStep))
  {
  }

  ghost predicate Undisturbed(moves: seq<Move>) {
    ChildFails !in moves && ParentFails !in moves
  }

  lemma StepStaysAlive(trace: seq<State>, moves: seq<Move>, publishes: nat, i: nat)
    requires IsRun(trace, moves, publishes) && i < |moves| && Undisturbed(moves) && BothAlive(trace[i])
    ensures BothAlive(trace[i + 1])
  {
    RunsKeepInv(trace, moves, publishes, i);
    assert moves[i] in moves && Follows(trace, moves, i);
    match moves[i]
    case ChildStep(choice) => ChildActsAlive(trace[i], choice);
    case ParentStep => ParentActsAlive(trace[i]);
  }

  /** As long as no process ends by itself, both stay alive, ... */
  lemma {:induction false} UndisturbedRunsStayAlive(trace: seq<State>, moves: seq<Move>, publishes: nat, i: nat)
    requires IsRun(trace, moves, publishes) && i < |trace| && Undisturbed(moves)
    ensures BothAlive(trace[i])
  {
    if i > 0 {
      UndisturbedRunsStayAlive(trace, moves, publishes, i - 1);
      StepStaysAlive(trace, moves, publishes, i - 1);
    }
  }

  /** ... and where such a run comes to rest the command runs under a serving
      parent, with every listener bound and registered and needed maps written. */
  lemma UndisturbedRunsSucceed(trace: seq<State>, moves: seq<Move>, publishes: nat)
    requires IsRun(trace, moves, publishes) && Undisturbed(moves) && Quiet(trace[|moves|])
    ensures var last := trace[|moves|];
      && last.child.CommandRunning? && last.parent.Serving?
      && last.bound == publishes && last.registered == publishes
      && (last.needsMaps ==> last.mapsWritten && last.ackRead)
  {
    UndisturbedRunsStayAlive(trace, moves, publishes, |moves|);
    RunsKeepInv(trace, moves, publishes, |moves|);
    NeverStuck(trace[|moves|]);
  }

  /** Every undisturbed run can be continued to that point. */
  lemma {:induction false} SetUpCanBeFinished(trace: seq<State>, moves: seq<Move>, publishes: nat)
    returns (longer: seq<State>, more: seq<Move>)
    requires IsRun(trace, moves, publishes) && Undisturbed(moves)
    ensures IsRun(longer, more, publishes) && Undisturbed(more) && moves <= more
    ensures longer[|more|].child.CommandRunning? && longer[|more|].parent.Serving?
    ensures !trace[|moves|].child.Unshare? ==> longer[|more|].needsMaps == trace[|moves|].needsMaps
    decreases 18 + 2 * publishes - |moves|
  {
    FuelBoundsRuns(trace, moves, publishes, |moves|);
    RunsKeepInv(trace, moves, publishes, |moves|);
    if Quiet(trace[|moves|]) {
      UndisturbedRunsSucceed(trace, moves, publishes);
      longer, more := trace, moves;
    } else {
      var m := if Enabled(trace[|moves|], ParentStep) then ParentStep else ChildStep(false);
      longer, more := OneMore(trace, moves, publishes, m);
      if !trace[|moves|].child.Unshare? {
        ChoiceStays(trace[|moves|], m);
      }
      longer, more := SetUpCanBeFinished(longer, more, publishes);
    }
  }

  lemma ChildChoiceStays(s: State, choice: bool)
    requires Inv(s) && Enabled(s, ChildStep(choice)) && !s.child.Unshare?
    ensures var t := Apply(s, ChildStep(choice)); !t.child.Unshare? && t.needsMaps == s.needsMaps
  {
  }

  lemma ParentChoiceStays(s: State)
    requires Inv(s) && Enabled(s, ParentStep)
    ensures var t := Apply(s, ParentStep); t.child == s.child && t.needsMaps == s.needsMaps
  {
  }

  lemma ChoiceStays(s: State, m: Move)
    requires Inv(s) && Enabled(s, m) && !s.child.Unshare?
    ensures !Apply(s, m).child.Unshare? && Apply(s, m).needsMaps == s.needsMaps
  {
    match m
    case ChildStep(choice) => ChildChoiceStays(s, choice);
    case ParentStep => ParentChoiceStays(s);
    case _ =>
  }

  // ---------------------------------------------------------------- no stage is skipped

  /** The stage that follows in the child's program; only the wait for the
      acknowledgement depends on whether id maps are needed. */
  function AfterStage(c: ChildPc, needsMaps: bool): ChildPc {
    match c
    case Unshare => SendSignal
    case SendSignal => if needsMaps then AwaitAck else BringUpLoopback
    case AwaitAck => BringUpLoopback
    case BringUpLoopback => CreateTun
    case CreateTun => SetUpMounts
    case SetUpMounts => SendFd
    case SendFd => AwaitReady
    case _ => CommandRunning
  }

  /** The same for the parent. */
  function AfterParentStage(p: ParentPc, needsMaps: bool): ParentPc {
    match p
    case AwaitSignal => if needsMaps then WriteMaps else AwaitFd
    case WriteMaps => SendAck
    case SendAck => AwaitFd
    case AwaitFd => BindListeners
    case BindListeners => BuildRuntime
    case BuildRuntime => RegisterListeners
    case RegisterListeners => SendReady
    case _ => Serving
  }

  lemma ChildGoesOn(s: State, choice: bool)
    requires Inv(s) && Enabled(s, ChildStep(choice))
    ensures var t := Apply(s, ChildStep(choice));
      t.child.ChildDead? || t.child == AfterStage(s.child, t.needsMaps)
  {
  }

  lemma ParentGoesOn(s: State)
    requires Inv(s) && Enabled(s, ParentStep)
    ensures var t := Apply(s, ParentStep);
      || t.parent.ParentDead? || t.parent == AfterParentStage(s.parent, s.needsMaps)
      || (t.parent == s.parent && (s.parent.BindListeners? || s.parent.RegisterListeners?))
  {
  }

  /** For every number of published ports, with and without id maps, there is a
      run that starts the command. */
  lemma SetUpCanSucceed(publishes: nat, needsMaps: bool) returns (trace: seq<State>, moves: seq<Move>)
    ensures IsRun(trace, moves, publishes) && Undisturbed(moves)
    ensures var last := trace[|moves|];
      last.child.CommandRunning? && last.parent.Serving? && last.needsMaps == needsMaps
  {
    trace, moves := OneMore([Initial(publishes)], [], publishes, ChildStep(needsMaps));
    trace, moves := SetUpCanBeFinished(trace, moves, publishes);
  }

  lemma ChildStageAt(trace: seq<State>, moves: seq<Move>, publishes: nat, i: nat)
    requires IsRun(trace, moves, publishes) && i < |moves| && ChildAlive(trace[i + 1])
    ensures var s, t := trace[i], trace[i + 1];
      && ChildAlive(s) && (t.child == s.child || t.child == AfterStage(s.child, t.needsMaps))
      && (s.child.Unshare? || s.needsMaps == t.needsMaps)
  {
    RunsKeepInv(trace, moves, publishes, i);
    assert Follows(trace, moves, i);
    match moves[i]
    case ChildStep(choice) =>
      ChildGoesOn(trace[i], choice);
      if !trace[i].child.Unshare? {
        ChildChoiceStays(trace[i], choice);
      }
    case ParentStep => ParentChoiceStays(trace[i]);
    case _ =>
  }

  lemma ParentStageAt(trace: seq<State>, moves: seq<Move>, publishes: nat, i: nat)
    requires IsRun(trace, moves, publishes) && i < |moves| && ParentAlive(trace[i + 1])
    ensures ParentAlive(trace[i])
    ensures trace[i + 1].parent == trace[i].parent
         || trace[i + 1].parent == AfterParentStage(trace[i].parent, trace[i].needsMaps)
  {
    RunsKeepInv(trace, moves, publishes, i);
    assert Follows(trace, moves, i);
    match moves[i]
    case ChildStep(choice) => ActionsAreLocal(trace[i], choice);
    case ParentStep => ParentGoesOn(trace[i]);
    case _ =>
  }

  /** A living child has been through every stage before the one it is at. */
  lemma {:induction false} StagePassed(trace: seq<State>, moves: seq<Move>, publishes: nat, i: nat, c: ChildPc)
    returns (k: nat)
    requires IsRun(trace, moves, publishes) && i < |trace| && ChildAlive(trace[i])
    requires ChildRank(trace[i].child) <= ChildRank(c) && (c.AwaitAck? ==> trace[i].needsMaps)
    ensures k <= i && trace[k].child == c
  {
    if trace[i].child == c {
      k := i;
    } else {
      assert i > 0;
      ChildStageAt(trace, moves, publishes, i - 1);
      k := StagePassed(trace, moves, publishes, i - 1, c);
    }
  }

  /** And so has a living parent, apart from writing and acknowledging maps. */
  lemma {:induction false} ParentStagePassed(trace: seq<State>, moves: seq<Move>, publishes: nat, i: nat, p: ParentPc)
    returns (k: nat)
    requires IsRun(trace, moves, publishes) && i < |trace| && ParentAlive(trace[i])
    requires ParentRank(trace[i].parent) <= ParentRank(p) && !p.WriteMaps? && !p.SendAck?
    ensures k <= i && trace[k].parent == p
  {
    if trace[i].parent == p {
      k := i;
    } else {
      assert i > 0;
      ParentStageAt(trace, moves, publishes, i - 1);
      k := ParentStagePassed(trace, moves, publishes, i - 1, p);
    }
  }

  /** Before the command runs, the child has unshared, brought up loopback, created
      the device, set up its mounts and handed over the device, in this order. */
  lemma CommandRunsPrepared(trace: seq<State>, moves: seq<Move>, publishes: nat, i: nat)
    returns (unshare: nat, loopback: nat, tun: nat, mounts: nat, fd: nat, wait: nat)
    requires IsRun(trace, moves, publishes) && i < |trace| && trace[i].child.CommandRunning?
    ensures unshare < loopback < tun < mounts < fd < wait < i
    ensures trace[unshare].child.Unshare? && trace[loopback].child.BringUpLoopback? && trace[tun].child.CreateTun?
    ensures trace[mounts].child.SetUpMounts? && trace[fd].child.SendFd? && trace[wait].child.AwaitReady?
  {
    wait := StagePassed(trace, moves, publishes, i, AwaitReady);
    fd := StagePassed(trace, moves, publishes, wait, SendFd);
    mounts := StagePassed(trace, moves, publishes, fd, SetUpMounts);
    tun := StagePassed(trace, moves, publishes, mounts, CreateTun);
    loopback := StagePassed(trace, moves, publishes, tun, BringUpLoopback);
    unshare := StagePassed(trace, moves, publishes, loopback, Unshare);
  }

  /** Before the parent serves, it has bound its listeners, built the runtime and
      registered the listeners, in this order. */
  lemma ParentServesPrepared(trace: seq<State>, moves: seq<Move>, publishes: nat, i: nat)
    returns (bind: nat, build: nat, register: nat)
    requires IsRun(trace, moves, publishes) && i < |trace| && trace[i].parent.Serving?
    ensures bind < build < register < i
    ensures trace[bind].parent.BindListeners? && trace[build].parent.BuildRuntime?
    ensures trace[register].parent.RegisterListeners?
  {
    register := ParentStagePassed(trace, moves, publishes, i, RegisterListeners);
    build := ParentStagePassed(trace, moves, publishes, register, BuildRuntime);
    bind := ParentStagePassed(trace, moves, publishes, build, BindListeners);
  }

  lemma DeadParentSends(s: State, m: Move)
    requires Inv(s) && Enabled(s, m) && s.parent.ParentDead?
    ensures Apply(s, m).parent.ParentDead? && Apply(s, m).readySent == s.readySent
  {
  }

  lemma StepAfterParent(trace: seq<State>, moves: seq<Move>, publishes: nat, i: nat)
    requires IsRun(trace, moves, publishes) && i < |moves| && trace[i].parent.ParentDead?
    ensures trace[i + 1].parent.ParentDead? && trace[i + 1].readySent == trace[i].readySent
  {
    RunsKeepInv(trace, moves, publishes, i);
    assert Follows(trace, moves, i);
    DeadParentSends(trace[i], moves[i]);
  }

  lemma {:induction false} DeadParentStays(trace: seq<State>, moves: seq<Move>, publishes: nat, i: nat, k: nat)
    requires IsRun(trace, moves, publishes) && i <= k < |trace| && trace[i].parent.ParentDead?
    ensures trace[k].parent.ParentDead? && trace[k].readySent == trace[i].readySent
  {
    if i < k {
      DeadParentStays(trace, moves, publishes, i, k - 1);
      StepAfterParent(trace, moves, publishes, k - 1);
    }
  }

  lemma CommandNeedsReady(s: State)
    requires Inv(s) && !s.readySent
    ensures !s.child.CommandRunning?
  {
  }

  /** A parent that dies before it has sent the ready byte: the command never runs. */
  lemma NoCommandWithoutReady(trace: seq<State>, moves: seq<Move>, publishes: nat, i: nat, k: nat)
    requires IsRun(trace, moves, publishes) && i <= k < |trace|
    requires trace[i].parent.ParentDead? && !trace[i].readySent
    ensures trace[k].parent.ParentDead? && !trace[k].readySent && !trace[k].child.CommandRunning?
  {
    DeadParentStays(trace, moves, publishes, i, k);
    RunsKeepInv(trace, moves, publishes, k);
    CommandNeedsReady(trace[k]);
  }

  lemma OneMore(trace: seq<State>, moves: seq<Move>, publishes: nat, m: Move)
    returns (longer: seq<State>, more: seq<Move>)
    requires IsRun(trace, moves, publishes) && Enabled(trace[|moves|], m)
    ensures IsRun(longer, more, publishes) && |more| == |moves| + 1
    ensures more == moves + [m] && longer[|more|] == Apply(trace[|moves|], m)
  {
    RunsKeepInv(trace, moves, publishes, |moves|);
    longer, more := trace + [Apply(trace[|moves|], m)], moves + [m];
    forall i | 0 <= i < |more|
      ensures Follows(longer, more, i)
    {
      if i < |moves| {
        assert Follows(trace, moves, i);
      }
    }
  }

  /** Where the two sides are once the child has done its part, when no id maps are
      needed and nothing is published, ... */
  const PREPARED: State :=
    State(AwaitReady, AwaitSignal, [SignalByte(0), FdByte], [], false, false, 0, 0, 0,
          true, false, true, false, false, false, false, false)

  /** ... and once the parent has released it. */
  const RELEASED: State :=
    State(AwaitReady, Serving, [], [Down(1, Ready)], false, false, 0, 0, 0,
          true, false, true, false, true, false, true, true)

  lemma PreparedIsReachable() returns (trace: seq<State>, moves: seq<Move>)
    ensures IsRun(trace, moves, 0) && trace[|moves|] == PREPARED && ChildFails !in moves
  {
    trace, moves := [Initial(0)], [];
    trace, moves := OneMore(trace, moves, 0, ChildStep(false));
    trace, moves := OneMore(trace, moves, 0, ChildStep(false));
    assert trace[|moves|].child.BringUpLoopback? && trace[|moves|].up == [SignalByte(0)];
    trace, moves := OneMore(trace, moves, 0, ChildStep(false));
    trace, moves := OneMore(trace, moves, 0, ChildStep(false));
    trace, moves := OneMore(trace, moves, 0, ChildStep(false));
    trace, moves := OneMore(trace, moves, 0, ChildStep(false));
  }

  lemma ReleasedIsReachable() returns (trace: seq<State>, moves: seq<Move>)
    ensures IsRun(trace, moves, 0) && trace[|moves|] == RELEASED && ChildFails !in moves
  {
    trace, moves := PreparedIsReachable();
    trace, moves := OneMore(trace, moves, 0, ParentStep);
    trace, moves := OneMore(trace, moves, 0, ParentStep);
    assert trace[|moves|].parent.BindListeners? && trace[|moves|].up == [];
    trace, moves := OneMore(trace, moves, 0, ParentStep);
    trace, moves := OneMore(trace, moves, 0, ParentStep);
    trace, moves := OneMore(trace, moves, 0, ParentStep);
    trace, moves := OneMore(trace, moves, 0, ParentStep);
  }

  /** A dead peer does not always stop the other side: if the parent dies behind the
      ready byte, the child still reads it, starts the command, and nothing is left
      that would stop it. */
  lemma OrphanedCommand() returns (trace: seq<State>, moves: seq<Move>)
    ensures IsRun(trace, moves, 0) && ChildFails !in moves
    ensures var last := trace[|moves|];
      Quiet(last) && last.parent.ParentDead? && last.child.CommandRunning?
  {
    trace, moves := ReleasedIsReachable();
    trace, moves := OneMore(trace, moves, 0, ParentFails);
    trace, moves := OneMore(trace, moves, 0, ChildStep(false));
  }

  // ---------------------------------------------------------------- reading a control byte

  datatype ReadOutcome = GotByte(value: byte) | Closed | Interrupted | OtherError

  /** Retry on interruption; a closed channel is an error, never a byte. */
  method ReadControlByte(outcomes: seq<ReadOutcome>) returns (r: Option<byte>, used: nat)
    requires exists i :: 0 <= i < |outcomes| && !outcomes[i].Interrupted?
    ensures 1 <= used <= |outcomes|
    ensures forall i | 0 <= i < used - 1 :: outcomes[i].Interrupted?
    ensures !outcomes[used - 1].Interrupted?
    ensures r == match outcomes[used - 1] case GotByte(value) => Some(value) case _ => None
  {
    used := 0;
    while true
      invariant 0 <= used < |outcomes|
      invariant forall i | 0 <= i < used :: outcomes[i].Interrupted?
      invariant exists i :: used <= i < |outcomes| && !outcomes[i].Interrupted?
      decreases |outcomes| - used
    {
      var outcome := outcomes[used];
      used := used + 1;
      match outcome {
        case GotByte(value) => return Some(value), used;
        case Closed => return None, used;
        case Interrupted =>
        case OtherError => return None, used;
      }
    }
  }
}
