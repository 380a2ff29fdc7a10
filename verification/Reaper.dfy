/**
 * The reaper: a process forest under a child subreaper, and the loop that
 * collects it and forwards termination signals.
 */
module Reaper {
  import opened Common
  import opened ProcessTree

  datatype Status = Exited(code: int) | Signaled(signal: int)

  function CodeOf(s: Status): int {
    match s
    case Exited(code) => code
    case Signaled(signal) => 128 + signal
  }

  datatype Process = Process(parent: Pid, zombie: Option<Status>, subreaper: bool)

  /** The managed processes as the kernel sees them. `born` orders every process
      that ever existed and `exits` records how each one ended; process ids are not
      reused. */
  datatype Kernel = Kernel(procs: map<Pid, Process>, born: map<Pid, nat>, births: nat, exits: map<Pid, Status>)

  predicate Running(k: Kernel, p: Pid) {
    p in k.procs && k.procs[p].zombie.None?
  }

  /** Every managed process has a living parent that is older, or the reaper. */
  ghost predicate Sound(k: Kernel, self: Pid) {
    && self !in k.born && k.procs.Keys <= k.born.Keys
    && (forall p | p in k.born :: k.born[p] < k.births)
    && (forall p | p in k.procs :: k.procs[p].parent == self || OlderAlive(k, k.procs[p].parent, p))
    && (forall p | p in k.procs && k.procs[p].zombie.Some? :: p in k.exits && k.exits[p] == k.procs[p].zombie.value)
  }

  predicate OlderAlive(k: Kernel, q: Pid, p: Pid) {
    Running(k, q) && q in k.born && p in k.born && k.born[q] < k.born[p]
  }

  /** Who adopts the children of p: the nearest ancestor that is a subreaper. */
  function Adopter(k: Kernel, self: Pid, p: Pid): (a: Pid)
    requires Sound(k, self) && p in k.procs
    ensures a == self || OlderAlive(k, a, p)
    decreases k.born[p]
  {
    var q := k.procs[p].parent;
    if q == self || k.procs[q].subreaper then q else Adopter(k, self, q)
  }

  // ---------------------------------------------------------------- steps of the managed processes

  datatype Step =
    | Fork(parent: Pid, child: Pid)
    | Exit(pid: Pid, status: Status)
    | BecomeSubreaper(pid: Pid)
    | ParentReaps(pid: Pid)

  predicate Enabled(k: Kernel, self: Pid, s: Step) {
    match s
    case Fork(parent, child) => Running(k, parent) && child !in k.born && child != self
    case Exit(pid, _) => Running(k, pid)
    case BecomeSubreaper(pid) => Running(k, pid)
    case ParentReaps(pid) => pid in k.procs && k.procs[pid].zombie.Some? && k.procs[pid].parent != self
  }

  function Take(k: Kernel, self: Pid, s: Step): Kernel
    requires Sound(k, self) && Enabled(k, self, s)
  {
    match s
    case Fork(parent, child) =>
      k.(procs := k.procs[child := Process(parent, None, false)],
         born := k.born[child := k.births], births := k.births + 1)
    case Exit(pid, status) =>
      var heir := Adopter(k, self, pid);
      k.(procs := map p | p in k.procs ::
           if p == pid then k.procs[p].(zombie := Some(status))
           else if k.procs[p].parent == pid then k.procs[p].(parent := heir)
           else k.procs[p],
         exits := k.exits[pid := status])
    case BecomeSubreaper(pid) => k.(procs := k.procs[pid := k.procs[pid].(subreaper := true)])
    case ParentReaps(pid) => k.(procs := k.procs - {pid})
  }

  /** The reaper collects one of its own zombies. */
  function Collect(k: Kernel, pid: Pid): Kernel {
    k.(procs := k.procs - {pid})
  }

  predicate Collectable(k: Kernel, self: Pid, pid: Pid) {
    pid in k.procs && k.procs[pid].zombie.Some? && k.procs[pid].parent == self
  }

  /** What the loop knows about the command: while it exists it is a child of the
      reaper, and once it is gone its status has been recorded. */
  ghost predicate CommandKnown(k: Kernel, self: Pid, command: Pid, code: Option<int>) {
    && command in k.born
    && (command in k.procs ==> k.procs[command].parent == self)
    && (command !in k.procs ==> command in k.exits && code == Some(CodeOf(k.exits[command])))
  }

  lemma ExitKeepsSound(k: Kernel, self: Pid, pid: Pid, status: Status)
    requires Sound(k, self) && Running(k, pid)
    ensures Sound(Take(k, self, Exit(pid, status)), self)
  {
    var m, heir := Take(k, self, Exit(pid, status)), Adopter(k, self, pid);
    forall p | p in m.procs
      ensures m.procs[p].parent == self || OlderAlive(m, m.procs[p].parent, p)
    {
      var q := k.procs[p].parent;
      if p != pid && q == pid {
        assert heir != self ==> OlderAlive(k, heir, pid) && heir != pid;
      } else if q != self {
        assert OlderAlive(k, q, p) && q != pid;
      }
    }
  }

  lemma TakeKeepsSound(k: Kernel, self: Pid, s: Step)
    requires Sound(k, self) && Enabled(k, self, s)
    ensures Sound(Take(k, self, s), self)
  {
    if s.Exit? {
      ExitKeepsSound(k, self, s.pid, s.status);
    }
  }

  lemma TakeKeepsCommand(k: Kernel, self: Pid, command: Pid, code: Option<int>, s: Step)
    requires Sound(k, self) && Enabled(k, self, s) && CommandKnown(k, self, command, code)
    ensures CommandKnown(Take(k, self, s), self, command, code)
  {
  }

  lemma CollectKeeps(k: Kernel, self: Pid, command: Pid, code: Option<int>, pid: Pid)
    requires Sound(k, self) && CommandKnown(k, self, command, code) && Collectable(k, self, pid)
    ensures var code' := if pid == command then Some(CodeOf(k.procs[pid].zombie.value)) else code;
      Sound(Collect(k, pid), self) && CommandKnown(Collect(k, pid), self, command, code')
  {
  }

  /** Every managed process hangs, through living parents, below a child of the
      reaper. */
  lemma {:induction false} ReachableFromReaper(k: Kernel, self: Pid, p: Pid) returns (top: Pid)
    requires Sound(k, self) && p in k.procs
    ensures top in k.procs && k.procs[top].parent == self
    decreases k.born[p]
  {
    if k.procs[p].parent == self {
      top := p;
    } else {
      top := ReachableFromReaper(k, self, k.procs[p].parent);
    }
  }

  /** No child left means no managed process left, and the command's own status
      is the one recorded. */
  lemma NoChildrenMeansDone(k: Kernel, self: Pid, command: Pid, code: Option<int>)
    requires Sound(k, self) && CommandKnown(k, self, command, code)
    requires forall p | p in k.procs :: k.procs[p].parent != self
    ensures k.procs == map[]
    ensures command in k.exits && code == Some(CodeOf(k.exits[command]))
  {
    if p :| p in k.procs {
      var top := ReachableFromReaper(k, self, p);
      assert false;
    }
  }

  // ---------------------------------------------------------------- runs

  /** One event of a run: a step of the managed processes, or the reaper collecting. */
  datatype Move = Theirs(step: Step) | Ours(pid: Pid)

  datatype View = View(kernel: Kernel, code: Option<int>)

  ghost predicate Moves(v: View, self: Pid, command: Pid, m: Move, w: View) {
    match m
    case Theirs(step) =>
      Sound(v.kernel, self) && Enabled(v.kernel, self, step) && w == View(Take(v.kernel, self, step), v.code)
    case Ours(pid) =>
      && Collectable(v.kernel, self, pid)
      && w == View(Collect(v.kernel, pid),
                   if pid == command then Some(CodeOf(v.kernel.procs[pid].zombie.value)) else v.code)
  }

  ghost predicate IsRun(trace: seq<View>, moves: seq<Move>, self: Pid, command: Pid) {
    && |trace| == |moves| + 1 && command != self
    && trace[0] == View(Kernel(map[command := Process(self, None, false)], map[command := 0], 1, map[]), None)
    && forall i | 0 <= i < |moves| :: Moves(trace[i], self, command, moves[i], trace[i + 1])
  }

  lemma {:induction false} RunsStaySound(trace: seq<View>, moves: seq<Move>, self: Pid, command: Pid, i: nat)
    requires IsRun(trace, moves, self, command) && i < |trace|
    ensures Sound(trace[i].kernel, self) && CommandKnown(trace[i].kernel, self, command, trace[i].code)
  {
    if i > 0 {
      RunsStaySound(trace, moves, self, command, i - 1);
      var v, m := trace[i - 1], moves[i - 1];
      assert Moves(trace[i - 1], self, command, moves[i - 1], trace[i - 1 + 1]);
      match m
      case Theirs(step) =>
        TakeKeepsSound(v.kernel, self, step);
        TakeKeepsCommand(v.kernel, self, command, v.code, step);
      case Ours(pid) =>
        CollectKeeps(v.kernel, self, command, v.code, pid);
    }
  }

  /** In every run of forks, exits, adoptions and collections: when the reaper has
      no child left, nothing managed remains and the code it returns is the exit
      code of the command, or 128 plus the signal that killed it. */
  lemma EchildMeansDone(trace: seq<View>, moves: seq<Move>, self: Pid, command: Pid, i: nat)
    requires IsRun(trace, moves, self, command) && i < |trace|
    requires forall p | p in trace[i].kernel.procs :: trace[i].kernel.procs[p].parent != self
    ensures trace[i].kernel.procs == map[]
    ensures trace[i].code.Some? && CommandCode(trace[i].kernel, command, trace[i].code.value)
  {
    RunsStaySound(trace, moves, self, command, i);
    NoChildrenMeansDone(trace[i].kernel, self, command, trace[i].code);
  }

  // ---------------------------------------------------------------- the loop

  datatype Signal = SIGTERM | SIGINT | SIGHUP | SIGKILL | SIGCHLD

  const GRACE: nat := 2000

  /** What the loop does that others can see, with the time in milliseconds. */
  datatype Event = Received(signal: Signal, at: nat) | Broadcast(signal: Signal, at: nat)

  /** When the first termination signal came. */
  function FirstAt(events: seq<Event>): Option<nat> {
    if events == [] then None else
      var front, e := FirstAt(events[..|events| - 1]), events[|events| - 1];
      if front.None? && e.Received? then Some(e.at) else front
  }

  /** The most recent termination signal. */
  function LastSignal(events: seq<Event>): Option<Signal> {
    if events == [] then None else
      var e := events[|events| - 1];
      if e.Received? then Some(e.signal) else LastSignal(events[..|events| - 1])
  }

  ghost predicate DisciplinedAt(events: seq<Event>, i: nat)
    requires i < |events|
  {
    events[i].Broadcast? ==>
      && FirstAt(events[..i]).Some? && LastSignal(events[..i]).Some?
      && events[i].signal ==
         if events[i].at >= FirstAt(events[..i]).value + GRACE then SIGKILL else LastSignal(events[..i]).value
  }

  /** Every broadcast sends the most recent termination signal until two seconds
      after the first one, and SIGKILL from then on. */
  ghost predicate Disciplined(events: seq<Event>) {
    forall i | 0 <= i < |events| :: DisciplinedAt(events, i)
  }

  ghost predicate InOrder(events: seq<Event>) {
    forall i, j | 0 <= i < j < |events| :: events[i].at <= events[j].at
  }

  /** The deadline, once there is one. */
  function Since(events: seq<Event>): nat {
    (if FirstAt(events).Some? then FirstAt(events).value else 0) + GRACE
  }

  lemma {:induction false} FirstAtStays(events: seq<Event>, i: nat, j: nat)
    requires i <= j <= |events| && FirstAt(events[..i]).Some?
    ensures FirstAt(events[..j]) == FirstAt(events[..i])
  {
    if i < j {
      FirstAtStays(events, i, j - 1);
      assert events[..j][..j - 1] == events[..j - 1];
    }
  }

  /** Later signals do not extend the deadline, and after the first SIGKILL at the
      deadline nothing else is ever sent. */
  lemma KillIsFinal(events: seq<Event>, i: nat, j: nat)
    requires Disciplined(events) && InOrder(events) && i < j < |events|
    requires events[i].Broadcast? && events[j].Broadcast?
    requires events[i].at >= Since(events[..i])
    ensures events[j].signal == SIGKILL
  {
    assert DisciplinedAt(events, i) && DisciplinedAt(events, j);
    FirstAtStays(events, i, j);
  }

  lemma AppendEvent(events: seq<Event>, e: Event)
    requires Disciplined(events) && InOrder(events)
    requires forall i | 0 <= i < |events| :: events[i].at <= e.at
    requires e.Broadcast? ==>
      && FirstAt(events).Some? && LastSignal(events).Some?
      && e.signal == if e.at >= FirstAt(events).value + GRACE then SIGKILL else LastSignal(events).value
    ensures Disciplined(events + [e]) && InOrder(events + [e])
    ensures FirstAt(events + [e]) == if FirstAt(events).None? && e.Received? then Some(e.at) else FirstAt(events)
    ensures LastSignal(events + [e]) == if e.Received? then Some(e.signal) else LastSignal(events)
  {
    var all := events + [e];
    assert all[..|events|] == events;
    forall i | 0 <= i < |all|
      ensures DisciplinedAt(all, i)
    {
      if i < |events| {
        assert DisciplinedAt(events, i) && all[..i] == events[..i];
      }
    }
  }

  // ---------------------------------------------------------------- what the environment decides

  /** One look at the children: what the managed processes do before it, and
      whether it is interrupted, fails, or is answered; `prefer` is the zombie the
      kernel picks if that one can be collected. */
  datatype Look = Interrupt | Break | Answer(prefer: Pid)
  datatype Glance = Glance(steps: seq<Step>, look: Look)

  /** How the wait for a signal ends: by time or interruption, with an error, or
      with a signal. */
  datatype Wake = Elapsed | WakeError | Got(signal: Signal)

  /** One round: the looks at the children, the clock when it may broadcast, whether
      the broadcast is refused, how its wait ends, and the clock then. */
  datatype Round = Round(glances: seq<Glance>, clock: nat, refused: bool, wake: Wake, noted: nat)

  /** How many looks were answered. */
  function Answers(glances: seq<Glance>): nat {
    if glances == [] then 0 else
      Answers(glances[..|glances| - 1]) + if glances[|glances| - 1].look.Answer? then 1 else 0
  }

  // ---------------------------------------------------------------- what a round is to do

  /** What one round adds to a history: a broadcast exactly if a termination signal
      has been received, of the latest one or, two seconds after the first, of
      SIGKILL; and then the signal that ended the wait, unless it was SIGCHLD. */
  function BroadcastOf(history: seq<Event>, clock: nat): seq<Event> {
    match (FirstAt(history), LastSignal(history))
    case (Some(first), Some(latest)) => [Broadcast(if clock >= first + 2000 then SIGKILL else latest, clock)]
    case _ => []
  }

  function NoteOf(round: Round): seq<Event> {
    if round.wake.Got? && round.wake.signal != SIGCHLD then [Received(round.wake.signal, round.noted)] else []
  }

  function AddedBy(history: seq<Event>, round: Round): seq<Event> {
    BroadcastOf(history, round.clock) + NoteOf(round)
  }

  /** The history after some complete rounds. */
  function HistoryOf(rounds: seq<Round>): seq<Event> {
    if rounds == [] then [] else
      var front := HistoryOf(rounds[..|rounds| - 1]);
      front + AddedBy(front, rounds[|rounds| - 1])
  }

  lemma HistoryOneMore(rounds: seq<Round>, n: nat)
    requires n < |rounds|
    ensures HistoryOf(rounds[..n + 1]) == HistoryOf(rounds[..n]) + AddedBy(HistoryOf(rounds[..n]), rounds[n])
  {
    assert rounds[..n + 1][..n] == rounds[..n];
  }

  /** Clock readings do not run backwards. */
  ghost predicate Clocked(rounds: seq<Round>) {
    && (forall i | 0 <= i < |rounds| :: rounds[i].clock <= rounds[i].noted)
    && (forall i, j | 0 <= i < j < |rounds| :: rounds[i].noted <= rounds[j].clock)
  }

  ghost predicate Before(events: seq<Event>, now: nat) {
    forall e | e in events :: e.at <= now
  }

  lemma BroadcastKeeps(history: seq<Event>, clock: nat)
    requires Disciplined(history) && InOrder(history) && Before(history, clock)
    ensures var h := history + BroadcastOf(history, clock);
      && Disciplined(h) && InOrder(h) && Before(h, clock)
      && FirstAt(h) == FirstAt(history) && LastSignal(h) == LastSignal(history)
  {
    var added := BroadcastOf(history, clock);
    if added == [] {
      assert history + added == history;
    } else {
      AppendEvent(history, added[0]);
      assert added == [added[0]];
    }
  }

  lemma NoteKeeps(history: seq<Event>, round: Round)
    requires Disciplined(history) && InOrder(history) && Before(history, round.noted)
    ensures var h := history + NoteOf(round); Disciplined(h) && InOrder(h) && Before(h, round.noted)
  {
    var added := NoteOf(round);
    if added == [] {
      assert history + added == history;
    } else {
      AppendEvent(history, added[0]);
    }
  }

  /** In every history the broadcasts are disciplined and in order. */
  lemma {:induction false} HistoriesAreDisciplined(rounds: seq<Round>)
    requires Clocked(rounds)
    ensures Disciplined(HistoryOf(rounds)) && InOrder(HistoryOf(rounds))
    ensures rounds != [] ==> Before(HistoryOf(rounds), rounds[|rounds| - 1].noted)
  {
    if rounds != [] {
      var front, last := rounds[..|rounds| - 1], rounds[|rounds| - 1];
      var before := HistoryOf(front);
      HistoriesAreDisciplined(front);
      EarlierIsBefore(rounds);
      BroadcastKeeps(before, last.clock);
      NoteKeeps(before + BroadcastOf(before, last.clock), last);
      Assoc(before, BroadcastOf(before, last.clock), NoteOf(last));
    }
  }

  lemma EarlierIsBefore(rounds: seq<Round>)
    requires Clocked(rounds) && rounds != []
    requires var front := rounds[..|rounds| - 1]; front != [] ==> Before(HistoryOf(front), front[|front| - 1].noted)
    ensures Before(HistoryOf(rounds[..|rounds| - 1]), rounds[|rounds| - 1].clock)
  {
  }

  /** No signal is ignored: whatever is received is followed at once by a broadcast,
      if the loop goes on to another broadcast or signal at all. */
  lemma {:induction false} SignalsAreForwarded(rounds: seq<Round>, i: nat)
    requires i + 1 < |HistoryOf(rounds)| && HistoryOf(rounds)[i].Received?
    ensures HistoryOf(rounds)[i + 1].Broadcast?
  {
    var front := HistoryOf(rounds[..|rounds| - 1]);
    if i + 1 < |front| {
      SignalsAreForwarded(rounds[..|rounds| - 1], i);
    } else if i < |front| {
      ReceivedIsRemembered(front, i);
    }
  }

  lemma {:induction false} ReceivedIsRemembered(events: seq<Event>, i: nat)
    requires i < |events| && events[i].Received?
    ensures FirstAt(events).Some? && LastSignal(events).Some?
  {
    if i < |events| - 1 {
      ReceivedIsRemembered(events[..|events| - 1], i);
    }
  }

  /** Once a termination signal has been received, every complete round broadcasts
      exactly once: as many broadcasts follow as there are rounds. */
  lemma {:induction false} EveryRoundBroadcasts(rounds: seq<Round>, n: nat)
    requires n <= |rounds| && LastSignal(HistoryOf(rounds[..n])).Some?
    ensures Broadcasts(HistoryOf(rounds)) == Broadcasts(HistoryOf(rounds[..n])) + (|rounds| - n)
    ensures FirstAt(HistoryOf(rounds)).Some? && LastSignal(HistoryOf(rounds)).Some?
    decreases |rounds|
  {
    if n == |rounds| {
      assert rounds[..n] == rounds;
      FirstWithLast(HistoryOf(rounds));
    } else {
      var front, last := rounds[..|rounds| - 1], rounds[|rounds| - 1];
      assert front[..n] == rounds[..n];
      EveryRoundBroadcasts(front, n);
      CountAdded(HistoryOf(front), last);
    }
  }

  lemma {:induction false} FirstWithLast(events: seq<Event>)
    ensures FirstAt(events).Some? <==> LastSignal(events).Some?
  {
    if events != [] {
      FirstWithLast(events[..|events| - 1]);
    }
  }

  function Broadcasts(events: seq<Event>): nat {
    if events == [] then 0 else
      Broadcasts(events[..|events| - 1]) + if events[|events| - 1].Broadcast? then 1 else 0
  }

  lemma CountOne(events: seq<Event>, e: Event)
    ensures Broadcasts(events + [e]) == Broadcasts(events) + if e.Broadcast? then 1 else 0
    ensures FirstAt(events + [e]) == if FirstAt(events).None? && e.Received? then Some(e.at) else FirstAt(events)
    ensures LastSignal(events + [e]) == if e.Received? then Some(e.signal) else LastSignal(events)
  {
    assert (events + [e])[..|events|] == events;
  }

  lemma CountAdded(history: seq<Event>, round: Round)
    requires FirstAt(history).Some? && LastSignal(history).Some?
    ensures var h := history + AddedBy(history, round);
      Broadcasts(h) == Broadcasts(history) + 1 && FirstAt(h).Some? && LastSignal(h).Some?
  {
    var b, n := BroadcastOf(history, round.clock), NoteOf(round);
    CountOne(history, b[0]);
    assert b == [b[0]];
    if n != [] {
      CountOne(history + b, n[0]);
      assert n == [n[0]];
    } else {
      assert history + b + n == history + b;
    }
    Assoc(history, b, n);
  }

  /** The termination signals that end waits, and those that a history notes. */
  function SignalsIn(rounds: seq<Round>): seq<Signal> {
    if rounds == [] then [] else
      var front, wake := SignalsIn(rounds[..|rounds| - 1]), rounds[|rounds| - 1].wake;
      if wake.Got? && wake.signal != SIGCHLD then front + [wake.signal] else front
  }

  function Noted(events: seq<Event>): seq<Signal> {
    if events == [] then [] else
      var front, e := Noted(events[..|events| - 1]), events[|events| - 1];
      if e.Received? then front + [e.signal] else front
  }

  lemma NotedOne(events: seq<Event>, e: Event)
    ensures Noted(events + [e]) == if e.Received? then Noted(events) + [e.signal] else Noted(events)
  {
    assert (events + [e])[..|events|] == events;
  }

  /** Every termination signal is noted, in order, and nothing else is. */
  lemma {:induction false} EverySignalIsNoted(rounds: seq<Round>)
    ensures Noted(HistoryOf(rounds)) == SignalsIn(rounds)
  {
    if rounds != [] {
      var front, last := rounds[..|rounds| - 1], rounds[|rounds| - 1];
      EverySignalIsNoted(front);
      var history := HistoryOf(front);
      var b, n := BroadcastOf(history, last.clock), NoteOf(last);
      NotedAfter(history, b);
      NotedAfter(history + b, n);
      Assoc(history, b, n);
    }
  }

  lemma NotedAfter(history: seq<Event>, added: seq<Event>)
    requires |added| <= 1
    ensures Noted(history + added)
         == if added != [] && added[0].Received? then Noted(history) + [added[0].signal] else Noted(history)
  {
    if added == [] {
      assert history + added == history;
    } else {
      NotedOne(history, added[0]);
      assert added == [added[0]];
    }
  }

  /** The round after one whose wait ended with a termination signal forwards that
      signal, or sends SIGKILL if the first signal was two seconds ago. */
  lemma ForwardedNext(rounds: seq<Round>, n: nat)
    requires n + 1 < |rounds| && rounds[n].wake.Got? && rounds[n].wake.signal != SIGCHLD
    ensures var history := HistoryOf(rounds[..n + 1]);
      && FirstAt(history).Some?
      && HistoryOf(rounds[..n + 2]) == history + [
           Broadcast(if rounds[n + 1].clock >= FirstAt(history).value + 2000 then SIGKILL else rounds[n].wake.signal,
                     rounds[n + 1].clock)] + NoteOf(rounds[n + 1])
  {
    var history := HistoryOf(rounds[..n + 1]);
    SignalIsRemembered(rounds, n);
    HistoryOneMore(rounds, n + 1);
    Assoc(history, BroadcastOf(history, rounds[n + 1].clock), NoteOf(rounds[n + 1]));
  }

  lemma SignalIsRemembered(rounds: seq<Round>, n: nat)
    requires n < |rounds| && rounds[n].wake.Got? && rounds[n].wake.signal != SIGCHLD
    ensures var history := HistoryOf(rounds[..n + 1]);
      FirstAt(history).Some? && LastSignal(history) == Some(rounds[n].wake.signal)
  {
    var before := HistoryOf(rounds[..n]);
    HistoryOneMore(rounds, n);
    var b, e := BroadcastOf(before, rounds[n].clock), Received(rounds[n].wake.signal, rounds[n].noted);
    Assoc(before, b, [e]);
    CountOne(before + b, e);
    FirstWithLast(HistoryOf(rounds[..n + 1]));
  }

  // ---------------------------------------------------------------- the loop in place

  /** Ended, collected, and never to come back. */
  ghost predicate Collected(k: Kernel, pids: seq<Pid>) {
    && (forall p | p in pids :: p in k.born && p !in k.procs && p in k.exits)
    && (forall i, j | 0 <= i < j < |pids| :: pids[i] != pids[j])
  }

  /** The managed processes take the steps that are possible. */
  method Evolve(before: Kernel, self: Pid, command: Pid, code: Option<int>, steps: seq<Step>, ghost gone: seq<Pid>)
    returns (k: Kernel)
    requires Sound(before, self) && CommandKnown(before, self, command, code) && Collected(before, gone)
    ensures Sound(k, self) && CommandKnown(k, self, command, code) && Collected(k, gone)
    ensures steps == [] ==> k == before
  {
    k := before;
    for i := 0 to |steps|
      invariant Sound(k, self) && CommandKnown(k, self, command, code) && Collected(k, gone)
      invariant steps == [] ==> k == before
    {
      if Enabled(k, self, steps[i]) {
        TakeKeepsSound(k, self, steps[i]);
        TakeKeepsCommand(k, self, command, code, steps[i]);
        k := Take(k, self, steps[i]);
      }
    }
  }

  datatype WaitAnswer = Reaped(pid: Pid, status: Status) | StillAlive | Interrupted | NoChild | WaitFailed

  /** `waitpid(-1, WNOHANG)`: a zombie child is reported whenever there is one, "still
      alive" only when no child is one, and "no child" only when there is none. */
  method WaitPid(k: Kernel, self: Pid, look: Look) returns (after: Kernel, answer: WaitAnswer)
    ensures answer.Interrupted? <==> look.Interrupt?
    ensures answer.WaitFailed? <==> look.Break?
    ensures answer.Reaped? ==>
      && Collectable(k, self, answer.pid) && after == Collect(k, answer.pid)
      && k.procs[answer.pid].zombie == Some(answer.status)
    ensures !answer.Reaped? ==> after == k
    ensures answer.StillAlive? ==> Idle(k, self)
    ensures answer.NoChild? ==> forall p | p in k.procs :: k.procs[p].parent != self
  {
    after := k;
    match look {
      case Interrupt => answer := Interrupted;
      case Break => answer := WaitFailed;
      case Answer(prefer) =>
        var zombies := set p | p in k.procs && Collectable(k, self, p);
        if zombies != {} {
          var pid: Pid :| pid in zombies;
          if prefer in zombies {
            pid := prefer;
          }
          after, answer := Collect(k, pid), Reaped(pid, k.procs[pid].zombie.value);
        } else if p :| p in k.procs && k.procs[p].parent == self {
          assert forall q | q in k.procs && Collectable(k, self, q) :: q in zombies;
          answer := StillAlive;
        } else {
          answer := NoChild;
        }
    }
  }

  /** The reaper has children, and none of them waits to be collected. */
  ghost predicate Idle(k: Kernel, self: Pid) {
    && (exists p :: p in k.procs && k.procs[p].parent == self)
    && (forall p | p in k.procs :: !Collectable(k, self, p))
  }

  /** `Unobserved` means that the given looks end before the program does. */
  datatype Outcome = Finished(code: int) | NoStatus | OsError | StillWaiting | Unobserved

  ghost predicate CommandCode(k: Kernel, command: Pid, code: int) {
    && command in k.exits
    && code == match k.exits[command] case Exited(c) => c case Signaled(signal) => 128 + signal
  }

  /** Collect everything that can be collected now. */
  method ReapReady(before: Kernel, self: Pid, command: Pid, known: Option<int>, glances: seq<Glance>)
    returns (k: Kernel, code: Option<int>, outcome: Outcome, reaped: seq<Pid>)
    requires Sound(before, self) && CommandKnown(before, self, command, known)
    ensures Sound(k, self) && CommandKnown(k, self, command, code) && Collected(k, reaped)
    ensures outcome.Finished? ==> k.procs == map[] && CommandCode(k, command, outcome.code)
    ensures outcome.StillWaiting? ==> Idle(k, self)
    ensures outcome.OsError? ==> exists i :: 0 <= i < |glances| && glances[i].look.Break?
    ensures outcome.Unobserved? ==> |reaped| == Answers(glances)
    ensures !outcome.NoStatus?
  {
    k, code, outcome, reaped := before, known, Unobserved, [];
    for i := 0 to |glances|
      invariant Sound(k, self) && CommandKnown(k, self, command, code) && Collected(k, reaped)
      invariant outcome == Unobserved && |reaped| == Answers(glances[..i])
    {
      assert glances[..i + 1][..i] == glances[..i];
      k := Evolve(k, self, command, code, glances[i].steps, reaped);
      ghost var seen := k;
      var answer;
      k, answer := WaitPid(k, self, glances[i].look);
      match answer {
        case Reaped(pid, status) =>
          CollectKeeps(seen, self, command, code, pid);
          if pid == command {
            code := Some(CodeOf(status));
          }
          reaped := reaped + [pid];
        case StillAlive =>
          outcome := StillWaiting;
          return;
        case Interrupted =>
        case WaitFailed =>
          outcome := OsError;
          return;
        case NoChild =>
          NoChildrenMeansDone(k, self, command, code);
          outcome := if code.Some? then Finished(code.value) else NoStatus;
          return;
      }
    }
    assert glances[..|glances|] == glances;
  }

  /** The reaper's main loop over the rounds that are observed. The first `done` of
      them were complete, and up to there it has done exactly what they ask for; it
      ended in the next one while collecting, or because a broadcast was refused or
      the wait failed, or there was no next one. */
  method WaitForCommandTree(start: Kernel, self: Pid, command: Pid, rounds: seq<Round>)
    returns (outcome: Outcome, k: Kernel, events: seq<Event>, done: nat, reaped: seq<Pid>)
    requires Sound(start, self) && CommandKnown(start, self, command, None) && Clocked(rounds)
    ensures outcome.Finished? ==> k.procs == map[] && CommandCode(k, command, outcome.code)
    ensures !outcome.NoStatus?
    ensures done <= |rounds| && (outcome.StillWaiting? <==> done == |rounds|)
    ensures outcome.Unobserved? ==> Collected(k, reaped) && |reaped| == Answers(rounds[done].glances)
    ensures var history := HistoryOf(rounds[..done]);
      if outcome.OsError? then
        || (events == history && exists g :: g in rounds[done].glances && g.look.Break?)
        || (events == history + BroadcastOf(history, rounds[done].clock)
            && (rounds[done].wake.WakeError? || (rounds[done].refused && events != history)))
      else events == history
  {
    k, events, outcome, done, reaped := start, [], StillWaiting, 0, [];
    var code: Option<int> := None;
    var termination: Option<(Signal, nat)> := None;
    while done < |rounds|
      invariant done <= |rounds| && outcome == StillWaiting
      invariant Sound(k, self) && CommandKnown(k, self, command, code)
      invariant events == HistoryOf(rounds[..done]) && Remembers(termination, events)
    {
      var round := rounds[done];
      k, code, outcome, reaped := ReapReady(k, self, command, code, round.glances);
      if outcome != StillWaiting {
        return;
      }
      var failed;
      termination, events, failed := SignalAndWait(round, termination, events);
      if failed {
        outcome := OsError;
        return;
      }
      HistoryOneMore(rounds, done);
      done := done + 1;
    }
  }

  /** The second half of a round: broadcast if there is something to forward, then
      wait and note the signal that ended the wait. */
  method SignalAndWait(round: Round, termination: Option<(Signal, nat)>, history: seq<Event>)
    returns (after: Option<(Signal, nat)>, events: seq<Event>, failed: bool)
    requires Remembers(termination, history)
    ensures failed ==>
      && events == history + BroadcastOf(history, round.clock)
      && (round.wake.WakeError? || (round.refused && events != history))
    ensures !failed ==> events == history + AddedBy(history, round) && Remembers(after, events)
  {
    after, events, failed := termination, history, true;
    if termination.Some? {
      var e := SendAgain(termination.value, history, round.clock);
      events := events + [e];
      if round.refused {
        return;
      }
    } else {
      assert history + [] == history;
    }
    ghost var sent := events;
    match round.wake {
      case Elapsed =>
      case WakeError => return;
      case Got(signal) =>
        if signal != SIGCHLD {
          after, events := Note(signal, termination, events, round.noted);
        }
    }
    assert events == sent + NoteOf(round);
    failed := false;
  }

  /** The broadcast of the remembered signal, or of SIGKILL from the deadline on. */
  method SendAgain(termination: (Signal, nat), ghost history: seq<Event>, now: nat) returns (e: Event)
    requires Remembers(Some(termination), history)
    ensures BroadcastOf(history, now) == [e] && Remembers(Some(termination), history + [e])
  {
    var (latest, deadline) := termination;
    e := Broadcast(if now >= deadline then SIGKILL else latest, now);
    CountOne(history, e);
  }

  /** Remember a received signal; the first one sets the deadline. */
  method Note(signal: Signal, termination: Option<(Signal, nat)>, events: seq<Event>, now: nat)
    returns (after: Option<(Signal, nat)>, longer: seq<Event>)
    requires Remembers(termination, events)
    ensures Remembers(after, longer) && longer == events + [Received(signal, now)]
  {
    CountOne(events, Received(signal, now));
    longer := events + [Received(signal, now)];
    after := if termination.None? then Some((signal, now + GRACE)) else Some((signal, termination.value.1));
  }

  /** The pair the loop keeps: the last signal, and the first deadline. */
  ghost predicate Remembers(termination: Option<(Signal, nat)>, events: seq<Event>) {
    match termination
    case None => FirstAt(events).None? && LastSignal(events).None?
    case Some((signal, deadline)) =>
      LastSignal(events) == Some(signal) && FirstAt(events).Some? && deadline == FirstAt(events).value + GRACE
  }

  // ---------------------------------------------------------------- whom a broadcast reaches

  /** /proc lists exactly the children the kernel knows. */
  ghost predicate Shows(proc: Proc, k: Kernel, self: Pid) {
    forall p, c :: IsChild(proc, p, c) <==> c in k.procs && k.procs[c].parent == p
  }

  lemma {:induction false} ManagedDescends(proc: Proc, k: Kernel, self: Pid, p: Pid)
    requires Sound(k, self) && Shows(proc, k, self) && p in k.procs
    ensures Descends(proc, self, p)
    decreases k.born[p]
  {
    var q := k.procs[p].parent;
    if q == self {
      assert IsPath(proc, [self]);
    } else {
      ManagedDescends(proc, k, self, q);
    }
    assert IsChild(proc, q, p);
    Extend(proc, self, q, p);
  }

  /** A broadcast is meant for every managed process and for nobody else: they are
      the proper descendants of the reaper. */
  lemma BroadcastReachesAll(proc: Proc, k: Kernel, self: Pid, p: Pid)
    requires Sound(k, self) && Shows(proc, k, self)
    ensures p in k.procs <==> p != self && Descends(proc, self, p)
  {
    if p in k.procs {
      ManagedDescends(proc, k, self, p);
    }
    if p != self && Descends(proc, self, p) {
      var path :| IsPath(proc, path) && path[0] == self && path[|path| - 1] == p;
      assert IsChild(proc, path[|path| - 2], path[|path| - 2 + 1]);
    }
  }
}
