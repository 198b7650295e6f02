// The dispatch protocol: the main loop of run_fuzzer, the loop of every runner process,
// the two pipes between them and the signals that wake the fuzzer. One step is one
// interaction with shared state, and steps of different processes interleave freely.
// Runners may die and sends may fail; the only thing never modelled is a target that
// outlives its runner.
module Dispatch {
  import opened Prelude
  import opened RunnerLists

  type InputRef = nat

  datatype Outcome = Valid | Crash | Timeout

  // What a runner writes back. The job field is not in the packet: it records which
  // input the status is about, so that we can prove the fuzzer pairs them rightly.
  datatype Status = Status(job: InputRef, outcome: Outcome)

  // Where a runner process is in its loop. Written is the moment between writing the
  // status and signalling the fuzzer.
  datatype Phase = Waiting | Running(job: InputRef) | Finished(job: InputRef, outcome: Outcome) | Written

  datatype Runner = Runner(
    requests: seq<InputRef>,  // in the pipe from the fuzzer
    results: seq<Status>,     // in the pipe to the fuzzer
    phase: Phase,
    alive: bool,
    activeInput: Option<InputRef>)  // the last input sent: NULL until then, and never cleared

  // Where the fuzzer is in its loop.
  datatype Pc =
    | Head
    | Reaping
    | Polling
    | Checking
    | Sorting(readable: set<Rid>)
    | Collecting
    | Handling(runner: Rid, reply: Option<Status>)
    | Sending
    | Tail
    | Suspended
    | Exited

  datatype State = State(
    lists: Lists,
    runners: map<Rid, Runner>,
    pc: Pc,
    usrPending: bool,    // SIGUSR1 and SIGCHLD blocked and pending: they coalesce
    chldPending: bool,
    usrSeen: bool,       // the handler's flags
    chldSeen: bool,
    shutdown: bool,
    sent: nat,
    received: nat,
    target: nat,
    lost: nat)           // runners reaped while they had a job

  datatype Action =
    // the fuzzer
    | Enter
    | Leave
    | Reap(exited: set<Rid>)
    | Poll
    | Select(atEof: set<Rid>)
    | Sort
    | Take
    | Handle
    | Collected
    | Send(input: InputRef, ok: bool)
    | QueueEmpty
    | StopSending
    | Decide
    | Wake(usr: bool, chld: bool, stop: bool)
    // runner r
    | Receive(r: Rid)
    | Finish(r: Rid, outcome: Outcome)
    | Write(r: Rid)
    | Kill(r: Rid)
    | Die(r: Rid)

  // The first turn of the loop. The handlers are installed long before the signals are
  // blocked (fuzzer.c:44-82), so runners may have died by now and a shutdown may have been
  // asked for.
  predicate Init(s: State) {
    && s.lists.Valid() && s.lists.ready == s.lists.pool && s.lists.active == [] && s.lists.done == []
    && (forall r | r in s.lists.pool :: r in s.runners)
    && (forall r | r in s.runners :: r in s.lists.pool && s.runners[r].requests == [] && s.runners[r].results == []
                                     && s.runners[r].phase == Waiting && s.runners[r].activeInput == None
                                     && (s.runners[r].alive || s.chldSeen || s.chldPending))
    && s.pc == Head && !s.usrPending && !s.usrSeen
    && s.sent == 0 && s.received == 0 && s.lost == 0
  }

  predicate QuietStart(s: State) {
    Init(s) && !s.chldSeen && !s.chldPending && !s.shutdown
  }

  // ---------- The fuzzer ----------

  predicate Continues(s: State) {
    !s.shutdown && s.received < s.target
  }

  function DoEnter(s: State): State {
    if s.chldSeen then s.(chldSeen := false, pc := Reaping) else s.(pc := Polling)
  }

  function DoReap(s: State, exited: set<Rid>): State {
    var l := s.lists.Reaped(exited);
    s.(lists := l, lost := s.lost + |Only(s.lists.active, exited)|,
       shutdown := s.shutdown || l.pool == [], pc := if l.pool == [] then Head else Polling)
  }

  function DoPoll(s: State): State {
    if s.usrSeen then s.(usrSeen := false, pc := Checking) else s.(pc := Collecting)
  }

  function Readable(s: State): set<Rid>
    requires forall r | r in s.lists.active :: r in s.runners
  {
    set r | r in s.lists.active && s.runners[r].results != []
  }

  // select: pipes with a status, and pipes whose writers are gone.
  function DoSelect(s: State, atEof: set<Rid>): State
    requires forall r | r in s.lists.active :: r in s.runners
  {
    if s.lists.active == [] then s.(pc := Collecting) else s.(pc := Sorting(Readable(s) + atEof))
  }

  function DoSort(s: State): State
    requires s.pc.Sorting?
  {
    s.(lists := s.lists.Checked(s.pc.readable), pc := Collecting)
  }

  function DoTake(s: State): State
    requires s.lists.done != [] && s.lists.done[0] in s.runners
  {
    var r := s.lists.done[0];
    var R := s.runners[r];
    if R.results == [] then s.(lists := s.lists.Processed(), pc := Handling(r, None))
    else s.(lists := s.lists.Processed(), pc := Handling(r, Some(R.results[0])),
            runners := s.runners[r := R.(results := R.results[1..])])
  }

  function DoSend(s: State, input: InputRef, ok: bool): State
    requires s.lists.ready != [] && s.lists.ready[0] in s.runners
  {
    var r := s.lists.ready[0];
    var R := s.runners[r];
    if ok then s.(lists := s.lists.Submitted(true), sent := s.sent + 1,
                  runners := s.runners[r := R.(requests := R.requests + [input], activeInput := Some(input))])
    else s.(lists := s.lists.Submitted(false), pc := Tail)
  }

  function DoDecide(s: State): State {
    if s.received >= s.target then s.(pc := Exited)
    else if !s.chldSeen && !s.usrSeen && s.lists.active != [] && !s.shutdown then s.(pc := Suspended)
    else s.(pc := Head)
  }

  function DoWake(s: State, usr: bool, chld: bool, stop: bool): State {
    s.(usrPending := s.usrPending && !usr, usrSeen := s.usrSeen || usr,
       chldPending := s.chldPending && !chld, chldSeen := s.chldSeen || chld,
       shutdown := s.shutdown || stop, pc := Head)
  }

  // ---------- The runners ----------

  function DoReceive(s: State, r: Rid): State
    requires r in s.runners && s.runners[r].requests != []
  {
    var R := s.runners[r];
    s.(runners := s.runners[r := R.(requests := R.requests[1..], phase := Running(R.requests[0]))])
  }

  function DoFinish(s: State, r: Rid, outcome: Outcome): State
    requires r in s.runners && s.runners[r].phase.Running?
  {
    var R := s.runners[r];
    s.(runners := s.runners[r := R.(phase := Finished(R.phase.job, outcome))])
  }

  function DoWrite(s: State, r: Rid): State
    requires r in s.runners && s.runners[r].phase.Finished?
  {
    var R := s.runners[r];
    s.(runners := s.runners[r := R.(phase := Written, results := R.results + [Status(R.phase.job, R.phase.outcome)])])
  }

  function DoKill(s: State, r: Rid): State
    requires r in s.runners
  {
    s.(runners := s.runners[r := s.runners[r].(phase := Waiting)], usrPending := true)
  }

  function DoDie(s: State, r: Rid): State
    requires r in s.runners
  {
    s.(runners := s.runners[r := s.runners[r].(alive := false)], chldPending := true)
  }

  // ---------- Steps and runs ----------

  predicate Alive(s: State, r: Rid) {
    r in s.runners && s.runners[r].alive
  }

  predicate Enabled(s: State, a: Action) {
    match a
    case Enter => s.pc.Head? && Continues(s)
    case Leave => s.pc.Head? && !Continues(s)
    case Reap(exited) =>
      // Every runner that had died before its signal was seen is found; one that dies
      // during the loop may be missed, and its signal is then still pending.
      && s.pc.Reaping?
      && (forall r | r in exited :: r in s.lists.pool && r in s.runners && !s.runners[r].alive)
      && (s.chldPending || forall r | r in s.lists.pool && r in s.runners && !s.runners[r].alive :: r in exited)
    case Poll => s.pc.Polling?
    case Select(atEof) =>
      && s.pc.Checking?
      && (forall r | r in s.lists.active :: r in s.runners)
      && (forall r | r in atEof :: r in s.lists.active && !s.runners[r].alive)
    case Sort => s.pc.Sorting?
    case Take => s.pc.Collecting? && s.lists.done != [] && s.lists.done[0] in s.runners
    case Handle => s.pc.Handling?
    case Collected => s.pc.Collecting? && s.lists.done == []
    case Send(input, ok) =>
      s.pc.Sending? && s.lists.ready != [] && s.sent < s.target && s.lists.ready[0] in s.runners
    case QueueEmpty => s.pc.Sending? && s.lists.ready != [] && s.sent < s.target
    case StopSending => s.pc.Sending? && (s.lists.ready == [] || s.sent >= s.target)
    case Decide => s.pc.Tail?
    case Wake(usr, chld, stop) =>
      s.pc.Suspended? && (usr || chld || stop) && (usr ==> s.usrPending) && (chld ==> s.chldPending)
    case Receive(r) => Alive(s, r) && s.runners[r].phase.Waiting? && s.runners[r].requests != []
    case Finish(r, outcome) => Alive(s, r) && s.runners[r].phase.Running?
    case Write(r) => Alive(s, r) && s.runners[r].phase.Finished?
    case Kill(r) => Alive(s, r) && s.runners[r].phase.Written?
    case Die(r) => Alive(s, r)
  }

  function Apply(s: State, a: Action): State
    requires Enabled(s, a)
  {
    match a
    case Enter => DoEnter(s)
    case Leave => s.(pc := Exited)
    case Reap(exited) => DoReap(s, exited)
    case Poll => DoPoll(s)
    case Select(atEof) => DoSelect(s, atEof)
    case Sort => DoSort(s)
    case Take => DoTake(s)
    case Handle => s.(received := s.received + 1, pc := Collecting)
    case Collected => s.(pc := Sending)
    case Send(input, ok) => DoSend(s, input, ok)
    case QueueEmpty => s.(pc := Tail)
    case StopSending => s.(pc := Tail)
    case Decide => DoDecide(s)
    case Wake(usr, chld, stop) => DoWake(s, usr, chld, stop)
    case Receive(r) => DoReceive(s, r)
    case Finish(r, outcome) => DoFinish(s, r, outcome)
    case Write(r) => DoWrite(s, r)
    case Kill(r) => DoKill(s, r)
    case Die(r) => DoDie(s, r)
  }

  // The states along a sequence of steps from s.
  predicate Runs(s: State, acts: seq<Action>)
    decreases |acts|
  {
    acts == [] || (Enabled(s, acts[0]) && Runs(Apply(s, acts[0]), acts[1..]))
  }

  function Last(s: State, acts: seq<Action>): State
    requires Runs(s, acts)
    decreases |acts|
  {
    if acts == [] then s else Last(Apply(s, acts[0]), acts[1..])
  }
}
