/** The gateway supervisor: starts a worker, waits for it, restarts it after a pause and stops on a
    signal (server/cmd/blue/gateway_daemon_unix.go). Processes, signals, clocks and files are events;
    every interleaving of them is a run. */
module Supervisor {
  import opened Wrappers

  datatype Status = Starting | Running | Stopping | Stopped | Restarting | Error

  datatype DaemonState = DaemonState(supervisorPid: nat, childPid: nat, status: Status, restartCount: nat,
                                     lastExitCode: int, lastError: string)

  /** What waiting for a worker reports; a clean exit has code 0 and no text. */
  datatype Exit = Exit(code: int, text: string)

  /** A worker that exited is a zombie until it is waited for. `Killed` was sent SIGKILL and is not
      waited for. */
  datatype Worker = Alive | Exited(exit: Exit) | Reaped | Killed

  /** Where the supervisor is between two steps. */
  datatype Place =
    | Begin          // nothing written yet
    | PidWritten     // the pid file is written
    | AtLoop         // about to start a worker
    | Started        // worker started, its state not yet written
    | Waiting        // waiting for an exit or a signal
    | StopWait       // signalled the worker, waiting for it to stop
    | Pausing        // the restart delay
    | Leaving(failed: bool)   // about to remove the pid file
    | Returned(failed: bool)

  datatype System = System(
    place: Place,
    state: DaemonState,          // the supervisor's own copy
    restartCount: nat,           // the loop's counter
    workers: seq<Worker>,        // one per worker started, in order
    pids: seq<nat>,
    pending: nat,                // signals in the channel, which holds two
    received: bool,              // a signal was taken from the channel
    stateFile: Option<DaemonState>,
    pidFile: Option<nat>,
    owned: bool,                 // this run wrote the pid file
    stateOwned: bool,            // this run wrote the state file
    removeFailed: bool)

  datatype Event =
    // the environment
    | SignalArrives
    | WorkerExits(exit: Exit)
    // the supervisor; a flag says whether the file operation succeeds
    | FindsAnother
    | WritesPid(ok: bool)
    | WritesFirst(ok: bool)
    | Starts(pid: nat)
    | StartFails(text: string, wrote: bool)
    | WritesRunning(ok: bool)
    | TakesSignal(wrote: bool)
    | TakesExit(wrote: bool)
    | KillsAfterTimeout
    | StopsWith(wrote: bool)
    | PauseEnds
    | TakesSignalInPause(wrote: bool)
    | Removes(ok: bool)

  function Initial(pid: nat, stateFile: Option<DaemonState>, pidFile: Option<nat>): System {
    System(Begin, DaemonState(pid, 0, Starting, 0, 0, ""), 0, [], [], 0, false, stateFile, pidFile, false, false, false)
  }

  /** Replaces the state file if the write succeeds. The previous file survives a failed write. */
  function Written(s: System, ok: bool): System {
    if ok then s.(stateFile := Some(s.state), stateOwned := true) else s
  }

  function Last(s: System): nat
    requires s.workers != []
  {
    |s.workers| - 1
  }

  predicate Listening(p: Place) {
    p.AtLoop? || p.Started? || p.Waiting? || p.StopWait? || p.Pausing?
  }

  function AfterExit(s: System, exit: Exit, status: Status): System
    requires s.workers != []
  {
    s.(workers := s.workers[Last(s) := Reaped],
       state := s.state.(childPid := 0, lastExitCode := exit.code, lastError := exit.text, status := status))
  }

  /** One step, or nothing if the event cannot happen now. */
  function Next(s: System, e: Event): Option<System> {
    match e
    case SignalArrives =>
      if Listening(s.place) then Some(s.(pending := if s.pending < 2 then s.pending + 1 else 2)) else None
    case WorkerExits(exit) =>
      if s.workers != [] && s.workers[Last(s)].Alive?
      then Some(s.(workers := s.workers[Last(s) := Exited(exit)])) else None
    case FindsAnother =>
      if s.place.Begin? then Some(s.(place := Returned(true))) else None
    case WritesPid(ok) =>
      if !s.place.Begin? then None
      else if ok then Some(s.(pidFile := Some(s.state.supervisorPid), owned := true, place := PidWritten))
      else Some(s.(place := Returned(true)))
    case WritesFirst(ok) =>
      if !s.place.PidWritten? then None
      else Some(Written(s, ok).(place := if ok then AtLoop else Leaving(true)))
    case Starts(pid) =>
      if !s.place.AtLoop? || pid == 0 then None
      else Some(s.(workers := s.workers + [Alive], pids := s.pids + [pid], place := Started,
                   state := s.state.(childPid := pid, status := Running, restartCount := s.restartCount,
                       lastError := "")))
    case StartFails(text, wrote) =>
      if !s.place.AtLoop? then None
      else
        var t := s.(state := s.state.(status := Error, childPid := 0, lastError := text));
        Some(Written(t, wrote).(place := Leaving(true)))
    case WritesRunning(ok) =>
      if !s.place.Started? || s.workers == [] then None
      else if ok then Some(Written(s, true).(place := Waiting))
      else Some(s.(workers := s.workers[Last(s) := Killed], place := Leaving(true)))
    case TakesSignal(wrote) =>
      if !s.place.Waiting? || s.pending == 0 then None
      else
        var t := s.(pending := s.pending - 1, received := true, state := s.state.(status := Stopping));
        Some(Written(t, wrote).(place := StopWait))
    case TakesExit(wrote) =>
      if !s.place.Waiting? || s.workers == [] || !s.workers[Last(s)].Exited? then None
      else
        var t := AfterExit(s, s.workers[Last(s)].exit, Restarting);
        var u := t.(restartCount := s.restartCount + 1, state := t.state.(restartCount := s.restartCount + 1));
        Some(Written(u, wrote).(place := Pausing))
    case KillsAfterTimeout =>
      if !s.place.StopWait? || s.workers == [] || !s.workers[Last(s)].Alive? then None
      else Some(s.(workers := s.workers[Last(s) := Exited(Exit(-1, "signal: killed"))]))
    case StopsWith(wrote) =>
      if !s.place.StopWait? || s.workers == [] || !s.workers[Last(s)].Exited? then None
      else Some(Written(AfterExit(s, s.workers[Last(s)].exit, Stopped), wrote).(place := Leaving(false)))
    case PauseEnds =>
      if s.place.Pausing? then Some(s.(place := AtLoop)) else None
    case TakesSignalInPause(wrote) =>
      if !s.place.Pausing? || s.pending == 0 then None
      else
        var t := s.(pending := s.pending - 1, received := true, state := s.state.(status := Stopped));
        Some(Written(t, wrote).(place := Leaving(false)))
    case Removes(ok) =>
      if !s.place.Leaving? then None
      else Some(s.(pidFile := if ok then None else s.pidFile, removeFailed := !ok, place := Returned(s.place.failed)))
  }

  function Run(s: System, events: seq<Event>): Option<System>
    decreases |events|
  {
    if events == [] then Some(s)
    else match Next(s, events[0])
      case None => None
      case Some(t) => Run(t, events[1..])
  }

  // ---------------------------------------------------------------------------------------
  // What every run keeps
  // ---------------------------------------------------------------------------------------

  predicate Working(status: Status) {
    status.Running? || status.Stopping?
  }

  /** A written state names a worker exactly while one is running or being stopped. */
  ghost predicate Honest(d: DaemonState, s: System) {
    && (d.childPid != 0 <==> Working(d.status))
    && (d.childPid != 0 ==> d.childPid in s.pids)
    && d.supervisorPid == s.state.supervisorPid
  }

  /** Workers started, counted from the supervisor's own record. */
  ghost predicate Counted(s: System) {
    && s.state.restartCount == s.restartCount
    && (Working(s.state.status) ==> |s.workers| == s.restartCount + 1)
    && (s.state.status.Restarting? || s.state.status.Error? ==> |s.workers| == s.restartCount)
    && (s.state.status.Starting? ==> |s.workers| == s.restartCount == 0)
    && (s.state.status.Stopped? ==> |s.workers| == s.restartCount || |s.workers| == s.restartCount + 1)
  }

  ghost predicate Placed(s: System) {
    match s.place
    case Begin => s.state.status.Starting? && !s.owned && !s.received
    case PidWritten => s.state.status.Starting? && !s.received
    case AtLoop => (s.state.status.Starting? || s.state.status.Restarting?) && !s.received && AllOver(s.workers)
    case Started => s.state.status.Running? && !s.received && s.workers != [] && Unwaited(s.workers[Last(s)])
    case Waiting => s.state.status.Running? && !s.received && s.workers != [] && Unwaited(s.workers[Last(s)])
    case StopWait => s.state.status.Stopping? && s.received && s.workers != [] && Unwaited(s.workers[Last(s)])
    case Pausing => s.state.status.Restarting? && !s.received && AllOver(s.workers)
    case Leaving(_) => s.owned && AllDone(s.workers)
    case Returned(_) => s.owned ==> AllDone(s.workers) && (s.pidFile == None || s.removeFailed)
  }

  predicate Unwaited(w: Worker) {
    w.Alive? || w.Exited?
  }

  /** Waited for. */
  ghost predicate AllOver(workers: seq<Worker>) {
    forall i | 0 <= i < |workers| :: workers[i].Reaped?
  }

  /** Waited for or sent SIGKILL: none is left behind. */
  ghost predicate AllDone(workers: seq<Worker>) {
    forall i | 0 <= i < |workers| :: workers[i].Reaped? || workers[i].Killed?
  }

  ghost predicate Invariant(s: System) {
    && Placed(s) && Counted(s) && Honest(s.state, s)
    && |s.pids| == |s.workers|
    && (Working(s.state.status) ==> s.state.childPid == s.pids[Last(s)])
    && (forall i | 0 <= i < |s.workers| - 1 :: s.workers[i].Reaped?)
    && (s.stateOwned ==> s.stateFile.Some? && Honest(s.stateFile.value, s))
    && (!s.place.Begin? && !s.place.Returned? ==> s.owned)
    && (s.owned && !s.place.Returned? ==> s.pidFile == Some(s.state.supervisorPid))
    && (s.owned ==> s.pidFile == None || s.pidFile == Some(s.state.supervisorPid))
    && (!s.owned ==> s.workers == [])
    && s.pending <= 2
    && s.state.supervisorPid > 0
  }

  lemma EarlyStepsKeep(s: System, e: Event)
    requires Invariant(s) && Next(s, e).Some?
    requires e.SignalArrives? || e.WorkerExits? || e.FindsAnother? || e.WritesPid? || e.WritesFirst? || e.Removes?
             || e.PauseEnds?
    ensures Invariant(Next(s, e).value)
  {
  }

  lemma StartStepsKeep(s: System, e: Event)
    requires Invariant(s) && Next(s, e).Some?
    requires e.Starts? || e.StartFails? || e.WritesRunning?
    ensures Invariant(Next(s, e).value)
  {
  }

  lemma ExitKeeps(s: System, e: Event)
    requires Invariant(s) && Next(s, e).Some? && e.TakesExit?
    ensures Invariant(Next(s, e).value)
  {
  }

  lemma SignalStepsKeep(s: System, e: Event)
    requires Invariant(s) && Next(s, e).Some?
    requires e.TakesSignal? || e.TakesSignalInPause?
    ensures Invariant(Next(s, e).value)
  {
  }

  lemma StopStepsKeep(s: System, e: Event)
    requires Invariant(s) && Next(s, e).Some?
    requires e.KillsAfterTimeout? || e.StopsWith?
    ensures Invariant(Next(s, e).value)
  {
  }

  /** Every step of the supervisor, and everything that happens to it meanwhile, keeps the invariant. */
  lemma StepKeepsInvariant(s: System, e: Event)
    requires Invariant(s) && Next(s, e).Some?
    ensures Invariant(Next(s, e).value)
  {
    hide Invariant, Next;
    if e.SignalArrives? || e.WorkerExits? || e.FindsAnother? || e.WritesPid? || e.WritesFirst? || e.Removes?
        || e.PauseEnds? {
      EarlyStepsKeep(s, e);
    } else if e.Starts? || e.StartFails? || e.WritesRunning? {
      StartStepsKeep(s, e);
    } else if e.KillsAfterTimeout? || e.StopsWith? {
      StopStepsKeep(s, e);
    } else if e.TakesExit? {
      ExitKeeps(s, e);
    } else {
      SignalStepsKeep(s, e);
    }
  }

  lemma {:induction false} RunKeepsInvariant(s: System, events: seq<Event>)
    requires Invariant(s) && Run(s, events).Some?
    ensures Invariant(Run(s, events).value)
    decreases |events|
  {
    hide Invariant, Next;
    if events != [] {
      StepKeepsInvariant(s, events[0]);
      RunKeepsInvariant(Next(s, events[0]).value, events[1..]);
    }
  }

  lemma InitialInvariant(pid: nat, stateFile: Option<DaemonState>, pidFile: Option<nat>)
    requires pid > 0
    ensures Invariant(Initial(pid, stateFile, pidFile))
  {
  }

  ghost predicate Reachable(s: System, pid: nat, stateFile: Option<DaemonState>, pidFile: Option<nat>,
        events: seq<Event>) {
    pid > 0 && Run(Initial(pid, stateFile, pidFile), events) == Some(s)
  }

  lemma ReachableInvariant(s: System, pid: nat, stateFile: Option<DaemonState>, pidFile: Option<nat>,
        events: seq<Event>)
    requires Reachable(s, pid, stateFile, pidFile, events)
    ensures Invariant(s)
  {
    InitialInvariant(pid, stateFile, pidFile);
    RunKeepsInvariant(Initial(pid, stateFile, pidFile), events);
  }

  /** At most one worker is ever running or unwaited, and the next one starts only after every
      earlier one was waited for. */
  lemma OneWorkerAtATime(s: System, pid: nat, stateFile: Option<DaemonState>, pidFile: Option<nat>,
        events: seq<Event>, next: nat)
    requires Reachable(s, pid, stateFile, pidFile, events)
    ensures forall i | 0 <= i < |s.workers| - 1 :: s.workers[i].Reaped?
    ensures Next(s, Starts(next)).Some? ==> AllOver(s.workers)
  {
    ReachableInvariant(s, pid, stateFile, pidFile, events);
  }

  /** Every return after the pid file was written removes it, with no worker left behind. */
  lemma ReturnsClean(s: System, pid: nat, stateFile: Option<DaemonState>, pidFile: Option<nat>, events: seq<Event>)
    requires Reachable(s, pid, stateFile, pidFile, events)
    ensures s.place.Returned? && s.owned ==> AllDone(s.workers) && (s.pidFile == None || s.removeFailed)
    ensures s.owned && !s.place.Returned? ==> s.pidFile == Some(pid)
    ensures s.place.Returned? && !s.owned ==> s.pidFile == pidFile && s.workers == []
  {
    ReachableInvariant(s, pid, stateFile, pidFile, events);
    InitialInvariant(pid, stateFile, pidFile);
    SameSupervisor(Initial(pid, stateFile, pidFile), events);
  }

  lemma StepSame(s: System, e: Event)
    requires Invariant(s) && Next(s, e).Some?
    ensures var t := Next(s, e).value;
            && t.state.supervisorPid == s.state.supervisorPid
            && (!t.owned ==> !s.owned && t.pidFile == s.pidFile)
            && t.restartCount == s.restartCount + (if e.TakesExit? then 1 else 0)
            && |t.workers| == |s.workers| + (if e.Starts? then 1 else 0)
            && (s.received ==> t.received && !e.Starts?)
  {
    hide Counted, Honest, AllOver, AllDone, Working, Unwaited;
    assert Placed(s);
    hide Invariant;
  }

  lemma {:induction false} SameSupervisor(s: System, events: seq<Event>)
    requires Invariant(s) && Run(s, events).Some?
    ensures var t := Run(s, events).value;
            && t.state.supervisorPid == s.state.supervisorPid
            && (!t.owned ==> !s.owned && t.pidFile == s.pidFile)
    decreases |events|
  {
    hide Next, Invariant;
    if events != [] {
      StepSame(s, events[0]);
      StepKeepsInvariant(s, events[0]);
      SameSupervisor(Next(s, events[0]).value, events[1..]);
    }
  }

  /** Once a signal was taken from the channel no worker is ever started again. */
  lemma {:induction false} NoStartAfterSignal(s: System, events: seq<Event>)
    requires Invariant(s) && s.received && Run(s, events).Some?
    ensures |Run(s, events).value.workers| == |s.workers|
    decreases |events|
  {
    hide Next, Invariant;
    if events != [] {
      StepKeepsInvariant(s, events[0]);
      StepSame(s, events[0]);
      NoStartAfterSignal(Next(s, events[0]).value, events[1..]);
    }
  }

  function ExitsTaken(events: seq<Event>): nat {
    if events == [] then 0 else (if events[0].TakesExit? then 1 else 0) + ExitsTaken(events[1..])
  }

  function StartsMade(events: seq<Event>): nat {
    if events == [] then 0 else (if events[0].Starts? then 1 else 0) + StartsMade(events[1..])
  }

  lemma {:induction false} CountsFollowEvents(s: System, events: seq<Event>)
    requires Invariant(s) && Run(s, events).Some?
    ensures Run(s, events).value.restartCount == s.restartCount + ExitsTaken(events)
    ensures |Run(s, events).value.workers| == |s.workers| + StartsMade(events)
    decreases |events|
  {
    hide Next, Invariant;
    if events != [] {
      StepKeepsInvariant(s, events[0]);
      StepSame(s, events[0]);
      CountsFollowEvents(Next(s, events[0]).value, events[1..]);
    }
  }

  /** The record is right in every state: a child pid exactly while a worker runs or is being
      stopped, and as many restarts as exits that were not asked for. */
  lemma RecordIsRight(s: System, pid: nat, stateFile: Option<DaemonState>, pidFile: Option<nat>, events: seq<Event>)
    requires Reachable(s, pid, stateFile, pidFile, events)
    ensures s.state.childPid != 0 <==> Working(s.state.status)
    ensures Working(s.state.status) ==>
              s.workers != [] && |s.pids| == |s.workers| && s.state.childPid == s.pids[Last(s)]
    ensures s.state.restartCount == ExitsTaken(events)
    ensures Working(s.state.status) ==> s.state.restartCount + 1 == StartsMade(events)
    ensures s.state.status.Restarting? ==> s.state.restartCount == StartsMade(events)
    ensures s.stateOwned ==>
              s.stateFile.Some? && (s.stateFile.value.childPid != 0 <==> Working(s.stateFile.value.status))
  {
    ReachableInvariant(s, pid, stateFile, pidFile, events);
    InitialInvariant(pid, stateFile, pidFile);
    CountsFollowEvents(Initial(pid, stateFile, pidFile), events);
  }

  // ---------------------------------------------------------------------------------------
  // The record, read off the events
  // ---------------------------------------------------------------------------------------

  /** Which event leaves which status behind. */
  function StatusBy(e: Event, before: Status): Status {
    match e
    case Starts(_) => Running
    case StartFails(_, _) => Error
    case TakesSignal(_) => Stopping
    case TakesExit(_) => Restarting
    case StopsWith(_) => Stopped
    case TakesSignalInPause(_) => Stopped
    case _ => before
  }

  function StatusAfter(events: seq<Event>): Status {
    if events == [] then Starting else StatusBy(events[|events| - 1], StatusAfter(events[..|events| - 1]))
  }

  /** Where each event leads. */
  function PlaceBy(e: Event, before: Place): Place {
    match e
    case FindsAnother => Returned(true)
    case WritesPid(ok) => if ok then PidWritten else Returned(true)
    case WritesFirst(ok) => if ok then AtLoop else Leaving(true)
    case Starts(_) => Started
    case StartFails(_, _) => Leaving(true)
    case WritesRunning(ok) => if ok then Waiting else Leaving(true)
    case TakesSignal(_) => StopWait
    case TakesExit(_) => Pausing
    case StopsWith(_) => Leaving(false)
    case PauseEnds => AtLoop
    case TakesSignalInPause(_) => Leaving(false)
    case Removes(_) => Returned(before.Leaving? && before.failed)
    case _ => before
  }

  function PlaceAfter(events: seq<Event>): Place {
    if events == [] then Begin else PlaceBy(events[|events| - 1], PlaceAfter(events[..|events| - 1]))
  }

  /** How a worker ended; one killed after the timeout reports a kill. */
  function ExitBy(e: Event, before: Exit): Exit {
    match e
    case WorkerExits(exit) => exit
    case KillsAfterTimeout => Exit(-1, "signal: killed")
    case _ => before
  }

  function LastExit(events: seq<Event>): Exit {
    if events == [] then Exit(0, "") else ExitBy(events[|events| - 1], LastExit(events[..|events| - 1]))
  }

  /** The exit code and error on record: those of the last exit waited for, or the text of a failed
      start. A start clears the text and keeps the code. */
  function OutcomeBy(e: Event, exit: Exit, before: Exit): Exit {
    match e
    case Starts(_) => Exit(before.code, "")
    case StartFails(text, _) => Exit(before.code, text)
    case TakesExit(_) => exit
    case StopsWith(_) => exit
    case _ => before
  }

  function OutcomeAfter(events: seq<Event>): Exit {
    if events == [] then Exit(0, "")
    else OutcomeBy(events[|events| - 1], LastExit(events[..|events| - 1]), OutcomeAfter(events[..|events| - 1]))
  }

  function PidOf(e: Event): seq<nat> {
    match e case Starts(pid) => [pid] case _ => []
  }

  /** The pids of the workers started, in order. */
  function PidsStarted(events: seq<Event>): seq<nat> {
    if events == [] then []
    else PidsStarted(events[..|events| - 1]) + PidOf(events[|events| - 1])
  }

  predicate WritesState(e: Event) {
    match e
    case WritesFirst(ok) => ok
    case StartFails(_, wrote) => wrote
    case WritesRunning(ok) => ok
    case TakesSignal(wrote) => wrote
    case TakesExit(wrote) => wrote
    case StopsWith(wrote) => wrote
    case TakesSignalInPause(wrote) => wrote
    case _ => false
  }

  /** The run goes wrong. */
  predicate Fails(e: Event) {
    e.FindsAnother? || e == WritesPid(false) || e == WritesFirst(false) || e.StartFails? || e == WritesRunning(false)
  }

  predicate Takes(e: Event) {
    e.TakesSignal? || e.TakesSignalInPause?
  }

  function SignalsArrived(events: seq<Event>): nat {
    if events == [] then 0
    else SignalsArrived(events[..|events| - 1]) + if events[|events| - 1].SignalArrives? then 1 else 0
  }

  function SignalsTaken(events: seq<Event>): nat {
    if events == [] then 0
    else SignalsTaken(events[..|events| - 1]) + if Takes(events[|events| - 1]) then 1 else 0
  }

  ghost predicate SomethingFailed(events: seq<Event>) {
    exists i :: 0 <= i < |events| && Fails(events[i])
  }

  /** The last worker exited and was not yet waited for. */
  predicate Waits(s: System) {
    s.workers != [] && s.workers[Last(s)].Exited?
  }

  predicate Over(s: System) {
    s.place.Leaving? || s.place.Returned?
  }

  /** What the events say, field by field. */
  ghost predicate Told(s: System, events: seq<Event>) {
    && s.place == PlaceAfter(events)
    && s.state.status == StatusAfter(events) && s.pids == PidsStarted(events)
    && Exit(s.state.lastExitCode, s.state.lastError) == OutcomeAfter(events)
    && (Waits(s) ==> s.workers[Last(s)].exit == LastExit(events))
    && (s.received <==> SignalsTaken(events) > 0)
    && s.pending + SignalsTaken(events) <= SignalsArrived(events)
    && (SignalsArrived(events) <= 2 ==> s.pending + SignalsTaken(events) == SignalsArrived(events))
    && (if Over(s) then s.place.failed <==> SomethingFailed(events) else !SomethingFailed(events))
    && (Obeyed(s) ==> s.state.status == Stopped && s.state.childPid == 0)
    && (Obeyed(s) || s.place.Pausing? ==> OutcomeAfter(events) == LastExit(events))
  }

  /** Left because of a signal, not an error. */
  predicate Obeyed(s: System) {
    Over(s) && !s.place.failed
  }

  /** What one event does to the record, the last exit, the signals and the outcome of the run. */
  ghost predicate Effect(s: System, e: Event, t: System) {
    && t.place == PlaceBy(e, s.place)
    && t.state.status == StatusBy(e, s.state.status) && t.pids == s.pids + PidOf(e)
    && (e.TakesExit? || e.StopsWith? ==> Waits(s))
    && Exit(t.state.lastExitCode, t.state.lastError)
       == OutcomeBy(e, if Waits(s) then s.workers[Last(s)].exit else Exit(0, ""),
                    Exit(s.state.lastExitCode, s.state.lastError))
    && (Waits(t) ==>
          if e.WorkerExits? || e.KillsAfterTimeout? then t.workers[Last(t)].exit == ExitBy(e, Exit(0, ""))
          else Waits(s) && t.workers[Last(t)].exit == s.workers[Last(s)].exit)
    && (t.received <==> s.received || Takes(e))
    && t.pending == (if Takes(e) then s.pending - 1
                     else if !e.SignalArrives? then s.pending
                     else if s.pending < 2 then s.pending + 1
                     else 2)
    && (if Over(s) then Over(t) && t.place.failed == s.place.failed && !Fails(e)
        else if Over(t) then t.place.failed <==> Fails(e)
        else !Fails(e))
  }

  lemma EffectOfWorld(s: System, e: Event)
    requires Next(s, e).Some? && (e.SignalArrives? || e.WorkerExits? || e.KillsAfterTimeout?)
    ensures Effect(s, e, Next(s, e).value)
  {
  }

  lemma EffectOfEntering(s: System, e: Event)
    requires Next(s, e).Some? && (e.FindsAnother? || e.WritesPid? || e.WritesFirst?)
    ensures Effect(s, e, Next(s, e).value)
  {
  }

  lemma EffectOfMoving(s: System, e: Event)
    requires Next(s, e).Some? && (e.PauseEnds? || e.Removes?)
    ensures Effect(s, e, Next(s, e).value)
  {
  }

  lemma EffectOfRunning(s: System, e: Event)
    requires Next(s, e).Some? && e.WritesRunning?
    ensures Effect(s, e, Next(s, e).value)
  {
  }

  lemma EffectOfStarting(s: System, e: Event)
    requires Next(s, e).Some? && (e.Starts? || e.StartFails?)
    ensures Effect(s, e, Next(s, e).value)
  {
  }

  lemma EffectOfSignal(s: System, e: Event)
    requires Next(s, e).Some? && (e.TakesSignal? || e.TakesSignalInPause?)
    ensures Effect(s, e, Next(s, e).value)
  {
  }

  lemma EffectOfExit(s: System, e: Event)
    requires Next(s, e).Some? && (e.TakesExit? || e.StopsWith?)
    ensures Effect(s, e, Next(s, e).value)
  {
  }

  lemma EffectOf(s: System, e: Event)
    requires Next(s, e).Some?
    ensures Effect(s, e, Next(s, e).value)
  {
    hide Next, Effect;
    if e.SignalArrives? || e.WorkerExits? || e.KillsAfterTimeout? {
      EffectOfWorld(s, e);
    } else if e.FindsAnother? || e.WritesPid? || e.WritesFirst? {
      EffectOfEntering(s, e);
    } else if e.PauseEnds? || e.Removes? {
      EffectOfMoving(s, e);
    } else if e.WritesRunning? {
      EffectOfRunning(s, e);
    } else if e.Starts? || e.StartFails? {
      EffectOfStarting(s, e);
    } else if e.TakesSignal? || e.TakesSignalInPause? {
      EffectOfSignal(s, e);
    } else {
      EffectOfExit(s, e);
    }
  }

  lemma NextStopped(s: System, e: Event)
    requires Invariant(s) && Next(s, e).Some?
    ensures var t := Next(s, e).value;
            && (Obeyed(t) ==> Obeyed(s) || e.StopsWith? || e.TakesSignalInPause?)
            && (Obeyed(t) && !Obeyed(s) ==> t.state.childPid == 0 && (e.TakesSignalInPause? ==> s.place.Pausing?))
            && (Obeyed(t) && Obeyed(s) ==> t.state == s.state && !e.WorkerExits? && !e.KillsAfterTimeout?)
            && (t.place.Pausing? ==> s.place.Pausing? || e.TakesExit?)
            && (s.place.Pausing? ==> !e.WorkerExits? && !e.KillsAfterTimeout? && !e.Starts? && !e.StartFails?)
  {
    assert s.place.Pausing? ==> s.state.childPid == 0;
    EffectOf(s, e);
    StopClears(s, e);
    if Over(s) || s.place.Pausing? {
      NoLateExit(s, e);
    }
    hide Next, Invariant, StatusBy, OutcomeBy, ExitBy, Fails;
  }

  lemma StopClears(s: System, e: Event)
    requires Next(s, e).Some?
    ensures e.StopsWith? ==> Next(s, e).value.state.childPid == 0
    ensures e.TakesSignalInPause? ==> s.place.Pausing? && Next(s, e).value.state.childPid == s.state.childPid
    ensures e.Starts? || e.StartFails? ==> s.place.AtLoop?
    ensures Over(s) ==> Next(s, e).value.state == s.state
  {
  }

  lemma NoLateExit(s: System, e: Event)
    requires Invariant(s) && Next(s, e).Some? && (Over(s) || s.place.Pausing?)
    ensures !e.WorkerExits? && !e.KillsAfterTimeout?
  {
    hide Honest, Counted;
  }

  lemma After(events: seq<Event>, e: Event)
    ensures var all := events + [e];
            && PlaceAfter(all) == PlaceBy(e, PlaceAfter(events))
            && StatusAfter(all) == StatusBy(e, StatusAfter(events))
            && LastExit(all) == ExitBy(e, LastExit(events))
            && OutcomeAfter(all) == OutcomeBy(e, LastExit(events), OutcomeAfter(events))
            && PidsStarted(all) == PidsStarted(events) + PidOf(e)
            && SignalsArrived(all) == SignalsArrived(events) + (if e.SignalArrives? then 1 else 0)
            && SignalsTaken(all) == SignalsTaken(events) + (if Takes(e) then 1 else 0)
            && (SomethingFailed(all) <==> SomethingFailed(events) || Fails(e))
  {
    var all := events + [e];
    assert all[..|all| - 1] == events && all[|all| - 1] == e;
    hide Fails;
    if SomethingFailed(events) {
      var i :| 0 <= i < |events| && Fails(events[i]);
      assert Fails(all[i]);
    }
  }

  lemma TellStep(s: System, events: seq<Event>, e: Event)
    requires Invariant(s) && Told(s, events) && Next(s, e).Some?
    ensures Told(Next(s, e).value, events + [e])
  {
    hide Next, PlaceAfter, StatusAfter, LastExit, OutcomeAfter, PidsStarted, SignalsArrived, SignalsTaken;
    hide SomethingFailed, Fails;
    hide Placed, Counted, Honest;
    EffectOf(s, e);
    NextStopped(s, e);
    After(events, e);
  }

  lemma {:induction false} RunTold(start: System, events: seq<Event>)
    requires Invariant(start) && Told(start, []) && Run(start, events).Some?
    ensures Told(Run(start, events).value, events) && Invariant(Run(start, events).value)
  {
    hide Next, Told, Invariant;
    if events != [] {
      var n := |events| - 1;
      assert events[..n + 1] == events == events[..n] + [events[n]];
      RunPrefix(start, events, n);
      RunOneMore(start, events, n);
      RunTold(start, events[..n]);
      StepKeepsInvariant(Run(start, events[..n]).value, events[n]);
      TellStep(Run(start, events[..n]).value, events[..n], events[n]);
    }
  }

  /** A run begins with a run. */
  lemma RunPrefix(start: System, events: seq<Event>, n: nat)
    requires n <= |events| && Run(start, events).Some?
    ensures Run(start, events[..n]).Some?
  {
    hide Next;
    if Run(start, events[..n]).None? {
      RunStops(start, events[..n], events[n..]);
      assert events[..n] + events[n..] == events;
    }
  }

  lemma {:induction false} RunStops(s: System, first: seq<Event>, rest: seq<Event>)
    requires Run(s, first).None?
    ensures Run(s, first + rest).None?
    decreases |first|
  {
    hide Next;
    assert (first + rest)[1..] == first[1..] + rest && (first + rest)[0] == first[0];
    if Next(s, first[0]).Some? {
      RunStops(Next(s, first[0]).value, first[1..], rest);
    }
  }

  /** Place and record in every reachable state are the ones the events tell: place, status, outcome
      and pids by the last event that sets each. Signals are taken at most as often as they arrived, and while the
      channel has room none is lost. A run leaves with an error exactly if something failed. */
  lemma RecordFollowsEvents(s: System, pid: nat, stateFile: Option<DaemonState>, pidFile: Option<nat>,
        events: seq<Event>)
    requires Reachable(s, pid, stateFile, pidFile, events)
    ensures Told(s, events)
  {
    InitialInvariant(pid, stateFile, pidFile);
    assert Told(Initial(pid, stateFile, pidFile), []);
    hide Next, Invariant, Told;
    RunTold(Initial(pid, stateFile, pidFile), events);
  }

  /** A supervisor that was told to stop leaves as its record that it stopped, without a child, and with
      the exit code and text of the last worker it waited for. */
  lemma StoppedRecord(s: System, pid: nat, stateFile: Option<DaemonState>, pidFile: Option<nat>, events: seq<Event>)
    requires Reachable(s, pid, stateFile, pidFile, events)
    requires (s.place.Leaving? || s.place.Returned?) && !s.place.failed
    ensures s.state.status == Stopped && s.state.childPid == 0
    ensures s.state.lastExitCode == LastExit(events).code && s.state.lastError == LastExit(events).text
  {
    hide Reachable, PlaceAfter, StatusAfter, LastExit, OutcomeAfter, SignalsArrived, SignalsTaken, PidsStarted;
    hide SomethingFailed;
    RecordFollowsEvents(s, pid, stateFile, pidFile, events);
  }

  /** A worker that could not be started leaves the error and its text as the record. */
  lemma FailedStartRecord(s: System, text: string, wrote: bool)
    requires Next(s, StartFails(text, wrote)).Some?
    ensures var t := Next(s, StartFails(text, wrote)).value;
            && t.state.status == Error && t.state.lastError == text && t.state.childPid == 0
            && t.place == Leaving(true) && (wrote ==> t.stateFile == Some(t.state))
  {
  }

  /** The record changes. */
  predicate Changes(e: Event) {
    e.Starts? || e.StartFails? || Takes(e) || e.TakesExit? || e.StopsWith?
  }

  /** The last change of the record was written. */
  ghost predicate UpToDate(events: seq<Event>) {
    && events != []
    && var e := events[|events| - 1];
       WritesState(e) || (!Changes(e) && UpToDate(events[..|events| - 1]))
  }

  lemma FileStep(s: System, e: Event)
    requires Next(s, e).Some?
    ensures var t := Next(s, e).value;
            && t.stateFile == (if WritesState(e) then Some(t.state) else s.stateFile)
            && (!Changes(e) ==> t.state == s.state)
  {
  }

  /** The state file holds the record whenever the last change of the record was written; with no
      successful write at all it is the file that was found. */
  lemma {:induction false} FileIsCurrent(s: System, pid: nat, stateFile: Option<DaemonState>, pidFile: Option<nat>,
        events: seq<Event>)
    requires Reachable(s, pid, stateFile, pidFile, events)
    ensures UpToDate(events) ==> s.stateFile == Some(s.state)
    ensures (forall e | e in events :: !WritesState(e)) ==> s.stateFile == stateFile
    decreases |events|
  {
    hide Next, WritesState, Changes;
    if events != [] {
      var n, start := |events| - 1, Initial(pid, stateFile, pidFile);
      assert events[..n + 1] == events;
      RunPrefix(start, events, n);
      RunOneMore(start, events, n);
      var before := Run(start, events[..n]).value;
      FileStep(before, events[n]);
      FileIsCurrent(before, pid, stateFile, pidFile, events[..n]);
    }
  }

  // ---------------------------------------------------------------------------------------
  // What the other commands see
  // ---------------------------------------------------------------------------------------

  datatype Runtime = Runtime(state: Option<DaemonState>, supervisorRunning: bool, childRunning: bool)

  function ReadRuntime(stateFile: Option<DaemonState>, pidFile: Option<nat>, alive: nat -> bool): Runtime {
    var state :=
      if pidFile.None? then stateFile
      else if stateFile.None? then Some(DaemonState(pidFile.value, 0, Stopped, 0, 0, ""))
      else if stateFile.value.supervisorPid == 0 then Some(stateFile.value.(supervisorPid := pidFile.value))
      else stateFile;
    Runtime(state,
            pidFile.Some? && pidFile.value > 0 && alive(pidFile.value),
            state.Some? && state.value.childPid > 0 && alive(state.value.childPid))
  }

  /** The process table while this supervisor runs: its pid is taken until it returns. */
  ghost predicate TableOf(alive: nat -> bool, s: System) {
    alive(s.state.supervisorPid) <==> !s.place.Returned?
  }

  /** `gateway stop` waits until the supervisor is seen not running. It sees that exactly when the
      supervisor has returned, and then no worker is left. */
  lemma StopSeesTheEnd(s: System, pid: nat, stateFile: Option<DaemonState>, pidFile: Option<nat>, events: seq<Event>,
        alive: nat -> bool)
    requires Reachable(s, pid, stateFile, pidFile, events) && s.owned && TableOf(alive, s)
    ensures ReadRuntime(s.stateFile, s.pidFile, alive).supervisorRunning <==> !s.place.Returned?
    ensures !ReadRuntime(s.stateFile, s.pidFile, alive).supervisorRunning ==> AllDone(s.workers)
  {
    ReachableInvariant(s, pid, stateFile, pidFile, events);
  }

  // ---------------------------------------------------------------------------------------
  // The supervisor's loop
  // ---------------------------------------------------------------------------------------

  lemma {:induction false} RunSplit(s: System, first: seq<Event>, rest: seq<Event>)
    requires Run(s, first).Some?
    ensures Run(s, first + rest) == Run(Run(s, first).value, rest)
    decreases |first|
  {
    hide Next;
    if first == [] {
      assert first + rest == rest;
    } else {
      assert (first + rest)[1..] == first[1..] + rest;
      RunSplit(Next(s, first[0]).value, first[1..], rest);
    }
  }

  lemma RunOneMore(s: System, script: seq<Event>, i: nat)
    requires i < |script| && Run(s, script[..i]).Some?
    ensures Run(s, script[..i + 1]) == Next(Run(s, script[..i]).value, script[i])
  {
    hide Next;
    assert script[..i + 1] == script[..i] + [script[i]];
    RunSplit(s, script[..i], [script[i]]);
    var t := Run(s, script[..i]).value;
    assert Run(t, [script[i]]) == match Next(t, script[i]) case None => None case Some(u) => Run(u, []);
  }

  /** Which of its own steps the supervisor can take where. */
  lemma Choices(s: System, e: Event)
    requires Next(s, e).Some? && !e.SignalArrives? && !e.WorkerExits?
    ensures match s.place
      case Begin => e.FindsAnother? || e.WritesPid?
      case PidWritten => e.WritesFirst?
      case AtLoop => (e.Starts? && e.pid != 0) || e.StartFails?
      case Started => e.WritesRunning? && s.workers != []
      case Waiting => (e.TakesSignal? && s.pending > 0)
          || (e.TakesExit? && s.workers != [] && s.workers[Last(s)].Exited?)
      case StopWait =>
        && s.workers != []
        && ((e.KillsAfterTimeout? && s.workers[Last(s)].Alive?) || (e.StopsWith? && s.workers[Last(s)].Exited?))
      case Pausing => e.PauseEnds? || (e.TakesSignalInPause? && s.pending > 0)
      case Leaving(_) => e.Removes?
      case Returned(_) => false
  {
  }

  /** An exit nobody asked for, field by field. */
  lemma ExitStep(s: System, wrote: bool)
    requires s.place.Waiting? && s.workers != [] && s.workers[Last(s)].Exited?
    ensures var exit := s.workers[Last(s)].exit;
            var state := s.state.(childPid := 0, lastExitCode := exit.code, lastError := exit.text,
                                  status := Restarting, restartCount := s.restartCount + 1);
            Next(s, TakesExit(wrote))
            == Some(System(Pausing, state, s.restartCount + 1, s.workers[Last(s) := Reaped], s.pids, s.pending,
                           s.received, if wrote then Some(state) else s.stateFile, s.pidFile, s.owned,
                           wrote || s.stateOwned, s.removeFailed))
  {
  }

  /** Starting, or failing to, field by field. */
  lemma StartStep(s: System, e: Event)
    requires s.place.AtLoop?
    ensures e.Starts? ==> Next(s, e) == if e.pid == 0 then None else
              Some(s.(workers := s.workers + [Alive], pids := s.pids + [e.pid], place := Started,
                      state := s.state.(childPid := e.pid, status := Running, restartCount := s.restartCount,
                          lastError := "")))
    ensures e.StartFails? ==>
              var state := s.state.(status := Error, childPid := 0, lastError := e.text);
              Next(s, e) == Some(s.(state := state, place := Leaving(true), stateOwned := e.wrote || s.stateOwned,
                                    stateFile := if e.wrote then Some(state) else s.stateFile))
  {
  }

  /** The supervisor process. `script` decides every choice the environment makes; the fields are
      what `gatewaySupervisorMain` keeps in its variables, its files and its child process. */
  class Process {
    var state: DaemonState
    var restartCount: nat
    var workers: seq<Worker>
    var pids: seq<nat>
    var pending: nat
    var received: bool
    var stateFile: Option<DaemonState>
    var pidFile: Option<nat>
    var owned: bool
    var stateOwned: bool
    var removeFailed: bool
    const script: seq<Event>
    var used: nat
    ghost const start: System

    constructor (pid: nat, stateFile: Option<DaemonState>, pidFile: Option<nat>, script: seq<Event>)
      ensures At(Begin) && this.script == script && start == Initial(pid, stateFile, pidFile) && used == 0
    {
      state := DaemonState(pid, 0, Starting, 0, 0, "");
      restartCount, workers, pids, pending, received := 0, [], [], 0, false;
      this.stateFile, this.pidFile, owned, stateOwned, removeFailed := stateFile, pidFile, false, false, false;
      this.script, used := script, 0;
      start := Initial(pid, stateFile, pidFile);
    }

    ghost function Here(place: Place): System
      reads this
    {
      System(place, state, restartCount, workers, pids, pending, received, stateFile, pidFile, owned, stateOwned,
             removeFailed)
    }

    /** The process has followed the script so far, as a run of the machine, up to this place. */
    ghost predicate At(place: Place)
      reads this
    {
      used <= |script| && Run(start, script[..used]) == Some(Here(place))
    }

    /** The script ends here, or goes on with something that cannot happen now. */
    ghost predicate Stuck(place: Place)
      reads this
    {
      used < |script| ==> Next(Here(place), script[used]).None?
    }

    /** Lets signals and exits happen until the next event of the supervisor itself, if any. */
    method Environment(place: Place) returns (cut: bool)
      requires At(place)
      modifies this`pending, this`workers, this`used
      ensures At(place) && used >= old(used) && |workers| == |old(workers)|
      ensures workers == old(workers) || (workers != [] && old(workers)[|workers| - 1].Alive?)
      ensures cut ==> Stuck(place)
      ensures !cut ==> used < |script| && !script[used].SignalArrives? && !script[used].WorkerExits?
    {
      hide Run;
      while used < |script|
        invariant At(place) && used >= old(used) && |workers| == |old(workers)|
        invariant workers == old(workers) || (workers != [] && old(workers)[|workers| - 1].Alive?)
      {
        RunOneMore(start, script, used);
        match script[used]
        case SignalArrives =>
          if !Listening(place) { return true; }
          pending := if pending < 2 then pending + 1 else 2;
          used := used + 1;
        case WorkerExits(exit) =>
          if workers == [] || !workers[|workers| - 1].Alive? { return true; }
          workers := workers[|workers| - 1 := Exited(exit)];
          used := used + 1;
        case _ => return false;
      }
      return true;
    }

    /** Writes the state file, which an error leaves as it was. */
    method WriteState(ok: bool)
      modifies this`stateFile, this`stateOwned
      ensures stateFile == (if ok then Some(state) else old(stateFile)) && stateOwned == (ok || old(stateOwned))
    {
      if ok {
        stateFile, stateOwned := Some(state), true;
      }
    }

    /** The check for another supervisor, then the pid file. */
    method Enter() returns (where: Place, cut: bool)
      requires At(Begin)
      modifies this
      ensures At(where) && used >= old(used)
      ensures if cut then where.Begin? && Stuck(where) else where == PidWritten || where == Returned(true)
    {
      hide Run;
      cut := Environment(Begin);
      if cut { return Begin, true; }
      RunOneMore(start, script, used);
      match script[used]
      case FindsAnother =>
        used := used + 1;
        return Returned(true), false;
      case WritesPid(ok) =>
        used := used + 1;
        if !ok { return Returned(true), false; }
        pidFile, owned := Some(state.supervisorPid), true;
        return PidWritten, false;
      case _ => return Begin, true;
    }

    method WriteFirst() returns (where: Place, cut: bool)
      requires At(PidWritten)
      modifies this
      ensures At(where) && used >= old(used)
      ensures if cut then where.PidWritten? && Stuck(where) else where == AtLoop || where == Leaving(true)
    {
      hide Run;
      cut := Environment(PidWritten);
      if cut { return PidWritten, true; }
      RunOneMore(start, script, used);
      match script[used]
      case WritesFirst(ok) =>
        used := used + 1;
        WriteState(ok);
        return if ok then AtLoop else Leaving(true), false;
      case _ => return PidWritten, true;
    }

    method StartWorker() returns (where: Place, cut: bool)
      requires At(AtLoop)
      modifies this
      ensures At(where) && used >= old(used)
      ensures if cut then where.AtLoop? && Stuck(where) else where == Started || where == Leaving(true)
    {
      hide Run, Next;
      cut := Environment(AtLoop);
      if cut { return AtLoop, true; }
      RunOneMore(start, script, used);
      if Next(Here(AtLoop), script[used]).Some? { Choices(Here(AtLoop), script[used]); }
      StartStep(Here(AtLoop), script[used]);
      match script[used]
      case Starts(pid) =>
        if pid == 0 { return AtLoop, true; }
        used := used + 1;
        workers, pids := workers + [Alive], pids + [pid];
        state := state.(childPid := pid, status := Running, restartCount := restartCount, lastError := "");
        return Started, false;
      case StartFails(text, wrote) =>
        used := used + 1;
        state := state.(status := Error, childPid := 0, lastError := text);
        WriteState(wrote);
        return Leaving(true), false;
      case _ => return AtLoop, true;
    }

    method WriteRunning() returns (where: Place, cut: bool)
      requires At(Started)
      modifies this
      ensures At(where) && used >= old(used)
      ensures if cut then where.Started? && Stuck(where) else where == Waiting || where == Leaving(true)
    {
      hide Run;
      cut := Environment(Started);
      if cut || workers == [] { return Started, true; }
      RunOneMore(start, script, used);
      match script[used]
      case WritesRunning(ok) =>
        used := used + 1;
        WriteState(ok);
        if !ok {
          workers := workers[|workers| - 1 := Killed];
          return Leaving(true), false;
        }
        return Waiting, false;
      case _ => return Started, true;
    }

    method Reap(exit: Exit, status: Status)
      requires workers != []
      modifies this`workers, this`state
      ensures workers == old(workers)[|old(workers)| - 1 := Reaped]
      ensures state == old(state).(childPid := 0, lastExitCode := exit.code, lastError := exit.text, status := status)
    {
      workers := workers[|workers| - 1 := Reaped];
      state := state.(childPid := 0, lastExitCode := exit.code, lastError := exit.text, status := status);
    }

    method StopOnSignal(wrote: bool)
      requires At(Waiting) && used < |script| && script[used] == TakesSignal(wrote) && pending > 0
      modifies this
      ensures At(StopWait) && used == old(used) + 1
    {
      hide Run;
      RunOneMore(start, script, used);
      used := used + 1;
      pending, received := pending - 1, true;
      state := state.(status := Stopping);
      WriteState(wrote);
    }

    /** Records an exit nobody asked for. */
    method NoteExit(wrote: bool)
      requires At(Waiting) && used < |script| && script[used] == TakesExit(wrote)
      requires workers != [] && workers[|workers| - 1].Exited?
      modifies this
      ensures At(Pausing) && used == old(used) + 1
    {
      hide Run, Next;
      RunOneMore(start, script, used);
      ExitStep(Here(Waiting), wrote);
      used := used + 1;
      Reap(workers[|workers| - 1].exit, Restarting);
      restartCount := restartCount + 1;
      state := state.(restartCount := restartCount);
      WriteState(wrote);
    }

    /** Waits for whichever comes first, a signal or the worker's exit. */
    method Wait() returns (where: Place, cut: bool)
      requires At(Waiting)
      modifies this
      ensures At(where) && used >= old(used)
      ensures if cut then where.Waiting? && Stuck(where) else where == StopWait || where == Pausing
    {
      hide Run, Next;
      cut := Environment(Waiting);
      if cut { return Waiting, true; }
      if Next(Here(Waiting), script[used]).Some? { Choices(Here(Waiting), script[used]); }
      match script[used]
      case TakesSignal(wrote) =>
        if pending == 0 { return Waiting, true; }
        StopOnSignal(wrote);
        return StopWait, false;
      case TakesExit(wrote) =>
        if workers == [] || !workers[|workers| - 1].Exited? { return Waiting, true; }
        NoteExit(wrote);
        return Pausing, false;
      case _ => return Waiting, true;
    }

    method KillWorker()
      requires At(StopWait) && used < |script| && script[used] == KillsAfterTimeout
      requires workers != [] && workers[|workers| - 1].Alive?
      modifies this`workers, this`used
      ensures At(StopWait) && used == old(used) + 1 && workers != [] && workers[|workers| - 1].Exited?
    {
      hide Run;
      RunOneMore(start, script, used);
      used := used + 1;
      workers := workers[|workers| - 1 := Exited(Exit(-1, "signal: killed"))];
    }

    method NoteStop(wrote: bool)
      requires At(StopWait) && used < |script| && script[used] == StopsWith(wrote)
      requires workers != [] && workers[|workers| - 1].Exited?
      modifies this
      ensures At(Leaving(false)) && used == old(used) + 1
    {
      hide Run;
      RunOneMore(start, script, used);
      used := used + 1;
      Reap(workers[|workers| - 1].exit, Stopped);
      WriteState(wrote);
    }

    /** Waits for the signalled worker, and kills it if it takes too long. */
    method WaitForStop() returns (where: Place, cut: bool)
      requires At(StopWait)
      modifies this
      ensures At(where) && used >= old(used)
      ensures if cut then where.StopWait? && Stuck(where) else where == Leaving(false)
    {
      hide Run, Next;
      cut := Environment(StopWait);
      if cut { return StopWait, true; }
      if Next(Here(StopWait), script[used]).Some? { Choices(Here(StopWait), script[used]); }
      if workers == [] { return StopWait, true; }
      if script[used].KillsAfterTimeout? && workers[|workers| - 1].Alive? {
        KillWorker();
        cut := Environment(StopWait);
        if cut { return StopWait, true; }
      }
      if Next(Here(StopWait), script[used]).Some? { Choices(Here(StopWait), script[used]); }
      match script[used]
      case StopsWith(wrote) =>
        if !workers[|workers| - 1].Exited? { return StopWait, true; }
        NoteStop(wrote);
        return Leaving(false), false;
      case _ => return StopWait, true;
    }

    method StopInPause(wrote: bool)
      requires At(Pausing) && used < |script| && script[used] == TakesSignalInPause(wrote) && pending > 0
      modifies this
      ensures At(Leaving(false)) && used == old(used) + 1
    {
      hide Run;
      RunOneMore(start, script, used);
      used := used + 1;
      pending, received := pending - 1, true;
      state := state.(status := Stopped);
      WriteState(wrote);
    }

    method EndPause()
      requires At(Pausing) && used < |script| && script[used] == PauseEnds
      modifies this`used
      ensures At(AtLoop) && used == old(used) + 1
    {
      hide Run;
      RunOneMore(start, script, used);
      used := used + 1;
    }

    method Pause() returns (where: Place, cut: bool)
      requires At(Pausing)
      modifies this
      ensures At(where) && used >= old(used) && (!cut ==> used > old(used))
      ensures if cut then where.Pausing? && Stuck(where) else where == AtLoop || where == Leaving(false)
    {
      hide Run, Next;
      cut := Environment(Pausing);
      if cut { return Pausing, true; }
      if Next(Here(Pausing), script[used]).Some? { Choices(Here(Pausing), script[used]); }
      match script[used]
      case PauseEnds =>
        EndPause();
        return AtLoop, false;
      case TakesSignalInPause(wrote) =>
        if pending == 0 { return Pausing, true; }
        StopInPause(wrote);
        return Leaving(false), false;
      case _ => return Pausing, true;
    }

    /** Start, wait, pause, until a signal or an error ends it. */
    method Supervise() returns (where: Place, cut: bool)
      requires At(AtLoop)
      modifies this
      ensures At(where) && (if cut then Stuck(where) else where.Leaving?)
    {
      hide Run;
      where, cut := AtLoop, false;
      while true
        invariant At(AtLoop)
        decreases |script| - used
      {
        where, cut := StartWorker();
        if cut || where.Leaving? { return where, cut; }
        where, cut := WriteRunning();
        if cut || where.Leaving? { return where, cut; }
        where, cut := Wait();
        if cut { return where, cut; }
        if where.StopWait? {
          where, cut := WaitForStop();
          return where, cut;
        }
        where, cut := Pause();
        if cut || where.Leaving? { return where, cut; }
      }
    }

    method RemovePidFile(place: Place) returns (where: Place, cut: bool)
      requires At(place) && place.Leaving?
      modifies this
      ensures At(where) && (if cut then where == place && Stuck(where) else where == Returned(place.failed))
    {
      hide Run;
      cut := Environment(place);
      if cut { return place, true; }
      RunOneMore(start, script, used);
      match script[used]
      case Removes(ok) =>
        used := used + 1;
        pidFile, removeFailed := if ok then None else pidFile, !ok;
        return Returned(place.failed), false;
      case _ => return place, true;
    }

    /** A whole life of the process: it ends `Returned`, or where the script leaves off, and either
        way what it did is a run of the machine. No run is beyond it: it stops short only where the
        script goes on with something that cannot happen. */
    method SupervisorMain() returns (where: Place, cut: bool)
      requires At(Begin)
      modifies this
      ensures At(where) && (if cut then Stuck(where) else where.Returned?)
    {
      hide Run, Next;
      where, cut := Enter();
      if cut || where.Returned? { return where, cut; }
      where, cut := WriteFirst();
      if cut { return where, cut; }
      if where.AtLoop? {
        where, cut := Supervise();
        if cut { return where, cut; }
      }
      where, cut := RemovePidFile(where);
    }
  }
}
