/**
  One `ManualWorker.run_once` against its `_LeaseHeartbeat` thread
  (apps/manual_import_worker/src/manual_import_worker/worker.py), as two programs whose
  atomic steps interleave in any order.

  Every call into the gateway may succeed or raise; `join` may return because its timeout
  passed; a BaseException may leave `run_once` anywhere.  The log records the gateway calls.
 */
module LeaseHeartbeat {
  import opened Text

  type Lease = string

  /** Where `run_once` stands.  `handling` marks the steps of the `except` block. */
  datatype Worker =
    | Acquiring
    | Creating
    | Launching
    | Working
    | Checking
    | SettingStop(handling: bool)
    | Joining(handling: bool)
    | Probing(handling: bool)
    | Judging
    | Taking(handling: bool)
    | Reporting(lease: Lease, handling: bool)
    | Finished

  /** Where the heartbeat thread stands. */
  datatype Beat =
    | NotStarted
    | Waiting
    | Reading
    | Sending(current: Lease)
    | Awaiting
    | Storing(renewed: Lease)
    | Recording
    | Stopping
    | Returning
    | Ended

  datatype Event =
    | Acquired(lease: Lease)
    | Sent(lease: Lease)
    | Renewed(lease: Lease)
    | RenewalFailed
    | Completed(lease: Lease)
    | FailReported(lease: Lease)

  datatype State = State(
    worker: Worker,
    beat: Beat,
    lease: Lease,
    hasThread: bool,
    stop: bool,
    failure: bool,
    log: seq<Event>)

  const INITIAL := State(Acquiring, NotStarted, "", false, false, false, [])

  datatype Action =
    | Acquire(found: Option<Lease>)
    | Create(ok: bool)
    | Launch(ok: bool)
    | Work(ok: bool)
    | Check
    | SetStop
    | Join(timedOut: bool)
    | Probe
    | Judge
    | Take
    | Report(ok: bool)
    | Escape
    | Wake
    | Read
    | Send
    | Answer(renewal: Option<Lease>)
    | Store
    | Record
    | StopAll
    | Return

  // ------------------------------------------------------------------- steps

  /** An Exception raised inside `try` enters the handler; inside the handler it leaves `run_once`. */
  function Raise(handling: bool): Worker {
    if handling then Finished else SettingStop(true)
  }

  function Reported(w: Worker): Event
    requires w.Reporting?
  {
    if w.handling then FailReported(w.lease) else Completed(w.lease)
  }

  function WorkerStep(s: State, a: Action): State {
    if a.Escape? then s.(worker := Finished)
    else
      match s.worker
      case Acquiring => if a.Acquire? then AcquireStep(s, a.found) else s
      case Creating =>
        if !a.Create? then s
        else if a.ok then s.(worker := Launching, hasThread := true)
        else s.(worker := Raise(false))
      case Launching =>
        if !a.Launch? then s
        else if a.ok then s.(worker := Working, beat := Waiting)
        else s.(worker := Raise(false))
      case Working => if a.Work? then s.(worker := if a.ok then Checking else Raise(false)) else s
      case Checking => if a.Check? then s.(worker := if s.failure then Raise(false) else SettingStop(false)) else s
      case Finished => s
      case _ => FinishStep(s, a)
  }

  function AcquireStep(s: State, found: Option<Lease>): State {
    if found.None? then s.(worker := Finished)
    else s.(worker := Creating, lease := found.value, log := s.log + [Acquired(found.value)])
  }

  /** The steps of `stop`, and the report that follows it. */
  function FinishStep(s: State, a: Action): State {
    match s.worker
    case SettingStop(h) =>
      if a.SetStop? then s.(stop := true, worker := if s.hasThread then Joining(h) else AfterJoin(h)) else s
    case Joining(h) =>
      if !a.Join? then s
      else if s.beat.NotStarted? then s.(worker := Raise(h))
      else if s.beat.Ended? || a.timedOut then s.(worker := Probing(h))
      else s
    case Probing(h) => if a.Probe? then s.(worker := if s.beat.Ended? then AfterJoin(h) else Raise(h)) else s
    case Judging => if a.Judge? then s.(worker := if s.failure then Raise(false) else Taking(false)) else s
    case Taking(h) => if a.Take? then s.(worker := Reporting(s.lease, h)) else s
    case Reporting(_, h) => if a.Report? then ReportStep(s, a.ok) else s
    case _ => s
  }

  function ReportStep(s: State, ok: bool): State
    requires s.worker.Reporting?
  {
    s.(worker := if ok then Finished else Raise(s.worker.handling), log := s.log + [Reported(s.worker)])
  }

  /** `stop` asks about a failed renewal only outside the handler. */
  function AfterJoin(handling: bool): Worker {
    if handling then Taking(true) else Judging
  }

  function BeatStep(s: State, a: Action): State {
    match s.beat
    case Waiting => if a.Wake? then s.(beat := if s.stop then Returning else Reading) else s
    case Reading => if a.Read? then s.(beat := Sending(s.lease)) else s
    case Sending(l) => if a.Send? then s.(beat := Awaiting, log := s.log + [Sent(l)]) else s
    case Awaiting => if a.Answer? then AnswerStep(s, a.renewal) else s
    case Storing(l) => if a.Store? then s.(lease := l, beat := Waiting) else s
    case Recording => if a.Record? then s.(failure := true, beat := Stopping) else s
    case Stopping => if a.StopAll? then s.(stop := true, beat := Returning) else s
    case Returning => if a.Return? then s.(beat := Ended) else s
    case _ => s
  }

  function AnswerStep(s: State, renewal: Option<Lease>): State {
    if renewal.None? then s.(beat := Recording, log := s.log + [RenewalFailed])
    else s.(beat := Storing(renewal.value), log := s.log + [Renewed(renewal.value)])
  }

  predicate IsBeat(a: Action) {
    a.Wake? || a.Read? || a.Send? || a.Answer? || a.Store? || a.Record? || a.StopAll? || a.Return?
  }

  function Step(s: State, a: Action): State {
    if IsBeat(a) then BeatStep(s, a) else WorkerStep(s, a)
  }

  /** The state after any interleaving. */
  function Run(actions: seq<Action>): State {
    if actions == [] then INITIAL else Step(Run(actions[..|actions| - 1]), actions[|actions| - 1])
  }

  // ------------------------------------------------------------ the promises

  predicate IsReport(e: Event) {
    e.Completed? || e.FailReported?
  }

  predicate IsRenewal(e: Event) {
    e.Sent? || e.Renewed? || e.RenewalFailed?
  }

  /** The lease most recently granted, by acquisition or renewal. */
  function Latest(log: seq<Event>): Option<Lease> {
    if log == [] then None
    else
      var e := log[|log| - 1];
      if e.Acquired? || e.Renewed? then Some(e.lease) else Latest(log[..|log| - 1])
  }

  predicate SomeReport(log: seq<Event>) {
    exists i :: 0 <= i < |log| && IsReport(log[i])
  }

  predicate SomeFailReport(log: seq<Event>) {
    exists i :: 0 <= i < |log| && log[i].FailReported?
  }

  /** An event that may follow a log. */
  predicate MayFollow(log: seq<Event>, e: Event) {
    && (IsReport(e) || e.Sent? ==> Latest(log) == Some(e.lease))
    && (e.Completed? ==> RenewalFailed !in log && !SomeReport(log))
    && (e.FailReported? ==> !SomeFailReport(log))
    && (IsRenewal(e) ==> !SomeReport(log))
    && (e.Acquired? ==> log == [])
  }

  ghost predicate Sound(log: seq<Event>) {
    forall i :: 0 <= i < |log| ==> MayFollow(log[..i], log[i])
  }

  // ----------------------------------------------------------- the invariant

  /** The heartbeat thread will make no further call. */
  predicate Quiet(s: State) {
    s.beat.Ended? || !s.hasThread
  }

  predicate InHandler(w: Worker) {
    match w
    case SettingStop(h) => h
    case Joining(h) => h
    case Probing(h) => h
    case Taking(h) => h
    case Reporting(_, h) => h
    case Finished => true
    case _ => false
  }

  predicate ThreadFacts(s: State) {
    && (!s.hasThread ==> s.beat.NotStarted?)
    && (s.worker.Acquiring? || s.worker.Creating? ==> !s.hasThread)
    && (s.hasThread && s.beat.NotStarted? ==> s.worker.Launching? || InHandler(s.worker))
    && (s.worker.Launching? ==> s.beat.NotStarted?)
    && (s.worker.Working? || s.worker.Checking? ==> s.hasThread)
    && (!s.hasThread && !s.worker.Acquiring? && !s.worker.Creating? ==> InHandler(s.worker))
    && (s.worker.Joining? ==> s.hasThread)
    && (s.worker.Probing? ==> s.hasThread && !s.beat.NotStarted?)
    && (s.worker.Joining? || s.worker.Probing? ==> s.stop)
    && (s.worker.Judging? || s.worker.Taking? || s.worker.Reporting? ==> Quiet(s) && s.stop)
    && (s.beat.Returning? || s.beat.Ended? ==> s.stop)
    && (!s.beat.NotStarted? ==> s.hasThread && s.log != [])
  }

  predicate LeaseFacts(s: State) {
    && (s.worker.Acquiring? ==> s.log == [])
    && (s.log == [] ==> s.worker.Acquiring? || (s.worker.Finished? && !s.hasThread))
    && (s.log != [] ==> Latest(s.log) == Some(if s.beat.Storing? then s.beat.renewed else s.lease))
    && (s.worker.Reporting? ==> s.worker.lease == s.lease)
    && (s.beat.Sending? ==> s.beat.current == s.lease)
  }

  predicate FailureFacts(s: State) {
    && (RenewalFailed in s.log <==> s.failure || s.beat.Recording?)
    && (s.beat.Stopping? ==> s.failure)
    && ((s.worker == Taking(false) || (s.worker.Reporting? && !s.worker.handling)) ==> !s.failure)
  }

  predicate ReportFacts(s: State) {
    && (SomeReport(s.log) ==> Quiet(s) && InHandler(s.worker))
    && (SomeFailReport(s.log) ==> s.worker.Finished?)
  }

  ghost predicate Inv(s: State) {
    ThreadFacts(s) && LeaseFacts(s) && FailureFacts(s) && ReportFacts(s) && Sound(s.log)
  }

  // ------------------------------------------------------ every step keeps it

  lemma {:induction false} LogGrows(log: seq<Event>, e: Event)
    ensures Latest(log + [e]) == if e.Acquired? || e.Renewed? then Some(e.lease) else Latest(log)
    ensures SomeReport(log + [e]) <==> SomeReport(log) || IsReport(e)
    ensures SomeFailReport(log + [e]) <==> SomeFailReport(log) || e.FailReported?
    ensures RenewalFailed in log + [e] <==> RenewalFailed in log || e.RenewalFailed?
    ensures Sound(log) && MayFollow(log, e) ==> Sound(log + [e])
  {
    var longer := log + [e];
    assert longer[..|log|] == log;
    assert forall i :: 0 <= i < |log| ==> longer[i] == log[i] && longer[..i] == log[..i];
    assert longer[|log|] == e;
  }

  lemma {:induction false} AnswerKeeps(s: State, renewal: Option<Lease>)
    requires Inv(s) && s.beat.Awaiting?
    ensures Inv(AnswerStep(s, renewal))
  {
    LogGrows(s.log, if renewal.None? then RenewalFailed else Renewed(renewal.value));
  }

  lemma {:induction false} BeatStepKeeps(s: State, a: Action)
    requires Inv(s)
    ensures Inv(BeatStep(s, a))
  {
    if s.beat.Sending? && a.Send? {
      LogGrows(s.log, Sent(s.beat.current));
    } else if s.beat.Awaiting? && a.Answer? {
      AnswerKeeps(s, a.renewal);
    }
  }

  lemma {:induction false} ReportKeeps(s: State, ok: bool)
    requires Inv(s) && s.worker.Reporting?
    ensures Inv(ReportStep(s, ok))
  {
    LogGrows(s.log, Reported(s.worker));
  }

  lemma {:induction false} AcquireKeeps(s: State, found: Option<Lease>)
    requires Inv(s) && s.worker.Acquiring?
    ensures Inv(AcquireStep(s, found))
  {
    if found.Some? {
      LogGrows(s.log, Acquired(found.value));
    }
  }

  lemma {:induction false} StopKeeps(s: State, a: Action)
    requires Inv(s) && (s.worker.SettingStop? || s.worker.Joining? || s.worker.Probing?)
    ensures Inv(FinishStep(s, a))
  {
  }

  lemma {:induction false} TakeKeeps(s: State, a: Action)
    requires Inv(s) && (s.worker.Judging? || s.worker.Taking?)
    ensures Inv(FinishStep(s, a))
  {
  }

  lemma {:induction false} FinishStepKeeps(s: State, a: Action)
    requires Inv(s)
    ensures Inv(FinishStep(s, a))
  {
    match s.worker
    case SettingStop(_) => StopKeeps(s, a);
    case Joining(_) => StopKeeps(s, a);
    case Probing(_) => StopKeeps(s, a);
    case Judging => TakeKeeps(s, a);
    case Taking(_) => TakeKeeps(s, a);
    case Reporting(_, _) => if a.Report? { ReportKeeps(s, a.ok); }
    case _ =>
  }

  lemma {:induction false} EscapeKeeps(s: State)
    requires Inv(s)
    ensures Inv(s.(worker := Finished))
  {
  }

  lemma {:induction false} StartKeeps(s: State, a: Action)
    requires Inv(s) && !a.Escape? && (s.worker.Creating? || s.worker.Launching?)
    ensures Inv(WorkerStep(s, a))
  {
  }

  lemma {:induction false} WorkKeeps(s: State, a: Action)
    requires Inv(s) && !a.Escape? && (s.worker.Working? || s.worker.Checking?)
    ensures Inv(WorkerStep(s, a))
  {
  }

  lemma {:induction false} WorkerStepKeeps(s: State, a: Action)
    requires Inv(s)
    ensures Inv(WorkerStep(s, a))
  {
    if a.Escape? {
      EscapeKeeps(s);
    } else {
      match s.worker
      case Acquiring => if a.Acquire? { AcquireKeeps(s, a.found); }
      case Creating => StartKeeps(s, a);
      case Launching => StartKeeps(s, a);
      case Working => WorkKeeps(s, a);
      case Checking => WorkKeeps(s, a);
      case Finished =>
      case _ => FinishStepKeeps(s, a);
    }
  }

  lemma {:induction false} StepKeeps(s: State, a: Action)
    requires Inv(s)
    ensures Inv(Step(s, a))
  {
    WorkerStepKeeps(s, a);
    BeatStepKeeps(s, a);
  }

  lemma {:induction false} RunKeeps(actions: seq<Action>)
    ensures Inv(Run(actions))
  {
    if actions != [] {
      var before := actions[..|actions| - 1];
      RunKeeps(before);
      StepKeeps(Run(before), actions[|actions| - 1]);
    }
  }

  // ------------------------------------------------------------ main results

  /** Whenever `complete` or `fail` is about to be called, the thread has ended or never existed,
      the lease in hand is the latest one granted, and for `complete` no renewal has failed. */
  lemma {:induction false} ReportsAreSafe(actions: seq<Action>)
    ensures var s := Run(actions);
      s.worker.Reporting? ==>
        && (s.beat.Ended? || s.beat.NotStarted?)
        && Latest(s.log) == Some(s.worker.lease)
        && (!s.worker.handling ==> RenewalFailed !in s.log)
  {
    RunKeeps(actions);
  }

  /** The same over the calls the gateway sees: every report carries the latest lease granted,
      a completion means no renewal failed in the whole run, and nothing follows a report but one
      failure report, with the same lease, after a completion call that raised. */
  lemma {:induction false} GatewaySeesSafeReports(actions: seq<Action>, i: nat)
    requires i < |Run(actions).log| && IsReport(Run(actions).log[i])
    ensures var log := Run(actions).log;
      && Latest(log[..i]) == Some(log[i].lease)
      && (log[i].Completed? ==> RenewalFailed !in log)
      && |log| <= i + 2
      && (i + 1 < |log| ==> log[i].Completed? && log[i + 1] == FailReported(log[i].lease))
  {
    RunKeeps(actions);
    var log := Run(actions).log;
    assert MayFollow(log[..i], log[i]);
    AtMostTwo(log, i);
    if i + 1 < |log| {
      SameLease(log, i);
    }
    if log[i].Completed? {
      forall k | 0 <= k < |log| ensures log[k] != RenewalFailed {
        if k > i {
          FollowsReport(log, i, k);
        } else if k < i {
          assert log[..i][k] == log[k];
        }
      }
    }
  }

  /** After a report only the report of a failure can follow. */
  lemma {:induction false} FollowsReport(log: seq<Event>, i: nat, j: nat)
    requires Sound(log) && i < j < |log| && IsReport(log[i])
    ensures log[j].FailReported? && log[i].Completed?
  {
    assert MayFollow(log[..j], log[j]);
    assert log[..j][i] == log[i];
  }

  lemma {:induction false} AtMostTwo(log: seq<Event>, i: nat)
    requires Sound(log) && i < |log| && IsReport(log[i])
    ensures |log| <= i + 2
  {
    if |log| > i + 2 {
      FollowsReport(log, i, i + 1);
      FollowsReport(log, i + 1, i + 2);
    }
  }

  lemma {:induction false} SameLease(log: seq<Event>, i: nat)
    requires Sound(log) && i + 1 < |log| && IsReport(log[i])
    ensures log[i].Completed? && log[i + 1] == FailReported(log[i].lease)
  {
    FollowsReport(log, i, i + 1);
    assert MayFollow(log[..i], log[i]) && MayFollow(log[..i + 1], log[i + 1]);
    assert log[..i + 1] == log[..i] + [log[i]];
    LogGrows(log[..i], log[i]);
  }

  // ------------------------------------------------------- the thread ends

  /** How many of its own steps the thread still takes once it has been told to stop. */
  function Distance(b: Beat): nat {
    match b
    case NotStarted => 0
    case Ended => 0
    case Returning => 1
    case Waiting => 2
    case Stopping => 2
    case Storing(_) => 3
    case Recording => 3
    case Awaiting => 4
    case Sending(_) => 5
    case Reading => 6
  }

  /** The step the thread takes next, given what the gateway answers. */
  function NextBeat(b: Beat, answer: Option<Lease>): Action {
    match b
    case Reading => Read
    case Sending(_) => Send
    case Awaiting => Answer(answer)
    case Storing(_) => Store
    case Recording => Record
    case Stopping => StopAll
    case Returning => Return
    case _ => Wake
  }

  function Beats(s: State, answers: seq<Option<Lease>>): State
    decreases |answers|
  {
    if answers == [] then s else Beats(Step(s, NextBeat(s.beat, answers[0])), answers[1..])
  }

  /** Once the stop event is set the thread ends within six of its own steps, whatever the gateway
      answers. */
  lemma {:induction false} StopEndsThread(s: State, answers: seq<Option<Lease>>)
    requires s.stop && !s.beat.NotStarted? && |answers| >= Distance(s.beat)
    ensures Beats(s, answers).beat.Ended?
    decreases |answers|
  {
    if answers != [] {
      StopEndsThread(Step(s, NextBeat(s.beat, answers[0])), answers[1..]);
    }
  }

  // ------------------------------------------------- the normal course works

  function Continue(s: State, actions: seq<Action>): State
    decreases |actions|
  {
    if actions == [] then s else Continue(Step(s, actions[0]), actions[1..])
  }

  lemma {:induction false} ContinueRun(before: seq<Action>, actions: seq<Action>)
    ensures Continue(Run(before), actions) == Run(before + actions)
    decreases |actions|
  {
    if actions == [] {
      assert before + actions == before;
    } else {
      var next := before + [actions[0]];
      assert next[..|next| - 1] == before;
      ContinueRun(next, actions[1..]);
      assert next + actions[1..] == before + actions;
    }
  }

  lemma {:induction false} ContinueCons(s: State, a: Action, rest: seq<Action>)
    ensures Continue(s, [a] + rest) == Continue(Step(s, a), rest)
  {
    assert ([a] + rest)[1..] == rest;
  }

  /** The run can still complete: no renewal has failed and the handler has not been entered. */
  predicate Open(s: State) {
    RenewalFailed !in s.log && !InHandler(s.worker)
  }

  /** The schedule that lets the renewal in hand finish and the worker go on. */
  function Drive(s: State, lease: Lease): Action {
    match s.worker
    case Acquiring => Acquire(Some(lease))
    case Creating => Create(true)
    case Launching => Launch(true)
    case Working => Work(true)
    case Checking => Check
    case SettingStop(_) => SetStop
    case Joining(_) => if s.beat.Ended? then Join(false) else NextBeat(s.beat, Some(lease))
    case Probing(_) => if s.beat.Ended? then Probe else NextBeat(s.beat, Some(lease))
    case Judging => Judge
    case Taking(_) => Take
    case _ => Report(true)
  }

  function Rank(w: Worker): nat {
    match w
    case Acquiring => 11
    case Creating => 10
    case Launching => 9
    case Working => 8
    case Checking => 7
    case SettingStop(_) => 6
    case Joining(_) => 5
    case Probing(_) => 4
    case Judging => 3
    case Taking(_) => 2
    case Reporting(_, _) => 1
    case Finished => 0
  }

  lemma {:induction false} DriveWorker(s: State, lease: Lease)
    requires ThreadFacts(s) && FailureFacts(s) && Open(s) && !s.worker.Reporting? && !IsBeat(Drive(s, lease))
    ensures var s' := WorkerStep(s, Drive(s, lease));
      && !InHandler(s'.worker) && Rank(s'.worker) < Rank(s.worker)
      && (s'.log == s.log || s'.log == s.log + [Acquired(lease)])
  {
  }

  lemma {:induction false} DriveBeat(s: State, lease: Lease)
    requires ThreadFacts(s) && FailureFacts(s) && Open(s) && IsBeat(Drive(s, lease))
    ensures var s' := BeatStep(s, Drive(s, lease));
      && s'.worker == s.worker && Distance(s'.beat) < Distance(s.beat)
      && (s'.log == s.log || (exists l: Lease :: s'.log == s.log + [Sent(l)]) || s'.log == s.log + [Renewed(lease)])
  {
  }

  /** The worker has just reported completion, after whatever `s` had reported. */
  predicate CompletedAfter(s: State, s': State) {
    |s.log| < |s'.log| && s.log <= s'.log && s'.log[|s'.log| - 1].Completed?
  }

  lemma {:induction false} Completes(s: State, lease: Lease) returns (actions: seq<Action>)
    requires Inv(s) && Open(s)
    ensures CompletedAfter(s, Continue(s, actions)) && Continue(s, actions).worker.Finished?
    decreases Rank(s.worker), Distance(s.beat)
  {
    if s.worker.Reporting? {
      actions := [Report(true)] + [];
      ContinueCons(s, Report(true), []);
      ReportCompletes(s);
    } else {
      DriveOn(s, lease);
      var s' := Step(s, Drive(s, lease));
      var rest := Completes(s', lease);
      actions := [Drive(s, lease)] + rest;
      ContinueCons(s, Drive(s, lease), rest);
    }
  }

  lemma {:induction false} ReportCompletes(s: State)
    requires s.worker.Reporting? && !s.worker.handling
    ensures var s' := Step(s, Report(true)); CompletedAfter(s, s') && s'.worker.Finished?
  {
  }

  lemma {:induction false} DriveOn(s: State, lease: Lease)
    requires Inv(s) && Open(s) && !s.worker.Reporting?
    ensures var s' := Step(s, Drive(s, lease));
      && Inv(s') && Open(s') && s.log <= s'.log
      && (Rank(s'.worker) < Rank(s.worker) || (s'.worker == s.worker && Distance(s'.beat) < Distance(s.beat)))
  {
    StepKeeps(s, Drive(s, lease));
    if IsBeat(Drive(s, lease)) {
      DriveBeat(s, lease);
    } else {
      DriveWorker(s, lease);
    }
  }

  /** Nothing but a run that can still complete reports completion. */
  lemma {:induction false} ClosedWorker(s: State, a: Action)
    requires ThreadFacts(s) && FailureFacts(s) && !Open(s)
    ensures var s' := WorkerStep(s, a);
      && (InHandler(s.worker) ==> InHandler(s'.worker))
      && (s'.log == s.log || (exists e: Event :: s'.log == s.log + [e] && !e.Completed?))
  {
    var s' := WorkerStep(s, a);
    if s.worker.Reporting? && a.Report? {
      assert s'.log == s.log + [Reported(s.worker)];
    } else if s.worker.Acquiring? && a.Acquire? && a.found.Some? {
      assert s'.log == s.log + [Acquired(a.found.value)];
    } else {
      assert s'.log == s.log;
    }
  }

  lemma {:induction false} ClosedBeat(s: State, a: Action)
    ensures var s' := BeatStep(s, a);
      && s'.worker == s.worker
      && (s'.log == s.log || (exists e: Event :: s'.log == s.log + [e] && !e.Completed?))
  {
    var s' := BeatStep(s, a);
    if s.beat.Sending? && a.Send? {
      assert s'.log == s.log + [Sent(s.beat.current)];
    } else if s.beat.Awaiting? && a.Answer? {
      assert s'.log == s.log + [if a.renewal.None? then RenewalFailed else Renewed(a.renewal.value)];
    } else {
      assert s'.log == s.log;
    }
  }

  lemma {:induction false} ClosedStays(s: State, a: Action)
    requires ThreadFacts(s) && FailureFacts(s) && !Open(s)
    ensures var s' := Step(s, a);
      !Open(s') && (s'.log == s.log || (exists e: Event :: s'.log == s.log + [e] && !e.Completed?))
  {
    if IsBeat(a) {
      ClosedBeat(s, a);
    } else {
      ClosedWorker(s, a);
    }
  }

  lemma {:induction false} ClosedNeverCompletes(s: State, actions: seq<Action>)
    requires Inv(s) && !Open(s)
    ensures !CompletedAfter(s, Continue(s, actions))
    decreases |actions|
  {
    NoNewCompletion(s, s.log, actions);
  }

  lemma {:induction false} NoNewCompletion(s: State, before: seq<Event>, actions: seq<Action>)
    requires Inv(s) && !Open(s) && before <= s.log
    requires |before| < |s.log| ==> !s.log[|s.log| - 1].Completed?
    ensures var log := Continue(s, actions).log; |before| < |log| ==> !log[|log| - 1].Completed?
    decreases |actions|
  {
    if actions != [] {
      StepKeeps(s, actions[0]);
      ClosedStays(s, actions[0]);
      NoNewCompletion(Step(s, actions[0]), before, actions[1..]);
    }
  }

  /** From any point of any run, completion can still be reported exactly when no renewal has failed
      and the exception handler has not been entered; the renewal in hand is then allowed to finish.
      With `before` empty: a run can complete. */
  lemma {:induction false} CompletionReachable(before: seq<Action>)
    ensures Open(Run(before)) <==> exists actions :: CompletedAfter(Run(before), Run(before + actions))
  {
    RunKeeps(before);
    if Open(Run(before)) {
      var actions := Completes(Run(before), "renewed");
      ContinueRun(before, actions);
      assert CompletedAfter(Run(before), Run(before + actions));
    } else {
      forall actions ensures !CompletedAfter(Run(before), Run(before + actions)) {
        ContinueRun(before, actions);
        ClosedNeverCompletes(Run(before), actions);
      }
    }
  }

  // ------------------------------------------------ the lease is renewed

  /** A renewal can still be sent: the thread is about to be launched, or is in its loop and not stopped,
      or has decided to send. */
  predicate MayRenew(s: State) {
    match s.beat
    case NotStarted => !s.stop && (s.worker.Acquiring? || s.worker.Creating? || s.worker.Launching?)
    case Waiting => !s.stop
    case Awaiting => !s.stop
    case Storing(_) => !s.stop
    case Reading => true
    case Sending(_) => true
    case _ => false
  }

  /** The thread has just sent a renewal, after whatever `s` had logged. */
  predicate RenewedAfter(s: State, s': State) {
    |s.log| < |s'.log| && s.log <= s'.log && s'.log[|s'.log| - 1].Sent?
  }

  /** A schedule on which nothing but the next renewal happens. */
  function Renew(s: State): Action {
    match s.beat
    case NotStarted =>
      if s.worker.Acquiring? then Acquire(Some("lease")) else if s.worker.Creating? then Create(true) else Launch(true)
    case Waiting => Wake
    case Reading => Read
    case Sending(_) => Send
    case Awaiting => Answer(Some("renewed"))
    case _ => Store
  }

  /** How far the next renewal still is. */
  function RenewRank(s: State): nat {
    match s.beat
    case NotStarted => if s.worker.Acquiring? then 9 else if s.worker.Creating? then 8 else 7
    case Awaiting => 5
    case Storing(_) => 4
    case Waiting => 3
    case Reading => 2
    case _ => 1
  }

  lemma {:induction false} RenewOn(s: State)
    requires MayRenew(s) && !s.beat.Sending?
    ensures var s' := Step(s, Renew(s));
      MayRenew(s') && RenewRank(s') < RenewRank(s) && (s'.log == s.log || exists e: Event :: s'.log == s.log + [e])
  {
    var s' := Step(s, Renew(s));
    if s.beat.NotStarted? && s.worker.Acquiring? {
      assert s'.log == s.log + [Acquired("lease")];
    } else if s.beat.Awaiting? {
      assert s'.log == s.log + [Renewed("renewed")];
    } else {
      assert s'.log == s.log;
    }
  }

  lemma {:induction false} Renews(s: State) returns (actions: seq<Action>)
    requires MayRenew(s)
    ensures RenewedAfter(s, Continue(s, actions)) && forall i :: 0 <= i < |actions| ==> !actions[i].Escape?
    decreases RenewRank(s)
  {
    if s.beat.Sending? {
      actions := [Send] + [];
      ContinueCons(s, Send, []);
      assert Step(s, Send).log == s.log + [Sent(s.beat.current)];
    } else {
      RenewOn(s);
      var rest := Renews(Step(s, Renew(s)));
      actions := [Renew(s)] + rest;
      ContinueCons(s, Renew(s), rest);
    }
  }

  lemma {:induction false} NoRenewalByThread(s: State, a: Action)
    requires !MayRenew(s) && IsBeat(a)
    ensures var s' := BeatStep(s, a);
      !MayRenew(s') && (s'.log == s.log || exists e: Event :: s'.log == s.log + [e] && !e.Sent?)
  {
    var s' := BeatStep(s, a);
    if s.beat.Awaiting? && a.Answer? {
      assert s'.log == s.log + [if a.renewal.None? then RenewalFailed else Renewed(a.renewal.value)];
    } else {
      assert s'.log == s.log;
    }
  }

  lemma {:induction false} NoRenewalByWorker(s: State, a: Action)
    requires ThreadFacts(s) && !MayRenew(s)
    ensures var s' := WorkerStep(s, a);
      !MayRenew(s') && (s'.log == s.log || exists e: Event :: s'.log == s.log + [e] && !e.Sent?)
  {
    var s' := WorkerStep(s, a);
    if s.worker.Acquiring? && a.Acquire? && a.found.Some? {
      assert s'.log == s.log + [Acquired(a.found.value)];
    } else if s.worker.Reporting? && a.Report? {
      assert s'.log == s.log + [Reported(s.worker)];
    } else {
      assert s'.log == s.log;
    }
  }

  /** The log has grown from `before` by nothing, or lately by something other than a sent renewal. */
  predicate NotSent(before: seq<Event>, log: seq<Event>) {
    before <= log && (|before| < |log| ==> !log[|log| - 1].Sent?)
  }

  lemma {:induction false} NoRenewalStep(s: State, a: Action, before: seq<Event>)
    requires Inv(s) && !MayRenew(s) && NotSent(before, s.log)
    ensures Inv(Step(s, a)) && !MayRenew(Step(s, a)) && NotSent(before, Step(s, a).log)
  {
    StepKeeps(s, a);
    if IsBeat(a) {
      NoRenewalByThread(s, a);
    } else {
      NoRenewalByWorker(s, a);
    }
  }

  lemma {:induction false} NoNewRenewal(s: State, before: seq<Event>, actions: seq<Action>)
    requires Inv(s) && !MayRenew(s) && NotSent(before, s.log)
    ensures NotSent(before, Continue(s, actions).log)
    decreases |actions|
  {
    if actions != [] {
      NoRenewalStep(s, actions[0], before);
      NoNewRenewal(Step(s, actions[0]), before, actions[1..]);
    }
  }

  lemma {:induction false} StillRenews(before: seq<Action>) returns (actions: seq<Action>)
    requires MayRenew(Run(before))
    ensures NoEscape(actions) && RenewedAfter(Run(before), Run(before + actions))
  {
    actions := Renews(Run(before));
    ContinueRun(before, actions);
  }

  lemma {:induction false} NeverRenews(before: seq<Action>, actions: seq<Action>)
    requires !MayRenew(Run(before))
    ensures !RenewedAfter(Run(before), Run(before + actions))
  {
    RunKeeps(before);
    ContinueRun(before, actions);
    NoNewRenewal(Run(before), Run(before).log, actions);
  }

  /** From any point of any run, the lease can still be renewed exactly while the thread is yet to be
      launched, or in its loop and not stopped, or on its way to the gateway. */
  lemma {:induction false} RenewalReachable(before: seq<Action>)
    ensures MayRenew(Run(before)) <==>
      exists actions :: NoEscape(actions) && RenewedAfter(Run(before), Run(before + actions))
  {
    if MayRenew(Run(before)) {
      var actions := StillRenews(before);
    } else {
      forall actions ensures !RenewedAfter(Run(before), Run(before + actions)) {
        NeverRenews(before, actions);
      }
    }
  }

  // --------------------------------------------- failures do get reported

  /** A failure report can still follow: the run is not over, and the handler is not facing a thread that
      was created but never launched. */
  predicate MayFail(s: State) {
    !s.worker.Finished? && !(InHandler(s.worker) && s.hasThread && s.beat.NotStarted?)
  }

  /** The worker has just reported a failure, after whatever `s` had reported. */
  predicate FailedAfter(s: State, s': State) {
    |s.log| < |s'.log| && s.log <= s'.log && s'.log[|s'.log| - 1].FailReported?
  }

  /** A schedule on which the work raises and the thread then ends. */
  function Derail(s: State): Action {
    match s.worker
    case Acquiring => Acquire(Some("lease"))
    case Creating => Create(false)
    case Launching => Launch(true)
    case Working => Work(false)
    case Checking => Check
    case SettingStop(_) => SetStop
    case Joining(_) => if s.beat.Ended? then Join(false) else NextBeat(s.beat, Some("renewed"))
    case Probing(_) => if s.beat.Ended? then Probe else NextBeat(s.beat, Some("renewed"))
    case Judging => Judge
    case Taking(_) => Take
    case Reporting(_, h) => Report(h)
    case Finished => Escape
  }

  /** How far the worker still is from a failure report. */
  function FailRank(w: Worker): nat {
    match w
    case Acquiring => 16
    case Creating => 15
    case Launching => 14
    case Working => 13
    case Checking => 12
    case SettingStop(h) => if h then 5 else 11
    case Joining(h) => if h then 4 else 10
    case Probing(h) => if h then 3 else 9
    case Judging => 8
    case Taking(h) => if h then 2 else 7
    case Reporting(_, h) => if h then 1 else 6
    case Finished => 0
  }

  /** The failure report is about to be made. */
  predicate AtFailReport(s: State) {
    s.worker.Reporting? && s.worker.handling
  }

  lemma {:induction false} DerailWorker(s: State)
    requires ThreadFacts(s) && MayFail(s) && !AtFailReport(s) && !IsBeat(Derail(s))
    ensures var s' := WorkerStep(s, Derail(s));
      && MayFail(s') && FailRank(s'.worker) < FailRank(s.worker)
      && (s'.log == s.log || (exists e: Event :: s'.log == s.log + [e]))
  {
    var s' := WorkerStep(s, Derail(s));
    if s.worker.Reporting? {
      assert s'.log == s.log + [Reported(s.worker)];
    } else if s.worker.Acquiring? {
      assert s'.log == s.log + [Acquired("lease")];
    } else {
      assert s'.log == s.log;
    }
  }

  lemma {:induction false} DerailBeat(s: State)
    requires ThreadFacts(s) && MayFail(s) && IsBeat(Derail(s))
    ensures var s' := BeatStep(s, Derail(s));
      && s'.worker == s.worker && Distance(s'.beat) < Distance(s.beat) && MayFail(s')
      && (s'.log == s.log || (exists e: Event :: s'.log == s.log + [e]))
  {
    var s' := BeatStep(s, Derail(s));
    if s.beat.Sending? {
      assert s'.log == s.log + [Sent(s.beat.current)];
    } else if s.beat.Awaiting? {
      assert s'.log == s.log + [Renewed("renewed")];
    } else {
      assert s'.log == s.log;
    }
  }

  lemma {:induction false} DerailOn(s: State)
    requires Inv(s) && MayFail(s) && !AtFailReport(s)
    ensures var s' := Step(s, Derail(s));
      && Inv(s') && MayFail(s') && s.log <= s'.log
      && (FailRank(s'.worker) < FailRank(s.worker) || (s'.worker == s.worker && Distance(s'.beat) < Distance(s.beat)))
  {
    StepKeeps(s, Derail(s));
    if IsBeat(Derail(s)) {
      DerailBeat(s);
    } else {
      DerailWorker(s);
    }
  }

  ghost predicate NoEscape(actions: seq<Action>) {
    forall i :: 0 <= i < |actions| ==> !actions[i].Escape?
  }

  lemma {:induction false} Fails(s: State) returns (actions: seq<Action>)
    requires Inv(s) && MayFail(s)
    ensures FailedAfter(s, Continue(s, actions)) && NoEscape(actions)
    decreases FailRank(s.worker), Distance(s.beat)
  {
    if AtFailReport(s) {
      actions := [Report(true)] + [];
      ContinueCons(s, Report(true), []);
    } else {
      DerailOn(s);
      var rest := Fails(Step(s, Derail(s)));
      actions := [Derail(s)] + rest;
      ContinueCons(s, Derail(s), rest);
    }
  }

  lemma {:induction false} FailClosedStays(s: State, a: Action)
    requires ThreadFacts(s) && !MayFail(s)
    ensures var s' := Step(s, a);
      && !MayFail(s')
      && (s'.log == s.log || exists e: Event :: s'.log == s.log + [e] && !e.FailReported?)
  {
    var s' := Step(s, a);
    if s.beat.Sending? && a.Send? {
      assert s'.log == s.log + [Sent(s.beat.current)];
    } else if s.beat.Awaiting? && a.Answer? {
      assert s'.log == s.log + [if a.renewal.None? then RenewalFailed else Renewed(a.renewal.value)];
    } else {
      assert s'.log == s.log;
    }
  }

  lemma {:induction false} NoNewFailure(s: State, before: seq<Event>, actions: seq<Action>)
    requires Inv(s) && !MayFail(s) && before <= s.log
    requires |before| < |s.log| ==> !s.log[|s.log| - 1].FailReported?
    ensures var log := Continue(s, actions).log; |before| < |log| ==> !log[|log| - 1].FailReported?
    decreases |actions|
  {
    if actions != [] {
      StepKeeps(s, actions[0]);
      FailClosedStays(s, actions[0]);
      NoNewFailure(Step(s, actions[0]), before, actions[1..]);
    }
  }

  /** From any point of any run, a failure can still be reported exactly when `run_once` is not over and,
      once in the handler, the thread was launched or never created: `join` raises on a thread that was
      created but not launched. */
  lemma {:induction false} FailureReachable(before: seq<Action>)
    ensures MayFail(Run(before)) <==>
      exists actions :: NoEscape(actions) && FailedAfter(Run(before), Run(before + actions))
  {
    RunKeeps(before);
    if MayFail(Run(before)) {
      var actions := Fails(Run(before));
      ContinueRun(before, actions);
      assert NoEscape(actions) && FailedAfter(Run(before), Run(before + actions));
    } else {
      forall actions ensures !FailedAfter(Run(before), Run(before + actions)) {
        ContinueRun(before, actions);
        NoNewFailure(Run(before), Run(before).log, actions);
      }
    }
  }

  /** An exception in the body of `try`: the thread object cannot be created or launched, the work raises,
      or a failed renewal is noticed. */
  predicate Raises(s: State, a: Action) {
    || (s.worker.Creating? && a == Create(false))
    || (s.worker.Launching? && a == Launch(false))
    || (s.worker.Working? && a == Work(false))
    || (s.worker.Checking? && s.failure && a == Check)
  }

  /** After such an exception completion is never reported, and a failure still can be unless the thread
      could not be launched. */
  lemma {:induction false} RaisedIsReported(before: seq<Action>, a: Action)
    requires Raises(Run(before), a)
    ensures var next := before + [a];
      && (forall actions :: !CompletedAfter(Run(next), Run(next + actions)))
      && ((exists actions :: NoEscape(actions) && FailedAfter(Run(next), Run(next + actions))) <==> a != Launch(false))
  {
    var next := before + [a];
    assert next[..|next| - 1] == before;
    RunKeeps(before);
    assert InHandler(Run(next).worker);
    assert MayFail(Run(next)) <==> a != Launch(false);
    FailureReachable(next);
    CompletionReachable(next);
  }

  /** Inside the handler `join` met a thread that was never launched, or the thread outlived `join`. */
  ghost predicate GaveUp(actions: seq<Action>, i: nat)
    requires i < |actions|
  {
    var s := Run(actions[..i]);
    || (s.worker == Joining(true) && s.beat.NotStarted? && actions[i].Join?)
    || (s.worker == Probing(true) && !s.beat.Ended? && actions[i].Probe?)
  }

  /** Without a BaseException, a run that acquired a lease ends with the stop event set, and with a report
      unless the thread could not be joined inside the handler. */
  lemma {:induction false} FinishedHasReported(actions: seq<Action>)
    requires NoEscape(actions)
    ensures var s := Run(actions);
      s.worker.Finished? && s.log != [] ==>
        s.stop && (SomeReport(s.log) || exists i :: 0 <= i < |actions| && GaveUp(actions, i))
  {
    if actions != [] {
      var before, a := actions[..|actions| - 1], actions[|actions| - 1];
      FinishedHasReported(before);
      RunKeeps(before);
      if i :| 0 <= i < |before| && GaveUp(before, i) {
        assert before[..i] == actions[..i];
        assert GaveUp(actions, i);
      }
      ReportsStay(Run(before), a);
      OverStays(Run(before), a);
      if Ends(Run(before), a) {
        EndsWithReport(Run(before), a);
      }
      assert actions[..|before|] == before;
      assert Step(Run(before), a) == Run(actions);
      if Ends(Run(before), a) && Run(actions).log != [] && !SomeReport(Run(actions).log) {
        assert GaveUp(actions, |before|);
      }
    }
  }

  predicate Ends(s: State, a: Action) {
    !s.worker.Finished? && Step(s, a).worker.Finished?
  }

  lemma {:induction false} ReportsStay(s: State, a: Action)
    ensures SomeReport(s.log) ==> SomeReport(Step(s, a).log)
  {
    LogGrowsByOne(s, a);
    if Step(s, a).log != s.log {
      var e :| Step(s, a).log == s.log + [e];
      LogGrows(s.log, e);
    }
  }

  lemma {:induction false} OverStays(s: State, a: Action)
    ensures s.stop ==> Step(s, a).stop
    ensures s.worker.Finished? ==> Step(s, a).worker.Finished?
    ensures s.worker.Finished? && s.beat.NotStarted? ==> Step(s, a).log == s.log
  {
  }

  lemma {:induction false} LogGrowsByOne(s: State, a: Action)
    ensures var s' := Step(s, a); s'.log == s.log || exists e: Event :: s'.log == s.log + [e]
  {
    var s' := Step(s, a);
    if IsBeat(a) {
      ClosedBeat(s, a);
    } else if s.worker.Reporting? && a.Report? {
      assert s'.log == s.log + [Reported(s.worker)];
    } else if s.worker.Acquiring? && a.Acquire? && a.found.Some? {
      assert s'.log == s.log + [Acquired(a.found.value)];
    } else {
      assert s'.log == s.log;
    }
  }

  lemma {:induction false} EndsWithReport(s: State, a: Action)
    requires ThreadFacts(s) && !a.Escape? && Ends(s, a)
    ensures var s' := Step(s, a);
      || (s.worker.Acquiring? && s'.log == s.log)
      || (s'.stop && SomeReport(s'.log))
      || (s'.stop && s.worker == Joining(true) && s.beat.NotStarted? && a.Join?)
      || (s'.stop && s.worker == Probing(true) && !s.beat.Ended? && a.Probe?)
  {
    if IsBeat(a) {
      ClosedBeat(s, a);
    } else if s.worker.Reporting? {
      LogGrows(s.log, Reported(s.worker));
    } else if s.worker.Joining? || s.worker.Probing? {
      EndsInHandler(s, a);
    } else {
      EndsAtOnce(s, a);
    }
  }

  lemma {:induction false} EndsAtOnce(s: State, a: Action)
    requires !a.Escape? && !IsBeat(a) && Ends(s, a)
    requires !s.worker.Reporting? && !s.worker.Joining? && !s.worker.Probing?
    ensures s.worker.Acquiring? && Step(s, a).log == s.log
  {
  }

  lemma {:induction false} EndsInHandler(s: State, a: Action)
    requires ThreadFacts(s) && !a.Escape? && !IsBeat(a) && Ends(s, a) && (s.worker.Joining? || s.worker.Probing?)
    ensures Step(s, a).stop
    ensures s.worker.Joining? ==> s.worker.handling && s.beat.NotStarted? && a.Join?
    ensures s.worker.Probing? ==> s.worker.handling && !s.beat.Ended? && a.Probe?
  {
  }

  // --------------------------------------------------- the shared object

  /** The fields both threads update, one atomic step at a time. */
  class Process {
    var worker: Worker
    var beat: Beat
    var lease: Lease
    var hasThread: bool
    var stop: bool
    var failure: bool
    var log: seq<Event>

    ghost function View(): State
      reads this
    {
      State(worker, beat, lease, hasThread, stop, failure, log)
    }

    constructor ()
      ensures View() == INITIAL
    {
      worker, beat, lease, hasThread, stop, failure, log := Acquiring, NotStarted, "", false, false, false, [];
    }

    /** A step of `run_once`, `start` or `stop`. */
    method Advance(a: Action)
      modifies this
      ensures View() == WorkerStep(old(View()), a)
    {
      if a.Escape? {
        worker := Finished;
      } else if worker.Acquiring? && a.Acquire? {
        if a.found.None? {
          worker := Finished;
        } else {
          lease, log := a.found.value, log + [Acquired(a.found.value)];
          worker := Creating;
        }
      } else if worker.Creating? && a.Create? {
        if a.ok {
          hasThread, worker := true, Launching;
        } else {
          worker := SettingStop(true);
        }
      } else if worker.Launching? && a.Launch? {
        if a.ok {
          beat, worker := Waiting, Working;
        } else {
          worker := SettingStop(true);
        }
      } else if worker.Working? && a.Work? {
        worker := if a.ok then Checking else SettingStop(true);
      } else if worker.Checking? && a.Check? {
        worker := if failure then SettingStop(true) else SettingStop(false);
      } else if !worker.Acquiring? && !worker.Creating? && !worker.Launching? && !worker.Working?
             && !worker.Checking? && !worker.Finished? {
        FinishUp(a);
      }
    }

    /** The steps of `stop` and of the report that follows it. */
    method FinishUp(a: Action)
      modifies this
      ensures View() == FinishStep(old(View()), a)
    {
      if worker.SettingStop? && a.SetStop? {
        stop := true;
        worker := if hasThread then Joining(worker.handling) else AfterJoin(worker.handling);
      } else if worker.Joining? && a.Join? {
        if beat.NotStarted? {
          worker := Raise(worker.handling);
        } else if beat.Ended? || a.timedOut {
          worker := Probing(worker.handling);
        }
      } else if worker.Probing? && a.Probe? {
        worker := if beat.Ended? then AfterJoin(worker.handling) else Raise(worker.handling);
      } else if worker.Judging? && a.Judge? {
        worker := if failure then SettingStop(true) else Taking(false);
      } else if worker.Taking? && a.Take? {
        worker := Reporting(lease, worker.handling);
      } else if worker.Reporting? && a.Report? {
        log := log + [if worker.handling then FailReported(worker.lease) else Completed(worker.lease)];
        worker := if a.ok then Finished else Raise(worker.handling);
      }
    }

    /** The gateway answers a renewal. */
    method Receive(renewal: Option<Lease>)
      modifies this
      ensures View() == AnswerStep(old(View()), renewal)
    {
      if renewal.None? {
        log, beat := log + [RenewalFailed], Recording;
      } else {
        log, beat := log + [Renewed(renewal.value)], Storing(renewal.value);
      }
    }

    /** A step of `_run`. */
    method Beat(a: Action)
      modifies this
      ensures View() == BeatStep(old(View()), a)
    {
      if beat.Waiting? && a.Wake? {
        beat := if stop then Returning else Reading;
      } else if beat.Reading? && a.Read? {
        beat := Sending(lease);
      } else if beat.Sending? && a.Send? {
        log, beat := log + [Sent(beat.current)], Awaiting;
      } else if beat.Awaiting? && a.Answer? {
        Receive(a.renewal);
      } else if beat.Storing? && a.Store? {
        lease, beat := beat.renewed, Waiting;
      } else if beat.Recording? && a.Record? {
        failure, beat := true, Stopping;
      } else if beat.Stopping? && a.StopAll? {
        stop, beat := true, Returning;
      } else if beat.Returning? && a.Return? {
        beat := Ended;
      }
    }
  }

  /** Any schedule of the two threads over the shared object is a run, and keeps the promises. */
  method Interleave(schedule: seq<Action>) returns (p: Process)
    ensures fresh(p) && p.View() == Run(schedule)
    ensures Sound(p.log)
  {
    p := new Process();
    for i := 0 to |schedule|
      invariant fresh(p) && p.View() == Run(schedule[..i])
    {
      assert schedule[..i + 1][..i] == schedule[..i];
      if IsBeat(schedule[i]) {
        p.Beat(schedule[i]);
      } else {
        p.Advance(schedule[i]);
      }
    }
    assert schedule[..|schedule|] == schedule;
    RunKeeps(schedule);
  }
}
