/**
  How far a collection run has come: `coverage_from_status`
  (packages/collection_application/src/collection_application/run_control.py).
  Blocker wording is not modelled.
 */
module RunCoverage {
  import opened Text

  datatype WorkState =
    | Pending | Leased | RetryWait | Succeeded | DeadLetter | BlockedByPolicy | Cancelled | Superseded

  datatype Stage =
    | Discovery | Acquisition | Extraction | Normalization | Geography | EntityResolution | Quality | Export

  datatype RunState = RunCreated | RunRunning | RunPaused | RunCancelled | RunCompleted | RunBlocked

  datatype StageState = StagePending | StageRunning | StageSucceeded | StageFailed | StageBlocked | StageCancelled

  datatype Count = Count(state: WorkState, count: nat)

  datatype StageStatus = StageStatus(stage: Stage, state: StageState, counts: seq<Count>)

  datatype Status = Status(state: RunState, revision: nat, stages: seq<StageStatus>)

  /** The constructors' checks: each work state once per stage, each stage once per run. */
  ghost predicate StatesDiffer(counts: seq<Count>) {
    forall i, j :: 0 <= i < j < |counts| ==> counts[i].state != counts[j].state
  }

  ghost predicate StagesDiffer(stages: seq<StageStatus>) {
    forall i, j :: 0 <= i < j < |stages| ==> stages[i].stage != stages[j].stage
  }

  ghost predicate Valid(s: Status) {
    StagesDiffer(s.stages) && forall i :: 0 <= i < |s.stages| ==> StatesDiffer(s.stages[i].counts)
  }

  // ------------------------------------------------------------------ totals

  predicate Terminal(s: WorkState) {
    s == Succeeded || s == DeadLetter || s == BlockedByPolicy || s == Cancelled || s == Superseded
  }

  function Value(c: Count, p: WorkState -> bool): nat {
    if p(c.state) then c.count else 0
  }

  /** The recorded counts whose state satisfies `p`, added up. */
  function Recorded(counts: seq<Count>, p: WorkState -> bool): nat {
    if counts == [] then 0 else Recorded(counts[..|counts| - 1], p) + Value(counts[|counts| - 1], p)
  }

  function Is(s: WorkState): WorkState -> bool {
    (t: WorkState) => t == s
  }

  function Any(): WorkState -> bool {
    (t: WorkState) => true
  }

  datatype Coverage = Coverage(
    stage: Stage, total: int, pending: int, leased: int, retryWait: int, succeeded: int,
    deadLetter: int, blockedByPolicy: int, cancelled: int, superseded: int)
  {
    /** The sum of the eight counts. */
    function Sum(): int {
      pending + leased + retryWait + succeeded + deadLetter + blockedByPolicy + cancelled + superseded
    }

    function TerminalCount(): int {
      succeeded + deadLetter + blockedByPolicy + cancelled + superseded
    }

    /** The checks of the constructor. */
    predicate Accepted() {
      && pending >= 0 && leased >= 0 && retryWait >= 0 && succeeded >= 0
      && deadLetter >= 0 && blockedByPolicy >= 0 && cancelled >= 0 && superseded >= 0
      && total == Sum()
    }
  }

  /** Five terminal groups and three others. */
  function TerminalGroups(counts: seq<Count>): nat {
    Recorded(counts, Is(Succeeded)) + Recorded(counts, Is(DeadLetter)) + Recorded(counts, Is(BlockedByPolicy))
    + Recorded(counts, Is(Cancelled)) + Recorded(counts, Is(Superseded))
  }

  function OtherGroups(counts: seq<Count>): nat {
    Recorded(counts, Is(Pending)) + Recorded(counts, Is(Leased)) + Recorded(counts, Is(RetryWait))
  }

  lemma {:induction false} OneGroup(c: Count)
    ensures Value(c, Is(Succeeded)) + Value(c, Is(DeadLetter)) + Value(c, Is(BlockedByPolicy))
            + Value(c, Is(Cancelled)) + Value(c, Is(Superseded)) == Value(c, Terminal)
    ensures Value(c, Is(Pending)) + Value(c, Is(Leased)) + Value(c, Is(RetryWait)) + Value(c, Terminal)
            == Value(c, Any())
  {
  }

  /** The eight groups make up the whole. */
  lemma {:induction false} EightGroups(counts: seq<Count>)
    ensures Recorded(counts, Terminal) == TerminalGroups(counts)
    ensures Recorded(counts, Any()) == OtherGroups(counts) + TerminalGroups(counts)
  {
    if counts != [] {
      var init, last := counts[..|counts| - 1], counts[|counts| - 1];
      EightGroups(init);
      OneGroup(last);
    }
  }

  lemma {:induction false} NotRecorded(counts: seq<Count>, s: WorkState)
    requires forall i :: 0 <= i < |counts| ==> counts[i].state != s
    ensures Recorded(counts, Is(s)) == 0
  {
    if counts != [] {
      NotRecorded(counts[..|counts| - 1], s);
    }
  }

  /** The dictionary of a stage: a count for every state. */
  ghost predicate Tallies(tally: map<WorkState, nat>, counts: seq<Count>) {
    forall s: WorkState :: s in tally && tally[s] == Recorded(counts, Is(s))
  }

  lemma {:induction false} TalliesNext(tally: map<WorkState, nat>, counts: seq<Count>, c: Count)
    requires Tallies(tally, counts) && StatesDiffer(counts + [c])
    ensures Tallies(tally[c.state := c.count], counts + [c])
  {
    var all := counts + [c];
    assert all[..|all| - 1] == counts && all[|counts|] == c;
    forall i | 0 <= i < |counts| ensures counts[i].state != c.state {
      assert all[i].state != all[|counts|].state;
    }
    NotRecorded(counts, c.state);
  }

  /** A stage's coverage agrees with what was recorded for it. */
  ghost predicate Covers(c: Coverage, s: StageStatus) {
    && c.stage == s.stage
    && c.total == Recorded(s.counts, Any())
    && c.TerminalCount() == Recorded(s.counts, Terminal)
    && c.pending == Recorded(s.counts, Is(Pending)) && c.leased == Recorded(s.counts, Is(Leased))
    && c.retryWait == Recorded(s.counts, Is(RetryWait)) && c.succeeded == Recorded(s.counts, Is(Succeeded))
    && c.deadLetter == Recorded(s.counts, Is(DeadLetter))
    && c.blockedByPolicy == Recorded(s.counts, Is(BlockedByPolicy))
    && c.cancelled == Recorded(s.counts, Is(Cancelled)) && c.superseded == Recorded(s.counts, Is(Superseded))
    && c.Accepted()
  }

  /** The inner loop of `coverage_from_status`. */
  method CoverStage(s: StageStatus) returns (c: Coverage)
    requires StatesDiffer(s.counts)
    ensures Covers(c, s)
  {
    var counts: map<WorkState, nat> := map[Pending := 0, Leased := 0, RetryWait := 0, Succeeded := 0,
                                          DeadLetter := 0, BlockedByPolicy := 0, Cancelled := 0, Superseded := 0];
    forall state: WorkState ensures state in counts && counts[state] == 0 {
      match state
      case Pending => case Leased => case RetryWait => case Succeeded =>
      case DeadLetter => case BlockedByPolicy => case Cancelled => case Superseded =>
    }
    for i := 0 to |s.counts|
      invariant Tallies(counts, s.counts[..i])
    {
      assert s.counts[..i + 1] == s.counts[..i] + [s.counts[i]];
      TalliesNext(counts, s.counts[..i], s.counts[i]);
      counts := counts[s.counts[i].state := s.counts[i].count];
    }
    assert s.counts[..|s.counts|] == s.counts;
    EightGroups(s.counts);
    var total := counts[Pending] + counts[Leased] + counts[RetryWait] + counts[Succeeded]
                 + counts[DeadLetter] + counts[BlockedByPolicy] + counts[Cancelled] + counts[Superseded];
    c := Coverage(s.stage, total, counts[Pending], counts[Leased], counts[RetryWait], counts[Succeeded],
                  counts[DeadLetter], counts[BlockedByPolicy], counts[Cancelled], counts[Superseded]);
  }

  /** The counts of a coverage are those recorded for a stage. */
  ghost predicate Counted(c: Coverage, counts: seq<Count>) {
    && c.total == Recorded(counts, Any())
    && c.pending == Recorded(counts, Is(Pending)) && c.leased == Recorded(counts, Is(Leased))
    && c.retryWait == Recorded(counts, Is(RetryWait)) && c.succeeded == Recorded(counts, Is(Succeeded))
    && c.deadLetter == Recorded(counts, Is(DeadLetter)) && c.blockedByPolicy == Recorded(counts, Is(BlockedByPolicy))
    && c.cancelled == Recorded(counts, Is(Cancelled)) && c.superseded == Recorded(counts, Is(Superseded))
  }

  /** The constructor accepts exactly the coverages that counting can give. */
  lemma {:induction false} AcceptedIsCounted(c: Coverage)
    ensures c.Accepted() <==> exists counts :: StatesDiffer(counts) && Counted(c, counts)
  {
    forall counts | StatesDiffer(counts) && Counted(c, counts) ensures c.Accepted() {
      EightGroups(counts);
    }
    if c.Accepted() {
      var counts := [
        Count(Pending, c.pending), Count(Leased, c.leased), Count(RetryWait, c.retryWait),
        Count(Succeeded, c.succeeded), Count(DeadLetter, c.deadLetter), Count(BlockedByPolicy, c.blockedByPolicy),
        Count(Cancelled, c.cancelled), Count(Superseded, c.superseded)];
      forall i: nat | i < 8 ensures Recorded(counts, Is(counts[i].state)) == counts[i].count {
        RecordedAt(counts, i);
      }
      assert counts[0].state == Pending && counts[1].state == Leased && counts[2].state == RetryWait;
      assert counts[3].state == Succeeded && counts[4].state == DeadLetter && counts[5].state == BlockedByPolicy;
      assert counts[6].state == Cancelled && counts[7].state == Superseded;
      EightGroups(counts);
      assert Counted(c, counts);
    }
  }

  lemma {:induction false} RecordedAt(counts: seq<Count>, i: nat)
    requires StatesDiffer(counts) && i < |counts|
    ensures Recorded(counts, Is(counts[i].state)) == counts[i].count
  {
    var init := counts[..|counts| - 1];
    if i < |init| {
      RecordedAt(init, i);
    } else {
      NotRecorded(init, counts[i].state);
    }
  }

  // ---------------------------------------------------------------- blockers

  datatype Code =
    | RunNotStarted | RunPausedCode | RunBlockedCode | RunCancelledCode
    | StageFailedCode | StageBlockedCode | StageCancelledCode
    | WorkDeadLettered | WorkBlockedByPolicy

  datatype Blocker = Blocker(code: Code, stage: Option<Stage>, count: int)

  function RunBlocker(s: RunState): Option<Blocker> {
    match s
    case RunCreated => Some(Blocker(RunNotStarted, None, 1))
    case RunPaused => Some(Blocker(RunPausedCode, None, 1))
    case RunBlocked => Some(Blocker(RunBlockedCode, None, 1))
    case RunCancelled => Some(Blocker(RunCancelledCode, None, 1))
    case _ => None
  }

  function StageBlocker(stage: Stage, s: StageState): Option<Blocker> {
    match s
    case StageFailed => Some(Blocker(StageFailedCode, Some(stage), 1))
    case StageBlocked => Some(Blocker(StageBlockedCode, Some(stage), 1))
    case StageCancelled => Some(Blocker(StageCancelledCode, Some(stage), 1))
    case _ => None
  }

  function Listed(b: Option<Blocker>): seq<Blocker> {
    if b.Some? then [b.value] else []
  }

  /** The blockers of a stage with so much dead-lettered and policy-blocked work. */
  function StageBlockers(stage: Stage, state: StageState, dead: nat, blocked: nat): seq<Blocker> {
    Listed(StageBlocker(stage, state))
    + (if dead > 0 then [Blocker(WorkDeadLettered, Some(stage), dead)] else [])
    + (if blocked > 0 then [Blocker(WorkBlockedByPolicy, Some(stage), blocked)] else [])
  }

  function BlockersOf(s: StageStatus): seq<Blocker> {
    StageBlockers(s.stage, s.state, Recorded(s.counts, Is(DeadLetter)), Recorded(s.counts, Is(BlockedByPolicy)))
  }

  /** A list extended stage by stage. */
  function Listing(first: seq<Blocker>, of: StageStatus -> seq<Blocker>, stages: seq<StageStatus>, n: nat): seq<Blocker>
    requires n <= |stages|
  {
    if n == 0 then first else Listing(first, of, stages, n - 1) + of(stages[n - 1])
  }

  /** The blockers of a run up to its first `n` stages. */
  function Blockers(s: Status, n: nat): seq<Blocker>
    requires n <= |s.stages|
  {
    Listing(Listed(RunBlocker(s.state)), BlockersOf, s.stages, n)
  }

  // ------------------------------------------------------------------ report

  datatype Report = Report(state: RunState, revision: nat, stages: seq<Coverage>, blockers: seq<Blocker>)

  ghost predicate Pairwise(rel: (Coverage, StageStatus) -> bool, covers: seq<Coverage>, stages: seq<StageStatus>) {
    |covers| == |stages| && forall i :: 0 <= i < |stages| ==> rel(covers[i], stages[i])
  }

  lemma {:induction false} PairwiseNext(
    rel: (Coverage, StageStatus) -> bool, covers: seq<Coverage>, stages: seq<StageStatus>,
                                        c: Coverage, s: StageStatus)
    requires Pairwise(rel, covers, stages) && rel(c, s)
    ensures Pairwise(rel, covers + [c], stages + [s])
  {
  }

  /** Every stage's coverage agrees with what was recorded for it. */
  ghost predicate AllCovered(covers: seq<Coverage>, stages: seq<StageStatus>) {
    Pairwise(Covers, covers, stages)
  }

  lemma {:induction false} CoversBlockers(c: Coverage, s: StageStatus)
    requires Covers(c, s)
    ensures c.deadLetter >= 0 && c.blockedByPolicy >= 0
    ensures BlockersOf(s) == StageBlockers(s.stage, s.state, c.deadLetter, c.blockedByPolicy)
  {
  }

  lemma {:induction false} BlockersNext(s: Status, n: nat)
    requires n < |s.stages|
    ensures Blockers(s, n + 1) == Blockers(s, n) + BlockersOf(s.stages[n])
  {
  }

  /** `coverage_from_status`. */
  method CoverageFromStatus(s: Status) returns (r: Report)
    requires Valid(s)
    ensures r.state == s.state && r.revision == s.revision
    ensures AllCovered(r.stages, s.stages)
    ensures r.blockers == Blockers(s, |s.stages|)
    ensures ReportAccepted(r)
  {
    var stages: seq<Coverage> := [];
    var blockers: seq<Blocker> := [];
    var runBlocker := RunBlocker(s.state);
    if runBlocker.Some? {
      blockers := blockers + [runBlocker.value];
    }
    for n := 0 to |s.stages|
      invariant Pairwise(Covers, stages, s.stages[..n])
      invariant blockers == Blockers(s, n)
    {
      var stage := s.stages[n];
      assert s.stages[..n + 1] == s.stages[..n] + [stage];
      var coverage := CoverStage(stage);
      PairwiseNext(Covers, stages, s.stages[..n], coverage, stage);
      stages := stages + [coverage];
      CoversBlockers(coverage, stage);
      BlockersNext(s, n);
      blockers := AddBlockers(blockers, stage.stage, stage.state, coverage.deadLetter, coverage.blockedByPolicy);
    }
    assert s.stages[..|s.stages|] == s.stages;
    r := Report(s.state, s.revision, stages, blockers);
    ReportPasses(s, r);
  }

  method AddBlockers(
    blockers: seq<Blocker>, stage: Stage, state: StageState, dead: nat, blocked: nat) returns (r: seq<Blocker>)
    ensures r == blockers + StageBlockers(stage, state, dead, blocked)
  {
    r := blockers;
    var stageBlocker := StageBlocker(stage, state);
    if stageBlocker.Some? {
      r := r + [stageBlocker.value];
    }
    if dead != 0 {
      r := r + [Blocker(WorkDeadLettered, Some(stage), dead)];
    }
    if blocked != 0 {
      r := r + [Blocker(WorkBlockedByPolicy, Some(stage), blocked)];
    }
  }

  // ------------------------------------------- every constructor accepts it

  /** No code is reported twice for the same stage. */
  ghost predicate KeysDiffer(bs: seq<Blocker>) {
    forall i, j :: 0 <= i < j < |bs| ==> bs[i].code != bs[j].code || bs[i].stage != bs[j].stage
  }

  ghost predicate CountsPositive(bs: seq<Blocker>) {
    forall i :: 0 <= i < |bs| ==> bs[i].count >= 1
  }

  /** The checks of the report's constructor and of its parts. */
  ghost predicate ReportAccepted(r: Report) {
    && (forall i, j :: 0 <= i < j < |r.stages| ==> r.stages[i].stage != r.stages[j].stage)
    && KeysDiffer(r.blockers) && CountsPositive(r.blockers)
    && (forall i :: 0 <= i < |r.stages| ==> r.stages[i].Accepted())
  }

  ghost predicate OfStage(bs: seq<Blocker>, stage: Stage) {
    forall i :: 0 <= i < |bs| ==> bs[i].stage == Some(stage)
  }

  ghost predicate NotOfStage(bs: seq<Blocker>, stage: Stage) {
    forall i :: 0 <= i < |bs| ==> bs[i].stage != Some(stage)
  }

  lemma {:induction false} StageBlockersDiffer(stage: Stage, state: StageState, dead: nat, blocked: nat)
    ensures var bs := StageBlockers(stage, state, dead, blocked);
      KeysDiffer(bs) && CountsPositive(bs) && OfStage(bs, stage)
  {
  }

  lemma {:induction false} Glue(a: seq<Blocker>, b: seq<Blocker>, stage: Stage)
    requires KeysDiffer(a) && KeysDiffer(b) && CountsPositive(a) && CountsPositive(b)
    requires NotOfStage(a, stage) && OfStage(b, stage)
    ensures KeysDiffer(a + b) && CountsPositive(a + b)
  {
    var all := a + b;
    forall i, j | 0 <= i < j < |all| ensures all[i].code != all[j].code || all[i].stage != all[j].stage {
      if i < |a| <= j {
        assert all[i] == a[i] && all[j] == b[j - |a|];
      } else if i >= |a| {
        assert all[i] == b[i - |a|] && all[j] == b[j - |a|];
      }
    }
  }

  lemma {:induction false} NotOfStageGlue(a: seq<Blocker>, b: seq<Blocker>, stage: Stage, other: Stage)
    requires NotOfStage(a, other) && OfStage(b, stage) && stage != other
    ensures NotOfStage(a + b, other)
  {
    var all := a + b;
    forall i | 0 <= i < |all| ensures all[i].stage != Some(other) {
      if i >= |a| {
        assert all[i] == b[i - |a|];
      }
    }
  }

  /** A stage's own blockers: distinct, counted and naming that stage. */
  ghost predicate OwnBlockers(bs: seq<Blocker>, stage: Stage) {
    KeysDiffer(bs) && CountsPositive(bs) && OfStage(bs, stage)
  }

  lemma {:induction false} LaterStage(
    first: seq<Blocker>, of: StageStatus -> seq<Blocker>, stages: seq<StageStatus>, n: nat, stage: Stage)
    requires n <= |stages| && NotOfStage(first, stage)
    requires forall i :: 0 <= i < n ==> stages[i].stage != stage
    requires forall st: StageStatus :: OwnBlockers(of(st), st.stage)
    ensures NotOfStage(Listing(first, of, stages, n), stage)
  {
    if n > 0 {
      LaterStage(first, of, stages, n - 1, stage);
      var st := stages[n - 1];
      NotOfStageGlue(Listing(first, of, stages, n - 1), of(st), st.stage, stage);
    }
  }

  lemma {:induction false} ListingDiffers(
    first: seq<Blocker>, of: StageStatus -> seq<Blocker>, stages: seq<StageStatus>, n: nat)
    requires n <= |stages| && StagesDiffer(stages)
    requires KeysDiffer(first) && CountsPositive(first) && forall stage :: NotOfStage(first, stage)
    requires forall st: StageStatus :: OwnBlockers(of(st), st.stage)
    ensures KeysDiffer(Listing(first, of, stages, n)) && CountsPositive(Listing(first, of, stages, n))
  {
    if n > 0 {
      ListingDiffers(first, of, stages, n - 1);
      var st := stages[n - 1];
      LaterStage(first, of, stages, n - 1, st.stage);
      Glue(Listing(first, of, stages, n - 1), of(st), st.stage);
    }
  }

  lemma {:induction false} BlockersDiffer(s: Status, n: nat)
    requires StagesDiffer(s.stages) && n <= |s.stages|
    ensures KeysDiffer(Blockers(s, n)) && CountsPositive(Blockers(s, n))
  {
    forall st: StageStatus ensures OwnBlockers(BlockersOf(st), st.stage) {
      var dead, blocked := Recorded(st.counts, Is(DeadLetter)), Recorded(st.counts, Is(BlockedByPolicy));
      StageBlockersDiffer(st.stage, st.state, dead, blocked);
    }
    ListingDiffers(Listed(RunBlocker(s.state)), BlockersOf, s.stages, n);
  }

  lemma {:induction false} ReportPasses(s: Status, r: Report)
    requires Valid(s) && AllCovered(r.stages, s.stages) && r.blockers == Blockers(s, |s.stages|)
    ensures ReportAccepted(r)
  {
    BlockersDiffer(s, |s.stages|);
    forall i | 0 <= i < |r.stages| ensures r.stages[i].stage == s.stages[i].stage && r.stages[i].Accepted() {
      CoversNumbers(r.stages[i], s.stages[i]);
    }
  }

  // ------------------------------------------------------- what is reported

  /** A blocker that the state of the run warrants: it names no stage and counts one. */
  ghost predicate RunWarrants(s: RunState, b: Blocker) {
    && b.stage == None && b.count == 1
    && (|| (s == RunCreated && b.code == RunNotStarted)
        || (s == RunPaused && b.code == RunPausedCode)
        || (s == RunBlocked && b.code == RunBlockedCode)
        || (s == RunCancelled && b.code == RunCancelledCode))
  }

  /** A blocker that the state of a stage warrants. */
  ghost predicate StageStateWarrants(s: StageStatus, b: Blocker) {
    && b.stage == Some(s.stage) && b.count == 1
    && (|| (s.state == StageFailed && b.code == StageFailedCode)
        || (s.state == StageBlocked && b.code == StageBlockedCode)
        || (s.state == StageCancelled && b.code == StageCancelledCode))
  }

  /** A blocker that a stage warrants. */
  ghost predicate WarrantedBy(s: StageStatus, b: Blocker) {
    || StageStateWarrants(s, b)
    || (b == Blocker(WorkDeadLettered, Some(s.stage), Recorded(s.counts, Is(DeadLetter))) && b.count > 0)
    || (b == Blocker(WorkBlockedByPolicy, Some(s.stage), Recorded(s.counts, Is(BlockedByPolicy))) && b.count > 0)
  }

  lemma {:induction false} StageWarrants(s: StageStatus, b: Blocker)
    ensures b in BlockersOf(s) <==> WarrantedBy(s, b)
  {
  }

  ghost predicate SomeStage(w: (StageStatus, Blocker) -> bool, stages: seq<StageStatus>, n: nat, b: Blocker)
    requires n <= |stages|
  {
    exists i :: 0 <= i < n && w(stages[i], b)
  }

  lemma {:induction false} ListingExact(
    first: seq<Blocker>, of: StageStatus -> seq<Blocker>, w: (StageStatus, Blocker) -> bool,
                                        stages: seq<StageStatus>, n: nat, b: Blocker)
    requires n <= |stages| && forall i :: 0 <= i < |stages| ==> (b in of(stages[i]) <==> w(stages[i], b))
    ensures b in Listing(first, of, stages, n) <==> b in first || SomeStage(w, stages, n, b)
  {
    if n > 0 {
      ListingExact(first, of, w, stages, n - 1, b);
    }
  }

  /** The blockers are exactly those the state of the run, the state of a stage, or its
      dead-lettered or policy-blocked work warrants. */
  lemma {:induction false} BlockersAreWarranted(s: Status, b: Blocker)
    ensures b in Blockers(s, |s.stages|) <==>
      RunWarrants(s.state, b) || SomeStage(WarrantedBy, s.stages, |s.stages|, b)
  {
    assert b in Listed(RunBlocker(s.state)) <==> RunWarrants(s.state, b);
    forall i | 0 <= i < |s.stages| ensures b in BlockersOf(s.stages[i]) <==> WarrantedBy(s.stages[i], b) {
      StageWarrants(s.stages[i], b);
    }
    ListingExact(Listed(RunBlocker(s.state)), BlockersOf, WarrantedBy, s.stages, |s.stages|, b);
  }

  /** Within a stage: its state, then dead-lettered work, then policy-blocked work. */
  function Turn(c: Code): nat {
    if c == WorkDeadLettered then 1 else if c == WorkBlockedByPolicy then 2 else 0
  }

  /** The run comes first, then the stages in their order. */
  ghost predicate Before(stages: seq<StageStatus>, n: nat, a: Blocker, b: Blocker)
    requires n <= |stages|
  {
    || (a.stage == None && b.stage.Some?)
    || (exists i, j :: 0 <= i < j < n && a.stage == Some(stages[i].stage) && b.stage == Some(stages[j].stage))
    || (a.stage.Some? && a.stage == b.stage && Turn(a.code) < Turn(b.code))
  }

  ghost predicate InOrder(stages: seq<StageStatus>, n: nat, bs: seq<Blocker>)
    requires n <= |stages|
  {
    forall k, l :: 0 <= k < l < |bs| ==> Before(stages, n, bs[k], bs[l])
  }

  lemma {:induction false} StageInOrder(stages: seq<StageStatus>, n: nat, s: StageStatus)
    requires n <= |stages|
    ensures InOrder(stages, n, BlockersOf(s))
  {
  }

  lemma {:induction false} FromStages(
    first: seq<Blocker>, of: StageStatus -> seq<Blocker>, stages: seq<StageStatus>, n: nat, k: nat)
    requires n <= |stages| && (forall i :: 0 <= i < |first| ==> first[i].stage == None)
    requires forall st: StageStatus :: OfStage(of(st), st.stage)
    requires k < |Listing(first, of, stages, n)|
    ensures var b := Listing(first, of, stages, n)[k];
      b.stage == None || exists i :: 0 <= i < n && b.stage == Some(stages[i].stage)
  {
    if n > 0 {
      var init := Listing(first, of, stages, n - 1);
      if k < |init| {
        FromStages(first, of, stages, n - 1, k);
      } else {
        assert OfStage(of(stages[n - 1]), stages[n - 1].stage);
      }
    }
  }

  lemma {:induction false} ListingInOrder(
    first: seq<Blocker>, of: StageStatus -> seq<Blocker>, stages: seq<StageStatus>, n: nat)
    requires n <= |stages| && |first| <= 1 && (forall i :: 0 <= i < |first| ==> first[i].stage == None)
    requires forall st: StageStatus :: OfStage(of(st), st.stage)
    requires forall i, m: nat :: 0 <= i < |stages| && m <= |stages| ==> InOrder(stages, m, of(stages[i]))
    ensures InOrder(stages, n, Listing(first, of, stages, n))
  {
    if n > 0 {
      var init, last := Listing(first, of, stages, n - 1), of(stages[n - 1]);
      ListingInOrder(first, of, stages, n - 1);
      assert OfStage(last, stages[n - 1].stage) && InOrder(stages, n, last);
      var all := init + last;
      forall k, l | 0 <= k < l < |all| ensures Before(stages, n, all[k], all[l]) {
        if l < |init| {
          assert Before(stages, n - 1, init[k], init[l]);
        } else if k < |init| {
          FromStages(first, of, stages, n - 1, k);
        } else {
          assert all[k] == last[k - |init|] && all[l] == last[l - |init|];
        }
      }
    }
  }

  /** The order in which blockers are listed. */
  lemma {:induction false} BlockersInOrder(s: Status)
    ensures InOrder(s.stages, |s.stages|, Blockers(s, |s.stages|))
  {
    forall st: StageStatus ensures OfStage(BlockersOf(st), st.stage) {
      var dead, blocked := Recorded(st.counts, Is(DeadLetter)), Recorded(st.counts, Is(BlockedByPolicy));
      StageBlockersDiffer(st.stage, st.state, dead, blocked);
    }
    forall i, m: nat | 0 <= i < |s.stages| && m <= |s.stages| ensures InOrder(s.stages, m, BlockersOf(s.stages[i])) {
      StageInOrder(s.stages, m, s.stages[i]);
    }
    ListingInOrder(Listed(RunBlocker(s.state)), BlockersOf, s.stages, |s.stages|);
  }

  // ------------------------------------------------------------ conservation

  /** `sum(f(item) for item in stages)`. */
  function SumOf(stages: seq<Coverage>, f: Coverage -> int): int {
    if stages == [] then 0 else SumOf(stages[..|stages| - 1], f) + f(stages[|stages| - 1])
  }

  /** The properties `total`, `terminal` and `succeeded` of a report. */
  function Total(r: Report): int {
    SumOf(r.stages, (c: Coverage) => c.total)
  }

  function TerminalTotal(r: Report): int {
    SumOf(r.stages, (c: Coverage) => c.TerminalCount())
  }

  function SucceededTotal(r: Report): int {
    SumOf(r.stages, (c: Coverage) => c.succeeded)
  }

  /** Every recorded count of a run. */
  function AllCounts(stages: seq<StageStatus>): seq<Count> {
    if stages == [] then [] else AllCounts(stages[..|stages| - 1]) + stages[|stages| - 1].counts
  }

  lemma {:induction false} RecordedConcat(a: seq<Count>, b: seq<Count>, p: WorkState -> bool)
    ensures Recorded(a + b, p) == Recorded(a, p) + Recorded(b, p)
    decreases |b|
  {
    if b == [] {
      assert a + b == a;
    } else {
      assert (a + b)[..|a + b| - 1] == a + b[..|b| - 1];
      RecordedConcat(a, b[..|b| - 1], p);
    }
  }

  lemma {:induction false} SumConserves(
    covers: seq<Coverage>, stages: seq<StageStatus>, f: Coverage -> int, p: WorkState -> bool)
    requires |covers| == |stages| && forall i :: 0 <= i < |stages| ==> f(covers[i]) == Recorded(stages[i].counts, p)
    ensures SumOf(covers, f) == Recorded(AllCounts(stages), p)
  {
    if stages != [] {
      var n := |stages| - 1;
      SumConserves(covers[..n], stages[..n], f, p);
      RecordedConcat(AllCounts(stages[..n]), stages[n].counts, p);
    }
  }

  lemma {:induction false} RecordedWithin(counts: seq<Count>, p: WorkState -> bool, q: WorkState -> bool)
    requires forall s :: p(s) ==> q(s)
    ensures Recorded(counts, p) <= Recorded(counts, q)
  {
    if counts != [] {
      RecordedWithin(counts[..|counts| - 1], p, q);
    }
  }

  lemma {:induction false} CoversNumbers(c: Coverage, s: StageStatus)
    requires Covers(c, s)
    ensures c.total == Recorded(s.counts, Any())
    ensures c.TerminalCount() == Recorded(s.counts, Terminal)
    ensures c.succeeded == Recorded(s.counts, Is(Succeeded))
    ensures c.stage == s.stage && c.Accepted()
  {
  }

  /** Nothing is lost or counted twice between the recorded work of a run and the report's totals. */
  lemma {:induction false} ReportConserves(r: Report, s: Status)
    requires AllCovered(r.stages, s.stages)
    ensures Total(r) == Recorded(AllCounts(s.stages), Any())
    ensures TerminalTotal(r) == Recorded(AllCounts(s.stages), Terminal)
    ensures SucceededTotal(r) == Recorded(AllCounts(s.stages), Is(Succeeded))
    ensures 0 <= SucceededTotal(r) <= TerminalTotal(r) <= Total(r)
  {
    forall i | 0 <= i < |s.stages|
      ensures r.stages[i].total == Recorded(s.stages[i].counts, Any())
      ensures r.stages[i].TerminalCount() == Recorded(s.stages[i].counts, Terminal)
      ensures r.stages[i].succeeded == Recorded(s.stages[i].counts, Is(Succeeded))
    {
      CoversNumbers(r.stages[i], s.stages[i]);
    }
    SumConserves(r.stages, s.stages, (c: Coverage) => c.total, Any());
    SumConserves(r.stages, s.stages, (c: Coverage) => c.TerminalCount(), Terminal);
    SumConserves(r.stages, s.stages, (c: Coverage) => c.succeeded, Is(Succeeded));
    RecordedWithin(AllCounts(s.stages), Is(Succeeded), Terminal);
    RecordedWithin(AllCounts(s.stages), Terminal, Any());
  }
}
