/**
 Test design sessions in tp-service: three generated stages, each to be approved by a human gate,
 then an import. Sessions live in memory, or are reloaded from their rows before every request.
 */
module DesignSessions {
  import opened Options

  datatype Stage = Analysis | Design | Cases

  datatype Status = Draft | Analyzing | AnalysisReview | Designing | DesignReview | GeneratingCases | CasesReview
                  | ReadyToImport | Imported | Failed | Canceled

  datatype StageRun = StageRun(id: Uuid, stage: Stage, attempt: nat, completed: bool)

  datatype ReviewGate = ReviewGate(id: Uuid, runId: Uuid, reviewer: Uuid, decision: string, privileged: bool)

  datatype Session = Session(createdBy: Uuid, status: Status, version: nat, runs: seq<StageRun>, approved: set<Stage>,
                             gates: seq<ReviewGate>)

  // The stage a caller names may be none of the three; `file` is the error of an unreadable upload.
  datatype Command =
    | RunStage(stage: Option<Stage>, newRun: Uuid)
    | Review(runId: Uuid, reviewer: Uuid, decision: string, privileged: bool, gateId: Uuid)
    | Import(knownStrategy: bool, file: Option<string>)
    | Reload

  function Before(stage: Stage): Status {
    match stage case Analysis => Draft case Design => AnalysisReview case Cases => DesignReview
  }

  function During(stage: Stage): Status {
    match stage case Analysis => Analyzing case Design => Designing case Cases => GeneratingCases
  }

  function InReview(stage: Stage): Status {
    match stage case Analysis => AnalysisReview case Design => DesignReview case Cases => CasesReview
  }

  function Approved(stage: Stage): Status {
    match stage case Analysis => AnalysisReview case Design => DesignReview case Cases => ReadyToImport
  }

  const ALL := {Analysis, Design, Cases}

  function NewSession(createdBy: Uuid): Session { Session(createdBy, Draft, 1, [], {}, []) }

  // ---------------------------------------------------------------------
  // Commands
  // ---------------------------------------------------------------------

  function Attempts(runs: seq<StageRun>, stage: Stage): nat {
    if runs == [] then 0
    else Attempts(runs[..|runs| - 1], stage) + if runs[|runs| - 1].stage == stage then 1 else 0
  }

  function FindRun(runs: seq<StageRun>, id: Uuid): Option<StageRun> {
    if runs == [] then None else if runs[0].id == id then Some(runs[0]) else FindRun(runs[1..], id)
  }

  // The last completed run of a stage.
  function Reviewable(runs: seq<StageRun>, stage: Stage): Option<StageRun> {
    if runs == [] then None
    else
      var last := runs[|runs| - 1];
      if last.stage == stage && last.completed then Some(last) else Reviewable(runs[..|runs| - 1], stage)
  }

  function ApplyGate(s: Session, stage: Stage, reviewer: Uuid, decision: string, privileged: bool, gateId: Uuid)
    : Result<Session>
  {
    if reviewer == s.createdBy && !privileged then Err("SELF_GATE_FORBIDDEN")
    else if s.status != InReview(stage) || decision != "approved" then Err("GATE_REJECTED")
    else if Reviewable(s.runs, stage).None? then Err("STAGE_RUN_NOT_REVIEWABLE")
    else
      var gate := ReviewGate(gateId, Reviewable(s.runs, stage).value.id, reviewer, decision, privileged);
      Ok(s.(gates := s.gates + [gate], approved := s.approved + {stage}, status := Approved(stage),
            version := s.version + 1))
  }

  // The name order of the stages: analysis, cases, design.
  function NameRank(stage: Stage): nat {
    match stage case Analysis => 0 case Cases => 1 case Design => 2
  }

  predicate NotAfter(a: StageRun, b: StageRun) {
    NameRank(a.stage) < NameRank(b.stage) || (a.stage == b.stage && a.attempt <= b.attempt)
  }

  function Insert(run: StageRun, runs: seq<StageRun>): seq<StageRun> {
    if runs == [] then [run]
    else if NotAfter(run, runs[0]) then [run] + runs
    else [runs[0]] + Insert(run, runs[1..])
  }

  // The rows in the order the query gives: by stage name, then by attempt.
  function ByStageName(runs: seq<StageRun>): seq<StageRun> {
    if runs == [] then [] else Insert(runs[0], ByStageName(runs[1..]))
  }

  function KnownGates(gates: seq<ReviewGate>, runs: seq<StageRun>): seq<ReviewGate> {
    if gates == [] then []
    else
      var init, last := KnownGates(gates[..|gates| - 1], runs), gates[|gates| - 1];
      if FindRun(runs, last.runId).Some? then init + [last] else init
  }

  function GateStages(gates: seq<ReviewGate>, runs: seq<StageRun>): set<Stage> {
    if gates == [] then {}
    else
      var init, last := GateStages(gates[..|gates| - 1], runs), FindRun(runs, gates[|gates| - 1].runId);
      if last.Some? && gates[|gates| - 1].decision == "approved" then init + {last.value.stage} else init
  }

  function Step(s: Session, c: Command): Result<Session> {
    match c
    case RunStage(stage, newRun) =>
      if stage.None? || s.status != Before(stage.value) then Err("GATE_REQUIRED")
      else
        var run := StageRun(newRun, stage.value, 1 + Attempts(s.runs, stage.value), true);
        Ok(s.(status := InReview(stage.value), version := s.version + 2, runs := s.runs + [run]))
    case Review(runId, reviewer, decision, privileged, gateId) =>
      var run := FindRun(s.runs, runId);
      if run.None? || !run.value.completed || s.runs[|s.runs| - 1].id != runId then Err("STAGE_RUN_NOT_REVIEWABLE")
      else ApplyGate(s, run.value.stage, reviewer, decision, privileged, gateId)
    case Import(knownStrategy, file) =>
      if s.status != ReadyToImport || s.approved != ALL then Err("GATE_REQUIRED")
      else if !knownStrategy then Err("INVALID_CONFLICT_STRATEGY")
      else if file.Some? then Err(file.value)
      else Ok(s.(status := Imported, version := s.version + 1))
    case Reload =>
      var runs := ByStageName(s.runs);
      Ok(s.(runs := runs, gates := KnownGates(s.gates, runs), approved := GateStages(s.gates, runs)))
  }

  // New runs have new identifiers.
  predicate Fresh(s: Session, c: Command) {
    c.RunStage? ==> FindRun(s.runs, c.newRun).None?
  }

  // ---------------------------------------------------------------------
  // What every session satisfies
  // ---------------------------------------------------------------------

  predicate Stages(runs: seq<StageRun>, stages: seq<Stage>) {
    |runs| == |stages| && forall i | 0 <= i < |runs| :: runs[i].stage == stages[i]
  }

  /** The status tells which stages ran, and which may have been approved. */
  predicate InStep(s: Session) {
    match s.status
    case Draft => s.runs == [] && s.approved == {}
    case AnalysisReview => Stages(s.runs, [Analysis]) && s.approved <= {Analysis}
    case DesignReview => Stages(s.runs, [Analysis, Design]) && s.approved <= {Analysis, Design}
    case CasesReview =>
      (Stages(s.runs, [Analysis, Design, Cases]) || Stages(s.runs, [Analysis, Cases, Design]))
      && s.approved <= {Analysis, Design}
    case ReadyToImport =>
      (Stages(s.runs, [Analysis, Design, Cases]) || Stages(s.runs, [Analysis, Cases, Design])) && Cases in s.approved
    case Imported =>
      (Stages(s.runs, [Analysis, Design, Cases]) || Stages(s.runs, [Analysis, Cases, Design])) && s.approved == ALL
    case _ => false
  }

  predicate Distinct(runs: seq<StageRun>) {
    forall i, j | 0 <= i < j < |runs| :: runs[i].id != runs[j].id
  }

  predicate GatesKnown(gates: seq<ReviewGate>, runs: seq<StageRun>) {
    forall i {:trigger gates[i]} | 0 <= i < |gates| :: FindRun(runs, gates[i].runId).Some?
  }

  // Only approvals are recorded.
  predicate Approvals(gates: seq<ReviewGate>) {
    forall i {:trigger gates[i]} | 0 <= i < |gates| :: gates[i].decision == "approved"
  }

  predicate Inv(s: Session) {
    && InStep(s) && Distinct(s.runs) && Approvals(s.gates)
    && (forall i {:trigger s.runs[i]} | 0 <= i < |s.runs| :: s.runs[i].completed && s.runs[i].attempt == 1)
    && GatesKnown(s.gates, s.runs) && s.approved == GateStages(s.gates, s.runs)
  }

  lemma {:induction false} FindRunAt(runs: seq<StageRun>, k: nat)
    requires k < |runs| && Distinct(runs)
    ensures FindRun(runs, runs[k].id) == Some(runs[k])
  {
    if k > 0 {
      FindRunAt(runs[1..], k - 1);
    }
  }

  lemma {:induction false} FoundRun(runs: seq<StageRun>, id: Uuid)
    ensures FindRun(runs, id).Some? ==> FindRun(runs, id).value in runs && FindRun(runs, id).value.id == id
    ensures FindRun(runs, id).None? ==> forall r | r in runs :: r.id != id
  {
    if runs != [] {
      FoundRun(runs[1..], id);
    }
  }

  // Looking a run up does not depend on the order of runs with distinct identifiers.
  lemma SameFind(runs: seq<StageRun>, others: seq<StageRun>, id: Uuid)
    requires Distinct(others) && forall r | r in runs :: r in others
    ensures FindRun(runs, id).Some? ==> FindRun(others, id) == FindRun(runs, id)
  {
    FoundRun(runs, id);
    if FindRun(runs, id).Some? {
      var k :| 0 <= k < |others| && others[k] == FindRun(runs, id).value;
      FindRunAt(others, k);
    }
  }

  lemma GatesKnownInit(gates: seq<ReviewGate>, runs: seq<StageRun>)
    requires gates != [] && GatesKnown(gates, runs)
    ensures GatesKnown(gates[..|gates| - 1], runs) && FindRun(runs, gates[|gates| - 1].runId).Some?
  {
    var init := gates[..|gates| - 1];
    assert forall i | 0 <= i < |init| :: init[i] == gates[i];
  }

  lemma GatesKnownMore(init: seq<ReviewGate>, last: ReviewGate, runs: seq<StageRun>)
    requires GatesKnown(init, runs) && FindRun(runs, last.runId).Some?
    ensures GatesKnown(init + [last], runs)
  {
    var gates := init + [last];
    forall i | 0 <= i < |gates|
      ensures FindRun(runs, gates[i].runId).Some?
    {
      assert gates[i] == if i < |init| then init[i] else last;
    }
  }

  lemma {:induction false} SameGates(gates: seq<ReviewGate>, runs: seq<StageRun>, others: seq<StageRun>)
    requires Distinct(others) && (forall r | r in runs :: r in others) && GatesKnown(gates, runs)
    ensures GatesKnown(gates, others) && KnownGates(gates, others) == gates
    ensures GateStages(gates, others) == GateStages(gates, runs)
  {
    if gates != [] {
      var init := gates[..|gates| - 1];
      GatesKnownInit(gates, runs);
      SameGates(init, runs, others);
      SameFind(runs, others, gates[|gates| - 1].runId);
      GatesKnownMore(init, gates[|gates| - 1], others);
      assert gates == init + [gates[|gates| - 1]];
    }
  }

  lemma SortTwo(b: StageRun, c: StageRun)
    ensures ByStageName([c]) == [c]
    ensures ByStageName([b, c]) == if NotAfter(b, c) then [b, c] else [c, b]
  {
    assert [c][1..] == [] && [b, c][1..] == [c];
    assert ByStageName([c]) == Insert(c, []);
    assert ByStageName([b, c]) == Insert(b, [c]);
    assert Insert(b, []) == [b];
  }

  /** The runs a session can have, in the order a reload gives them. */
  lemma ReloadedRuns(s: Session)
    requires Inv(s)
    ensures var out := ByStageName(s.runs);
            if |s.runs| < 3 then out == s.runs
            else if s.runs[2].stage == Cases then out == [s.runs[0], s.runs[2], s.runs[1]]
            else out == s.runs
  {
    if |s.runs| == 1 {
      SortTwo(s.runs[0], s.runs[0]);
      assert s.runs == [s.runs[0]];
    } else if |s.runs| == 2 {
      SortTwo(s.runs[0], s.runs[1]);
      assert s.runs == [s.runs[0], s.runs[1]];
    } else if |s.runs| == 3 {
      var a, b, c := s.runs[0], s.runs[1], s.runs[2];
      assert s.runs == [a, b, c] && s.runs[1..] == [b, c];
      SortTwo(b, c);
      var rest := ByStageName([b, c]);
      assert NotAfter(a, rest[0]);
      assert Insert(a, rest) == [a] + rest;
      assert ByStageName(s.runs) == Insert(a, ByStageName(s.runs[1..]));
    }
  }

  lemma ReloadedRow(s: Session)
    requires Inv(s)
    ensures var out := ByStageName(s.runs);
            && Distinct(out) && |out| == |s.runs| && (forall r :: r in out <==> r in s.runs)
            && forall i {:trigger out[i]} | 0 <= i < |out| :: out[i].completed && out[i].attempt == 1
  {
    ReloadedRuns(s);
    var out := ByStageName(s.runs);
    if out != s.runs {
      var a, b, c := s.runs[0], s.runs[1], s.runs[2];
      assert s.runs == [a, b, c] && out == [a, c, b];
    }
  }

  /** Saving and loading keep everything of a session but the order of its runs. */
  lemma ReloadKeepsAllButOrder(s: Session)
    requires Inv(s)
    ensures var t := Step(s, Reload).value;
            && Inv(t) && t == s.(runs := t.runs) && |t.runs| == |s.runs|
            && forall r :: r in t.runs <==> r in s.runs
  {
    ReloadedRow(s);
    SameGates(s.gates, s.runs, ByStageName(s.runs));
    ReloadInStep(s);
  }

  lemma ReloadInStep(s: Session)
    requires Inv(s) && GateStages(s.gates, ByStageName(s.runs)) == GateStages(s.gates, s.runs)
    ensures InStep(Step(s, Reload).value)
  {
    ReloadedRuns(s);
  }

  lemma RunKeeps(s: Session, c: Command)
    requires Inv(s) && c.RunStage? && Fresh(s, c) && Step(s, c).Ok?
    ensures Inv(Step(s, c).value)
  {
    var t := Step(s, c).value;
    RunAdded(s, c);
    assert forall r | r in s.runs :: r in t.runs;
    SameGates(s.gates, s.runs, t.runs);
  }

  // The new run comes last, has an identifier of its own, and is the first of its stage.
  lemma RunAdded(s: Session, c: Command)
    requires Inv(s) && c.RunStage? && Fresh(s, c) && Step(s, c).Ok?
    ensures var t := Step(s, c).value;
            && t.runs == s.runs + [StageRun(c.newRun, c.stage.value, 1, true)] && Distinct(t.runs) && InStep(t)
            && t.gates == s.gates && t.approved == s.approved
  {
    FoundRun(s.runs, c.newRun);
    NoAttempts(s.runs, c.stage.value);
  }

  lemma {:induction false} NoAttempts(runs: seq<StageRun>, stage: Stage)
    requires forall i | 0 <= i < |runs| :: runs[i].stage != stage
    ensures Attempts(runs, stage) == 0
  {
    if runs != [] {
      NoAttempts(runs[..|runs| - 1], stage);
    }
  }

  /** An accepted review is of the last run, whose stage is the one in review. */
  lemma ReviewIsOfLast(s: Session, c: Command)
    requires Inv(s) && c.Review? && Step(s, c).Ok?
    ensures s.runs != [] && var last := s.runs[|s.runs| - 1];
            last.id == c.runId && FindRun(s.runs, c.runId) == Some(last) && s.status == InReview(last.stage)
            && Reviewable(s.runs, last.stage) == Some(last)
            && Step(s, c).value.gates == s.gates + [ReviewGate(c.gateId, last.id, c.reviewer, "approved", c.privileged)]
            && Step(s, c).value.approved == s.approved + {last.stage}
  {
    FindRunAt(s.runs, |s.runs| - 1);
  }

  // The stage whose gate is open at a status.
  function StageInReview(status: Status): Option<Stage> {
    match status
    case AnalysisReview => Some(Analysis)
    case DesignReview => Some(Design)
    case CasesReview => Some(Cases)
    case _ => None
  }

  /** When a review is accepted, for every run, reviewer and decision. */
  ghost predicate Passes(s: Session, c: Command)
    requires c.Review?
  {
    && s.runs != [] && s.runs[|s.runs| - 1].id == c.runId
    && StageInReview(s.status) == Some(s.runs[|s.runs| - 1].stage)
    && (c.reviewer != s.createdBy || c.privileged) && c.decision == "approved"
  }

  /**
   At all three stages a review is accepted exactly when it approves the last run listed, which is of the stage in
   review, and comes from someone else than the creator or is privileged. It then records this one gate and approves
   this one stage; the last approval makes the session ready. Any other review is refused.
   */
  lemma ReviewIff(s: Session, c: Command)
    requires Inv(s) && c.Review?
    ensures Step(s, c).Ok? <==> Passes(s, c)
    ensures Step(s, c).Ok? ==>
              var stage := s.runs[|s.runs| - 1].stage;
              Step(s, c).value == s.(gates := s.gates + [ReviewGate(c.gateId, c.runId, c.reviewer, "approved", c.privileged)],
                                     approved := s.approved + {stage}, version := s.version + 1,
                                     status := if stage == Cases then ReadyToImport else s.status)
    ensures Step(s, c).Err? ==>
              Step(s, c).code == if s.runs == [] || s.runs[|s.runs| - 1].id != c.runId then "STAGE_RUN_NOT_REVIEWABLE"
                                 else if c.reviewer == s.createdBy && !c.privileged then "SELF_GATE_FORBIDDEN"
                                 else "GATE_REJECTED"
  {
    if s.runs != [] {
      FindRunAt(s.runs, |s.runs| - 1);
    }
    FoundRun(s.runs, c.runId);
    if Step(s, c).Ok? {
      ReviewIsOfLast(s, c);
    }
  }

  /** A stage runs only from the status before it, is then in review, and leaves gates and approvals as they were. */
  lemma RunStageIff(s: Session, c: Command)
    requires Inv(s) && c.RunStage? && Fresh(s, c)
    ensures Step(s, c).Ok? <==>
            || (c.stage == Some(Analysis) && s.status == Draft)
            || (c.stage == Some(Design) && s.status == AnalysisReview)
            || (c.stage == Some(Cases) && s.status == DesignReview)
    ensures Step(s, c).Ok? ==>
              StageInReview(Step(s, c).value.status) == c.stage
              && Step(s, c).value == s.(status := Step(s, c).value.status, version := s.version + 2,
                                        runs := s.runs + [StageRun(c.newRun, c.stage.value, 1, true)])
    ensures Step(s, c).Err? ==> Step(s, c).code == "GATE_REQUIRED"
  {
    if Step(s, c).Ok? {
      RunAdded(s, c);
    }
  }

  /** An import takes a session that is ready with all three stages approved, and a readable file. */
  lemma ImportIff(s: Session, c: Command)
    requires Inv(s) && c.Import?
    ensures Step(s, c).Ok? <==> s.status == ReadyToImport && Analysis in s.approved && Design in s.approved && Cases in s.approved
                                && c.knownStrategy && c.file.None?
    ensures Step(s, c).Ok? ==> Step(s, c).value == s.(status := Imported, version := s.version + 1)
  {
    forall stage: Stage
      ensures stage in ALL
    {
      match stage { case Analysis => case Design => case Cases => }
    }
  }

  lemma ReviewKeeps(s: Session, c: Command)
    requires Inv(s) && c.Review? && Step(s, c).Ok?
    ensures Inv(Step(s, c).value)
  {
    ReviewIsOfLast(s, c);
    var t := Step(s, c).value;
    assert t.gates[..|t.gates| - 1] == s.gates;
  }

  lemma StepKeepsInv(s: Session, c: Command)
    requires Inv(s) && Fresh(s, c) && Step(s, c).Ok?
    ensures Inv(Step(s, c).value)
  {
    match c
    case RunStage(_, _) => RunKeeps(s, c);
    case Review(_, _, _, _, _) => ReviewKeeps(s, c);
    case Import(_, _) =>
    case Reload => ReloadKeepsAllButOrder(s);
  }

  // ---------------------------------------------------------------------
  // Runs of commands
  // ---------------------------------------------------------------------

  /** The session after n commands; a refused command changes nothing. */
  function From(s: Session, cs: seq<Command>, n: nat): Session
    requires n <= |cs|
    decreases n
  {
    if n == 0 then s
    else
      var t := From(s, cs, n - 1);
      if Step(t, cs[n - 1]).Ok? then Step(t, cs[n - 1]).value else t
  }

  predicate Accepted(s: Session, cs: seq<Command>, i: nat)
    requires i < |cs|
  {
    Step(From(s, cs, i), cs[i]).Ok?
  }

  predicate FreshRun(s: Session, cs: seq<Command>) {
    forall i: nat {:trigger From(s, cs, i)} | i < |cs| :: Fresh(From(s, cs, i), cs[i])
  }

  lemma {:induction false} RunKeepsInv(s: Session, cs: seq<Command>, n: nat)
    requires Inv(s) && FreshRun(s, cs) && n <= |cs|
    ensures Inv(From(s, cs, n))
    ensures From(s, cs, n).createdBy == s.createdBy
    decreases n
  {
    if n > 0 {
      RunKeepsInv(s, cs, n - 1);
      var t := From(s, cs, n - 1);
      assert Fresh(t, cs[n - 1]);
      if Step(t, cs[n - 1]).Ok? {
        StepKeepsInv(t, cs[n - 1]);
      }
    }
  }

  // Step n of a run, from a session that satisfies the invariant.
  lemma RunStep(s: Session, cs: seq<Command>, n: nat)
    requires Inv(s) && FreshRun(s, cs) && n < |cs|
    ensures Inv(From(s, cs, n)) && Fresh(From(s, cs, n), cs[n])
  {
    RunKeepsInv(s, cs, n);
  }

  // ---------------------------------------------------------------------
  // The history of an imported session
  // ---------------------------------------------------------------------

  datatype Event = Ran(stage: Stage) | Gated(stage: Stage, reviewer: Uuid, decision: string, privileged: bool) | WasImported

  function EventsOf(s: Session, c: Command): seq<Event> {
    if Step(s, c).Err? then []
    else
      match c
      case RunStage(stage, _) => [Ran(stage.value)]
      case Review(runId, reviewer, decision, privileged, _) =>
        [Gated(FindRun(s.runs, runId).value.stage, reviewer, decision, privileged)]
      case Import(_, _) => [WasImported]
      case Reload => []
  }

  /** Everything that was accepted, in order. */
  function Log(s: Session, cs: seq<Command>, n: nat): seq<Event>
    requires n <= |cs|
    decreases n
  {
    if n == 0 then [] else Log(s, cs, n - 1) + EventsOf(From(s, cs, n - 1), cs[n - 1])
  }

  /** Approvals of one stage, each by someone else than the creator or marked privileged. */
  predicate GatesOf(es: seq<Event>, stage: Stage, creator: Uuid) {
    forall i {:trigger es[i]} | 0 <= i < |es| ::
      es[i].Gated? && es[i].stage == stage && es[i].decision == "approved"
      && (es[i].reviewer != creator || es[i].privileged)
  }

  /** The history a status stands for, with its approvals of each stage. */
  ghost predicate Story(s: Session, log: seq<Event>, ga: seq<Event>, gd: seq<Event>, gc: seq<Event>) {
    && GatesOf(ga, Analysis, s.createdBy) && GatesOf(gd, Design, s.createdBy) && GatesOf(gc, Cases, s.createdBy)
    && (Analysis in s.approved <==> ga != []) && (Design in s.approved <==> gd != [])
    && match s.status
       case Draft => log == [] && ga == gd == []
       case AnalysisReview => log == [Ran(Analysis)] + ga && gd == []
       case DesignReview => log == [Ran(Analysis)] + ga + [Ran(Design)] + gd
       case CasesReview => log == [Ran(Analysis)] + ga + [Ran(Design)] + gd + [Ran(Cases)]
       case ReadyToImport => log == [Ran(Analysis)] + ga + [Ran(Design)] + gd + [Ran(Cases)] + gc && |gc| == 1
       case Imported =>
         log == [Ran(Analysis)] + ga + [Ran(Design)] + gd + [Ran(Cases)] + gc + [WasImported]
         && |gc| == 1 && ga != [] && gd != []
       case _ => false
  }

  ghost predicate Told(s: Session, log: seq<Event>) {
    exists ga, gd, gc :: Story(s, log, ga, gd, gc)
  }

  lemma StepTold(s: Session, c: Command, log: seq<Event>)
    requires Inv(s) && Fresh(s, c) && Told(s, log) && Step(s, c).Ok?
    ensures Told(Step(s, c).value, log + EventsOf(s, c))
  {
    var ga, gd, gc :| Story(s, log, ga, gd, gc);
    var t := Step(s, c).value;
    match c
    case RunStage(stage, _) => assert Story(t, log + EventsOf(s, c), ga, gd, gc);
    case Review(_, _, _, _, _) => GateTold(s, c, log, ga, gd, gc);
    case Import(_, _) => assert Story(t, log + EventsOf(s, c), ga, gd, gc);
    case Reload =>
      ReloadKeepsAllButOrder(s);
      assert Story(t, log + EventsOf(s, c), ga, gd, gc);
  }

  lemma GateTold(s: Session, c: Command, log: seq<Event>, ga: seq<Event>, gd: seq<Event>, gc: seq<Event>)
    requires Inv(s) && c.Review? && Step(s, c).Ok? && Story(s, log, ga, gd, gc)
    ensures Told(Step(s, c).value, log + EventsOf(s, c))
  {
    ReviewIsOfLast(s, c);
    var t, e := Step(s, c).value, EventsOf(s, c);
    match s.runs[|s.runs| - 1].stage
    case Analysis => assert Story(t, log + e, ga + e, gd, gc);
    case Design => assert Story(t, log + e, ga, gd + e, gc);
    case Cases => assert Story(t, log + e, ga, gd, e);
  }

  // The same for any command, refused or not.
  lemma AnyTold(s: Session, c: Command, log: seq<Event>)
    requires Inv(s) && Fresh(s, c) && Told(s, log)
    ensures Told(if Step(s, c).Ok? then Step(s, c).value else s, log + EventsOf(s, c))
  {
    if Step(s, c).Ok? {
      StepTold(s, c, log);
    } else {
      assert log + EventsOf(s, c) == log;
    }
  }

  lemma NewTold(creator: Uuid)
    ensures Told(NewSession(creator), []) && Inv(NewSession(creator))
    ensures NewSession(creator).createdBy == creator && NewSession(creator).status == Draft && NewSession(creator).version == 1
  {
    assert Story(NewSession(creator), [], [], [], []);
  }

  lemma {:induction false} RunTold(creator: Uuid, cs: seq<Command>, n: nat)
    requires FreshRun(NewSession(creator), cs) && n <= |cs|
    ensures Told(From(NewSession(creator), cs, n), Log(NewSession(creator), cs, n))
    decreases n
  {
    if n == 0 {
      NewTold(creator);
    } else {
      RunTold(creator, cs, n - 1);
      RunStep(NewSession(creator), cs, n - 1);
      AnyTold(From(NewSession(creator), cs, n - 1), cs[n - 1], Log(NewSession(creator), cs, n - 1));
    }
  }

  // The i-th command of the run was an accepted approval of a run of the stage.
  ghost predicate ApprovedAt(s: Session, cs: seq<Command>, i: nat, stage: Stage)
    requires i < |cs|
  {
    && cs[i].Review? && Accepted(s, cs, i) && cs[i].decision == "approved"
    && FindRun(From(s, cs, i).runs, cs[i].runId).Some? && FindRun(From(s, cs, i).runs, cs[i].runId).value.stage == stage
    && (cs[i].reviewer != s.createdBy || cs[i].privileged)
  }

  // The i-th command was an accepted review that recorded the gate.
  ghost predicate RecordedAt(s: Session, cs: seq<Command>, i: nat, gate: ReviewGate)
    requires i < |cs|
  {
    cs[i].Review? && Accepted(s, cs, i)
    && gate == ReviewGate(cs[i].gateId, cs[i].runId, cs[i].reviewer, cs[i].decision, cs[i].privileged)
  }

  /** Over every run, what is approved was approved by an accepted review, and so was every gate on record. */
  lemma {:induction false} ApprovedMeansReviewed(creator: Uuid, cs: seq<Command>, n: nat)
    requires FreshRun(NewSession(creator), cs) && n <= |cs|
    ensures forall stage | stage in From(NewSession(creator), cs, n).approved ::
              exists i: nat :: i < n && ApprovedAt(NewSession(creator), cs, i, stage)
    ensures forall gate | gate in From(NewSession(creator), cs, n).gates ::
              gate.decision == "approved" && exists i: nat :: i < n && RecordedAt(NewSession(creator), cs, i, gate)
    decreases n
  {
    if n > 0 {
      var s0 := NewSession(creator);
      ApprovedMeansReviewed(creator, cs, n - 1);
      RunStep(s0, cs, n - 1);
      RunKeepsInv(s0, cs, n - 1);
      var s, c, t := From(s0, cs, n - 1), cs[n - 1], From(s0, cs, n);
      ReviewedStep(s, c, t);
      if c.Review? && Step(s, c).Ok? {
        ReviewIff(s, c);
        ReviewIsOfLast(s, c);
        assert ApprovedAt(s0, cs, n - 1, s.runs[|s.runs| - 1].stage);
        assert RecordedAt(s0, cs, n - 1, t.gates[|t.gates| - 1]);
      }
    }
  }

  // Only an accepted review adds to the gates and the approvals.
  lemma ReviewedStep(s: Session, c: Command, t: Session)
    requires Inv(s) && Fresh(s, c) && t == if Step(s, c).Ok? then Step(s, c).value else s
    ensures if c.Review? && Step(s, c).Ok? then
              s.runs != [] && t.approved == s.approved + {s.runs[|s.runs| - 1].stage}
              && t.gates == s.gates + [ReviewGate(c.gateId, c.runId, c.reviewer, c.decision, c.privileged)]
            else t.approved == s.approved && t.gates == s.gates
  {
    match c
    case RunStage(_, _) => RunStageIff(s, c);
    case Review(_, _, _, _, _) => ReviewIff(s, c);
    case Import(_, _) => ImportIff(s, c);
    case Reload => ReloadKeepsAllButOrder(s);
  }

  /** An imported session: each stage ran once, in order, and was approved before the next one started. */
  lemma ImportedHistory(creator: Uuid, cs: seq<Command>, n: nat)
    requires FreshRun(NewSession(creator), cs) && n <= |cs|
    requires From(NewSession(creator), cs, n).status == Imported
    ensures exists ga, gd, gc ::
              && Log(NewSession(creator), cs, n) ==
                 [Ran(Analysis)] + ga + [Ran(Design)] + gd + [Ran(Cases)] + [gc] + [WasImported]
              && ga != [] && GatesOf(ga, Analysis, creator) && gd != [] && GatesOf(gd, Design, creator)
              && GatesOf([gc], Cases, creator)
  {
    RunTold(creator, cs, n);
    RunKeepsInv(NewSession(creator), cs, n);
    var t, log := From(NewSession(creator), cs, n), Log(NewSession(creator), cs, n);
    var ga, gd, gc :| Story(t, log, ga, gd, gc);
    assert gc == [gc[0]];
  }

  // ---------------------------------------------------------------------
  // Which sessions can still be imported
  // ---------------------------------------------------------------------

  /** Every stage that has been left behind is approved, and the cases run is still the last one listed. */
  predicate Open(s: Session) {
    match s.status
    case Draft => true
    case AnalysisReview => true
    case DesignReview => Analysis in s.approved
    case CasesReview => Analysis in s.approved && Design in s.approved && s.runs != [] && s.runs[|s.runs| - 1].stage == Cases
    case ReadyToImport => s.approved == ALL
    case Imported => true
    case _ => false
  }

  lemma ClosedStaysClosed(s: Session, c: Command)
    requires Inv(s) && Fresh(s, c) && Step(s, c).Ok? && !Open(s)
    ensures !Open(Step(s, c).value)
  {
    match c
    case RunStage(_, _) =>
    case Review(_, _, _, _, _) => ReviewIsOfLast(s, c);
    case Import(_, _) =>
    case Reload =>
      ReloadKeepsAllButOrder(s);
      ReloadedRuns(s);
  }

  lemma {:induction false} ClosedRun(s: Session, cs: seq<Command>, m: nat, n: nat)
    requires Inv(s) && FreshRun(s, cs) && m <= n <= |cs| && !Open(From(s, cs, m))
    ensures !Open(From(s, cs, n))
    decreases n
  {
    if m < n {
      ClosedRun(s, cs, m, n - 1);
      RunStep(s, cs, n - 1);
      if Accepted(s, cs, n - 1) {
        ClosedStaysClosed(From(s, cs, n - 1), cs[n - 1]);
      }
    }
  }

  // An identifier no run has.
  function NewId(runs: seq<StageRun>): nat {
    if runs == [] then 0 else 1 + runs[0].id + NewId(runs[1..])
  }

  lemma {:induction false} NewIdIsNew(runs: seq<StageRun>, more: nat)
    ensures FindRun(runs, NewId(runs) + more).None?
  {
    if runs != [] {
      NewIdIsNew(runs[1..], 1 + runs[0].id + more);
    }
  }

  // The next command on the way to the import.
  function Next(s: Session): Command
    requires Inv(s) && Open(s)
  {
    if s.status == Draft then RunStage(Some(Analysis), NewId(s.runs))
    else if s.status == AnalysisReview && Analysis in s.approved then RunStage(Some(Design), NewId(s.runs))
    else if s.status == DesignReview && Design in s.approved then RunStage(Some(Cases), NewId(s.runs))
    else if s.status == ReadyToImport then Import(true, None)
    else if s.status == Imported then Reload
    else Review(s.runs[|s.runs| - 1].id, s.createdBy, "approved", true, 0)
  }

  function ToGo(s: Session): nat {
    match s.status
    case Imported => 0
    case ReadyToImport => 1
    case CasesReview => 2
    case DesignReview => if Design in s.approved then 3 else 4
    case AnalysisReview => if Analysis in s.approved then 5 else 6
    case _ => 7
  }

  lemma NextStep(s: Session)
    requires Inv(s) && Open(s) && s.status != Imported
    ensures Fresh(s, Next(s)) && Step(s, Next(s)).Ok?
    ensures Inv(Step(s, Next(s)).value) && Open(Step(s, Next(s)).value) && ToGo(Step(s, Next(s)).value) < ToGo(s)
  {
    var c := Next(s);
    if c.RunStage? {
      NewIdIsNew(s.runs, 0);
    } else if c.Review? {
      FindRunAt(s.runs, |s.runs| - 1);
      ReviewIsOfLast(s, c);
    }
    StepKeepsInv(s, c);
  }

  lemma {:induction false} FromCons(s: Session, c: Command, cs: seq<Command>, n: nat)
    requires Step(s, c).Ok? && n <= |cs|
    ensures From(s, [c] + cs, n + 1) == From(Step(s, c).value, cs, n)
    decreases n
  {
    if n > 0 {
      FromCons(s, c, cs, n - 1);
      assert ([c] + cs)[n] == cs[n - 1];
    }
  }

  ghost predicate Leads(s: Session, cs: seq<Command>) {
    FreshRun(s, cs) && From(s, cs, |cs|).status == Imported
  }

  lemma LeadsCons(s: Session, c: Command, cs: seq<Command>)
    requires Fresh(s, c) && Step(s, c).Ok? && Leads(Step(s, c).value, cs)
    ensures Leads(s, [c] + cs)
  {
    var all := [c] + cs;
    forall i: nat | i < |all|
      ensures Fresh(From(s, all, i), all[i])
    {
      if i > 0 {
        FromCons(s, c, cs, i - 1);
        assert Fresh(From(Step(s, c).value, cs, i - 1), cs[i - 1]);
      }
    }
    FromCons(s, c, cs, |cs|);
  }

  lemma {:induction false} OpenCanFinish(s: Session)
    requires Inv(s) && Open(s)
    ensures CanFinish(s)
    decreases ToGo(s)
  {
    if s.status == Imported {
      assert Leads(s, []);
    } else {
      NextStep(s);
      OpenCanFinish(Step(s, Next(s)).value);
      FinishCons(s, Next(s));
    }
  }

  // Some continuation without a reload imports the session.
  ghost predicate CanFinish(s: Session) { exists cs :: Leads(s, cs) && Reload !in cs }

  lemma FinishCons(s: Session, c: Command)
    requires Fresh(s, c) && c != Reload && Step(s, c).Ok? && CanFinish(Step(s, c).value)
    ensures CanFinish(s)
  {
    var cs :| Leads(Step(s, c).value, cs) && Reload !in cs;
    LeadsCons(s, c, cs);
    assert Leads(s, [c] + cs) && Reload !in [c] + cs;
  }

  /** Some continuation imports a session exactly when it is open. */
  lemma ImportableIff(s: Session)
    requires Inv(s)
    ensures (exists cs :: Leads(s, cs)) <==> Open(s)
  {
    if Open(s) {
      OpenCanFinish(s);
      var cs :| Leads(s, cs) && Reload !in cs;
    }
    forall cs | Leads(s, cs)
      ensures Open(s)
    {
      if !Open(s) {
        ClosedRun(s, cs, 0, |cs|);
      }
    }
  }

  function Previous(stage: Stage): Option<Stage> {
    match stage case Analysis => None case Design => Some(Analysis) case Cases => Some(Design)
  }

  /** A stage started before the previous one was approved: no continuation imports the session. */
  lemma SkippedGateIsFatal(s: Session, cs: seq<Command>, i: nat, n: nat)
    requires Inv(s) && FreshRun(s, cs) && i < n <= |cs|
    requires cs[i].RunStage? && Accepted(s, cs, i)
    requires var p := Previous(cs[i].stage.value); p.Some? && p.value !in From(s, cs, i).approved
    ensures From(s, cs, n).status != Imported && !Open(From(s, cs, n))
  {
    RunStep(s, cs, i);
    assert !Open(From(s, cs, i + 1));
    ClosedRun(s, cs, i + 1, n);
  }

  // ---------------------------------------------------------------------
  // Sessions that are reloaded between requests
  // ---------------------------------------------------------------------

  /** A reviewer can approve the cases exactly while the cases run is the last one listed. */
  lemma CasesGateIff(s: Session, run: StageRun, reviewer: Uuid, privileged: bool, gateId: Uuid)
    requires Inv(s) && s.status == CasesReview && run in s.runs && run.stage == Cases
    ensures Step(s, Review(run.id, reviewer, "approved", privileged, gateId)).Ok? <==>
            (reviewer != s.createdBy || privileged) && s.runs[|s.runs| - 1] == run
  {
    var k :| 0 <= k < |s.runs| && s.runs[k] == run;
    FindRunAt(s.runs, k);
    var c := Review(run.id, reviewer, "approved", privileged, gateId);
    if Step(s, c).Ok? {
      ReviewIsOfLast(s, c);
    }
  }

  predicate CasesLast(s: Session) { s.runs != [] && s.runs[|s.runs| - 1].stage == Cases }

  const CASES_RAN := {CasesReview, ReadyToImport, Imported}

  lemma CasesStep(s: Session, c: Command)
    requires Inv(s) && Fresh(s, c) && Step(s, c).Ok? && s.status in CASES_RAN
    ensures Step(s, c).value.status in CASES_RAN
    ensures CasesLast(Step(s, c).value) <==> CasesLast(s) && c != Reload
  {
    if c.Review? {
      ReviewIsOfLast(s, c);
    } else if c.Reload? {
      CasesReload(s);
    }
  }

  // By stage name the cases come second.
  lemma CasesReload(s: Session)
    requires Inv(s) && s.status in CASES_RAN
    ensures |s.runs| == |ByStageName(s.runs)| == 3 && ByStageName(s.runs)[2].stage == Design
  {
    ReloadedRuns(s);
  }

  /** It is the last one listed exactly when the session was not reloaded since it ran. */
  lemma {:induction false} LastUnlessReloaded(s: Session, cs: seq<Command>, i: nat, n: nat)
    requires Inv(s) && FreshRun(s, cs) && i < n <= |cs|
    requires RunsCases(cs, i) && Accepted(s, cs, i)
    ensures From(s, cs, n).status in CASES_RAN
    ensures CasesLast(From(s, cs, n)) <==> NoReload(cs, i, n)
    decreases n
  {
    if n == i + 1 {
      CasesRun(From(s, cs, i), cs[i]);
    } else {
      LastUnlessReloaded(s, cs, i, n - 1);
      NoReloadNext(cs, i, n);
      RunStep(s, cs, n - 1);
      CasesNext(From(s, cs, n - 1), cs[n - 1], From(s, cs, n));
    }
  }

  lemma CasesNext(s: Session, c: Command, t: Session)
    requires Inv(s) && Fresh(s, c) && s.status in CASES_RAN
    requires t == if Step(s, c).Ok? then Step(s, c).value else s
    ensures t.status in CASES_RAN && (CasesLast(t) <==> CasesLast(s) && c != Reload)
  {
    assert c == Reload ==> Step(s, c).Ok?;
    if Step(s, c).Ok? {
      CasesStep(s, c);
    }
  }

  lemma CasesRun(s: Session, c: Command)
    requires c.RunStage? && c.stage == Some(Cases) && Step(s, c).Ok?
    ensures Step(s, c).value.status == CasesReview && CasesLast(Step(s, c).value)
  {
  }

  // No command after the i-th is a reload.
  predicate NoReload(cs: seq<Command>, i: nat, n: nat)
    requires n <= |cs|
  {
    forall j | i < j < n :: cs[j] != Reload
  }

  lemma NoReloadNext(cs: seq<Command>, i: nat, n: nat)
    requires i + 1 < n <= |cs|
    ensures NoReload(cs, i, n) <==> NoReload(cs, i, n - 1) && cs[n - 1] != Reload
  {
  }

  predicate RunsCases(cs: seq<Command>, i: nat)
    requires i < |cs|
  {
    cs[i].RunStage? && cs[i].stage == Some(Cases)
  }

  predicate ReloadAfterCases(cs: seq<Command>) {
    forall i: nat {:trigger RunsCases(cs, i)} | i + 1 < |cs| && RunsCases(cs, i) :: cs[i + 1] == Reload
  }

  // A cases run in review that is no longer the last one listed stays in review.
  lemma OvertakenStep(s: Session, c: Command)
    requires Inv(s) && Fresh(s, c) && Step(s, c).Ok? && s.status == CasesReview && (c == Reload || !CasesLast(s))
    ensures Step(s, c).value.status == CasesReview && !CasesLast(Step(s, c).value)
  {
    if c.Review? {
      ReviewIsOfLast(s, c);
    } else if c.Reload? {
      CasesStep(s, c);
    }
  }

  /** With a reload after the cases run, as between two requests over the database, nothing is ever imported. */
  lemma {:induction false} ReloadedNeverImported(creator: Uuid, cs: seq<Command>, n: nat)
    requires FreshRun(NewSession(creator), cs) && ReloadAfterCases(cs) && n <= |cs|
    ensures From(NewSession(creator), cs, n).status !in {ReadyToImport, Imported}
    ensures var t := From(NewSession(creator), cs, n);
            t.status == CasesReview ==>
              (n > 0 && RunsCases(cs, n - 1)) || !CasesLast(t)
    decreases n
  {
    var s := NewSession(creator);
    if n > 0 {
      ReloadedNeverImported(creator, cs, n - 1);
      RunStep(s, cs, n - 1);
      var t := From(s, cs, n - 1);
      if Accepted(s, cs, n - 1) && t.status == CasesReview {
        assert CasesLast(t) ==> n > 1 && RunsCases(cs, n - 2) && cs[n - 1] == Reload;
        OvertakenStep(t, cs[n - 1]);
      }
    }
  }

  // ---------------------------------------------------------------------
  // The aggregate and the service
  // ---------------------------------------------------------------------

  class DesignSession {
    const createdBy: Uuid
    var status: Status
    var version: nat
    var runs: seq<StageRun>
    var approved: set<Stage>
    var gates: seq<ReviewGate>

    function View(): Session
      reads this
    {
      Session(createdBy, status, version, runs, approved, gates)
    }

    constructor (createdBy: Uuid)
      ensures this.createdBy == createdBy && View() == NewSession(createdBy)
    {
      this.createdBy := createdBy;
      status, version, runs, approved, gates := Draft, 1, [], {}, [];
    }

    method CountRuns(stage: Stage) returns (n: nat)
      ensures n == Attempts(runs, stage)
    {
      n := 0;
      for i := 0 to |runs|
        invariant n == Attempts(runs[..i], stage)
      {
        assert runs[..i + 1][..i] == runs[..i];
        if runs[i].stage == stage {
          n := n + 1;
        }
      }
      assert runs[..|runs|] == runs;
    }

    /** Queue a stage, if the session is where the stage begins. */
    method StartStage(stage: Option<Stage>, newRun: Uuid) returns (r: Result<nat>)
      modifies this
      ensures r.Ok? <==> stage.Some? && old(status) == Before(stage.value)
      ensures r.Err? ==> r.code == "GATE_REQUIRED" && View() == old(View())
      ensures r.Ok? ==>
                var run := StageRun(newRun, stage.value, 1 + Attempts(old(runs), stage.value), false);
                && r.value == |old(runs)|
                && View() == old(View()).(status := During(stage.value), version := old(version) + 1, runs := old(runs) + [run])
    {
      if stage.None? || status != Before(stage.value) {
        return Err("GATE_REQUIRED");
      }
      var earlier := CountRuns(stage.value);
      status := During(stage.value);
      version := version + 1;
      runs := runs + [StageRun(newRun, stage.value, 1 + earlier, false)];
      return Ok(|runs| - 1);
    }

    /** Complete the run in place k. */
    method CompleteStage(k: nat)
      requires k < |runs|
      modifies this
      ensures View() == old(View()).(status := InReview(old(runs)[k].stage), version := old(version) + 1,
                                     runs := old(runs)[k := old(runs)[k].(completed := true)])
    {
      runs := runs[k := runs[k].(completed := true)];
      status := InReview(runs[k].stage);
      version := version + 1;
    }

    // The last completed run of a stage.
    method LastCompleted(stage: Stage) returns (run: Option<StageRun>)
      ensures run == Reviewable(runs, stage)
    {
      var i := |runs|;
      assert runs[..|runs|] == runs;
      while i > 0
        invariant 0 <= i <= |runs|
        invariant Reviewable(runs[..i], stage) == Reviewable(runs, stage)
      {
        assert runs[..i][..i - 1] == runs[..i - 1];
        if runs[i - 1].stage == stage && runs[i - 1].completed {
          return Some(runs[i - 1]);
        }
        i := i - 1;
      }
      return None;
    }

    /** Record an approval and advance. */
    method DoApplyGate(stage: Stage, reviewer: Uuid, decision: string, privileged: bool, gateId: Uuid) returns (r: Result<Uuid>)
      modifies this
      ensures var want := ApplyGate(old(View()), stage, reviewer, decision, privileged, gateId);
              r.Ok? == want.Ok? && (r.Err? ==> r.code == want.code)
              && View() == if want.Ok? then want.value else old(View())
    {
      if reviewer == createdBy && !privileged {
        return Err("SELF_GATE_FORBIDDEN");
      }
      if status != InReview(stage) || decision != "approved" {
        return Err("GATE_REJECTED");
      }
      var run := LastCompleted(stage);
      if run.None? {
        return Err("STAGE_RUN_NOT_REVIEWABLE");
      }
      gates := gates + [ReviewGate(gateId, run.value.id, reviewer, decision, privileged)];
      approved := approved + {stage};
      status := Approved(stage);
      version := version + 1;
      return Ok(gateId);
    }

    method MarkImported() returns (r: Result<nat>)
      modifies this
      ensures r.Ok? <==> old(status) == ReadyToImport && old(approved) == ALL
      ensures r.Err? ==> r.code == "GATE_REQUIRED"
      ensures View() == if r.Ok? then old(View()).(status := Imported, version := old(version) + 1) else old(View())
    {
      if status != ReadyToImport || approved != ALL {
        return Err("GATE_REQUIRED");
      }
      status := Imported;
      version := version + 1;
      return Ok(version);
    }
  }

  // The sessions of the unit of work, by project and identifier.
  class DesignService {
    var sessions: map<(Uuid, Uuid), DesignSession>
    var batches: seq<(Uuid, Uuid)>

    constructor ()
      ensures sessions == map[] && batches == []
    {
      sessions, batches := map[], [];
    }

    /** Run one stage from start to completion. */
    method DoRunStage(key: (Uuid, Uuid), stage: Option<Stage>, newRun: Uuid) returns (r: Result<nat>)
      modifies if key in sessions then {sessions[key]} else {}
      ensures key !in sessions ==> r == Err("RESOURCE_NOT_FOUND")
      ensures key in sessions ==>
                var want := Step(old(sessions[key].View()), RunStage(stage, newRun));
                r.Ok? == want.Ok? && (r.Err? ==> r.code == want.code)
                && sessions[key].View() == if want.Ok? then want.value else old(sessions[key].View())
    {
      if key !in sessions {
        return Err("RESOURCE_NOT_FOUND");
      }
      var session := sessions[key];
      var started := session.StartStage(stage, newRun);
      if started.Err? {
        return Err(started.code);
      }
      session.CompleteStage(started.value);
      return Ok(session.version);
    }

    // The first run with an identifier.
    method LookUp(runs: seq<StageRun>, id: Uuid) returns (run: Option<StageRun>)
      ensures run == FindRun(runs, id)
    {
      for i := 0 to |runs|
        invariant FindRun(runs[i..], id) == FindRun(runs, id)
      {
        if runs[i].id == id {
          return Some(runs[i]);
        }
        assert runs[i..][1..] == runs[i + 1..];
      }
      return None;
    }

    /** Apply a human gate to the latest run. */
    method DoReview(key: (Uuid, Uuid), runId: Uuid, reviewer: Uuid, decision: string, privileged: bool, gateId: Uuid)
      returns (r: Result<Uuid>)
      modifies if key in sessions then {sessions[key]} else {}
      ensures key !in sessions ==> r == Err("RESOURCE_NOT_FOUND")
      ensures key in sessions ==>
                var want := Step(old(sessions[key].View()), Review(runId, reviewer, decision, privileged, gateId));
                r.Ok? == want.Ok? && (r.Err? ==> r.code == want.code)
                && sessions[key].View() == if want.Ok? then want.value else old(sessions[key].View())
    {
      if key !in sessions {
        return Err("RESOURCE_NOT_FOUND");
      }
      var session := sessions[key];
      var run := LookUp(session.runs, runId);
      if run.None? || !run.value.completed || session.runs[|session.runs| - 1].id != runId {
        return Err("STAGE_RUN_NOT_REVIEWABLE");
      }
      r := session.DoApplyGate(run.value.stage, reviewer, decision, privileged, gateId);
    }

    /** Append an import batch and close the session. */
    method DoImport(key: (Uuid, Uuid), knownStrategy: bool, file: Option<string>) returns (r: Result<nat>)
      modifies this`batches, if key in sessions then {sessions[key]} else {}
      ensures key !in sessions ==> r == Err("RESOURCE_NOT_FOUND") && batches == old(batches)
      ensures key in sessions ==>
                var want := Step(old(sessions[key].View()), Import(knownStrategy, file));
                r.Ok? == want.Ok? && (r.Err? ==> r.code == want.code)
                && sessions[key].View() == (if want.Ok? then want.value else old(sessions[key].View()))
                && batches == old(batches) + if want.Ok? then [key] else []
    {
      if key !in sessions {
        return Err("RESOURCE_NOT_FOUND");
      }
      var session := sessions[key];
      if session.status != ReadyToImport || session.approved != ALL {
        return Err("GATE_REQUIRED");
      }
      if !knownStrategy {
        return Err("INVALID_CONFLICT_STRATEGY");
      }
      if file.Some? {
        return Err(file.value);
      }
      batches := batches + [key];
      r := session.MarkImported();
    }
  }
}
