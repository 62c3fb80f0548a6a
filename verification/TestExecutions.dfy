/**
 Test executions in tp-service: attempts that are appended and never overwritten, and three counts
 of the latest ones: the published report, the portal over memory and the portal over rows.
 */
module TestExecutions {
  import opened Options

  datatype RunStatus = NotRun | Running | Passed | Failed | Blocked | Skipped

  datatype Attempt = Attempt(id: Uuid, caseRef: Uuid, attemptNo: nat, status: RunStatus, actualResult: string, version: nat)

  datatype ExecutionStatus = InDraft | InProgress | Completed

  datatype Execution = Execution(status: ExecutionStatus, attempts: map<Uuid, seq<Attempt>>, version: nat)

  // A started case comes with the identifier of its first attempt; a result that is none of the statuses is None.
  datatype Command =
    | Start(cases: seq<(Uuid, Uuid)>)
    | Rerun(caseRef: Uuid, newId: Uuid)
    | Transition(caseRef: Uuid, result: Option<RunStatus>, actualResult: string)
    | Correct(caseRef: Uuid, result: Option<RunStatus>, actualResult: string, newId: Uuid)

  // What a command leaves behind, and its error if it raised one.
  datatype Outcome = Outcome(execution: Execution, error: Option<string>)

  const NEW := Execution(InDraft, map[], 1)

  const TERMINAL := {Passed, Failed, Blocked, Skipped}

  // ---------------------------------------------------------------------
  // Commands
  // ---------------------------------------------------------------------

  predicate Allowed(from: RunStatus, to: RunStatus) {
    (from == NotRun && to == Running) || (from == Running && to in TERMINAL)
  }

  function Moved(a: Attempt, result: Option<RunStatus>, actual: string): Result<Attempt> {
    if result.None? || !Allowed(a.status, result.value) || (result.value in {Failed, Blocked} && Blank(actual)) then
      Err("INVALID_CASE_RUN_TRANSITION")
    else Ok(a.(status := result.value, actualResult := actual, version := a.version + 1))
  }

  function FirstAttempt(id: Uuid, caseRef: Uuid): Attempt { Attempt(id, caseRef, 1, NotRun, "", 1) }

  function Started(cases: seq<(Uuid, Uuid)>): map<Uuid, seq<Attempt>> {
    if cases == [] then map[]
    else
      var (caseRef, id) := cases[|cases| - 1];
      Started(cases[..|cases| - 1])[caseRef := [FirstAttempt(id, caseRef)]]
  }

  function Latest(runs: seq<Attempt>): Attempt
    requires runs != []
  {
    runs[|runs| - 1]
  }

  predicate HasRuns(e: Execution, caseRef: Uuid) { caseRef in e.attempts && e.attempts[caseRef] != [] }

  // The latest attempt of a case is replaced.
  function WithLatest(e: Execution, caseRef: Uuid, a: Attempt, version: nat): Execution
    requires HasRuns(e, caseRef)
  {
    var runs := e.attempts[caseRef];
    e.(attempts := e.attempts[caseRef := runs[|runs| - 1 := a]], version := version)
  }

  function Rerunning(e: Execution, caseRef: Uuid, newId: Uuid): Outcome {
    if !HasRuns(e, caseRef) then Outcome(e, Some("CASE_RUN_NOT_FOUND"))
    else
      var last := Latest(e.attempts[caseRef]);
      if last.status !in TERMINAL then Outcome(e, Some("RERUN_NOT_ALLOWED"))
      else
        var next := Attempt(newId, last.caseRef, last.attemptNo + 1, NotRun, "", 1);
        Outcome(e.(attempts := e.attempts[caseRef := e.attempts[caseRef] + [next]], version := e.version + 1), None)
  }

  function Step(e: Execution, c: Command): Outcome {
    match c
    case Start(cases) =>
      if e.status != InDraft || cases == [] then Outcome(e, Some("EXECUTION_NOT_STARTABLE"))
      else Outcome(Execution(InProgress, Started(cases), e.version + 1), None)
    case Rerun(caseRef, newId) => Rerunning(e, caseRef, newId)
    case Transition(caseRef, result, actual) =>
      if !HasRuns(e, caseRef) then Outcome(e, Some("CASE_RUN_NOT_FOUND"))
      else
        var moved := Moved(Latest(e.attempts[caseRef]), result, actual);
        if moved.Err? then Outcome(e, Some(moved.code))
        else Outcome(WithLatest(e, caseRef, moved.value, e.version + 1), None)
    case Correct(caseRef, result, actual, newId) =>
      // Three steps; an error in the last one leaves the second behind.
      var rerun := Rerunning(e, caseRef, newId);
      if rerun.error.Some? then rerun
      else
        var running := Latest(rerun.execution.attempts[caseRef]).(status := Running, version := 2);
        var moved := Moved(running, result, actual);
        Outcome(WithLatest(rerun.execution, caseRef, if moved.Ok? then moved.value else running, rerun.execution.version),
                if moved.Ok? then None else Some(moved.code))
  }

  // ---------------------------------------------------------------------
  // What every execution satisfies
  // ---------------------------------------------------------------------

  /** Attempts are numbered from 1, and only the last one can be unfinished. */
  ghost predicate Chain(runs: seq<Attempt>, caseRef: Uuid) {
    && runs != []
    && forall i {:trigger runs[i]} | 0 <= i < |runs| ::
         && runs[i].caseRef == caseRef && runs[i].attemptNo == i + 1
         && (i < |runs| - 1 ==> runs[i].status in TERMINAL)
         && (runs[i].status in {Failed, Blocked} ==> !Blank(runs[i].actualResult))
  }

  ghost predicate Inv(e: Execution) {
    && (e.status == InDraft <==> e.attempts == map[])
    && forall c {:trigger Chain(e.attempts[c], c)} | c in e.attempts :: Chain(e.attempts[c], c)
  }

  function Rank(s: RunStatus): nat { if s == NotRun then 0 else if s == Running then 1 else 2 }

  /** What may become of an attempt: nothing, or a later status. */
  predicate Later(a: Attempt, b: Attempt) {
    a.id == b.id && a.caseRef == b.caseRef && a.attemptNo == b.attemptNo && (a == b || Rank(a.status) < Rank(b.status))
  }

  ghost predicate Longer(runs: seq<Attempt>, more: seq<Attempt>) {
    |runs| <= |more| && forall i {:trigger Later(runs[i], more[i])} | 0 <= i < |runs| :: Later(runs[i], more[i])
  }

  /** What may become of an execution: more attempts, and later statuses of the ones it has. */
  ghost predicate Extends(e: Execution, f: Execution) {
    && (e.status != InDraft ==> f.status == e.status && f.attempts.Keys == e.attempts.Keys)
    && e.attempts.Keys <= f.attempts.Keys
    && forall c {:trigger e.attempts[c]} {:trigger f.attempts[c]} | c in e.attempts :: Longer(e.attempts[c], f.attempts[c])
  }

  lemma LongerTrans(a: seq<Attempt>, b: seq<Attempt>, c: seq<Attempt>)
    requires Longer(a, b) && Longer(b, c)
    ensures Longer(a, c)
  {
    forall i | 0 <= i < |a|
      ensures Later(a[i], c[i])
    {
      assert Later(a[i], b[i]) && Later(b[i], c[i]);
    }
  }

  lemma ExtendsTrans(e: Execution, f: Execution, g: Execution)
    requires Extends(e, f) && Extends(f, g)
    ensures Extends(e, g)
  {
    forall c | c in e.attempts
      ensures Longer(e.attempts[c], g.attempts[c])
    {
      LongerTrans(e.attempts[c], f.attempts[c], g.attempts[c]);
    }
  }

  // One case's attempts are replaced by a longer chain.
  lemma CaseKeepsInv(e: Execution, caseRef: Uuid, runs: seq<Attempt>, version: nat)
    requires Inv(e) && caseRef in e.attempts && Chain(runs, caseRef) && Longer(e.attempts[caseRef], runs)
    ensures var f := e.(attempts := e.attempts[caseRef := runs], version := version);
            Inv(f) && Extends(e, f)
  {
  }

  lemma MovedIsLater(a: Attempt, result: Option<RunStatus>, actual: string)
    requires Moved(a, result, actual).Ok?
    ensures var b := Moved(a, result, actual).value;
            Later(a, b) && (b.status in {Failed, Blocked} ==> !Blank(b.actualResult)) && a.status !in TERMINAL
  {
  }

  lemma {:induction false} StartedAt(cases: seq<(Uuid, Uuid)>, c: Uuid)
    requires c in Started(cases)
    ensures exists k :: 0 <= k < |cases| && cases[k].0 == c && Started(cases)[c] == [FirstAttempt(cases[k].1, c)]
    decreases |cases|
  {
    var last := |cases| - 1;
    if c == cases[last].0 {
      assert Started(cases)[c] == [FirstAttempt(cases[last].1, c)];
    } else {
      var init := cases[..last];
      StartedAt(init, c);
      var k :| 0 <= k < |init| && init[k].0 == c && Started(init)[c] == [FirstAttempt(init[k].1, c)];
      assert cases[k] == init[k];
    }
  }

  lemma StartKeepsInv(e: Execution, c: Command)
    requires Inv(e) && c.Start?
    ensures Inv(Step(e, c).execution) && Extends(e, Step(e, c).execution)
  {
    var f := Step(e, c).execution;
    if Step(e, c).error.None? {
      assert c.cases[|c.cases| - 1].0 in f.attempts;
      forall r | r in f.attempts
        ensures Chain(f.attempts[r], r)
      {
        StartedAt(c.cases, r);
      }
    }
  }

  lemma RerunKeepsInv(e: Execution, caseRef: Uuid, newId: Uuid)
    requires Inv(e)
    ensures Inv(Rerunning(e, caseRef, newId).execution) && Extends(e, Rerunning(e, caseRef, newId).execution)
  {
    var done := Rerunning(e, caseRef, newId);
    if done.error.None? {
      assert Chain(e.attempts[caseRef], caseRef);
      CaseKeepsInv(e, caseRef, done.execution.attempts[caseRef], done.execution.version);
    }
  }

  /** Every command, refused or not, keeps the chains and only extends them. */
  lemma StepKeepsInv(e: Execution, c: Command)
    requires Inv(e)
    ensures Inv(Step(e, c).execution) && Extends(e, Step(e, c).execution)
  {
    match c
    case Start(_) => StartKeepsInv(e, c);
    case Rerun(caseRef, newId) => RerunKeepsInv(e, caseRef, newId);
    case Transition(caseRef, result, actual) =>
      if HasRuns(e, caseRef) && Moved(Latest(e.attempts[caseRef]), result, actual).Ok? {
        assert Chain(e.attempts[caseRef], caseRef);
        MovedIsLater(Latest(e.attempts[caseRef]), result, actual);
        CaseKeepsInv(e, caseRef, Step(e, c).execution.attempts[caseRef], e.version + 1);
      }
    case Correct(_, _, _, _) => CorrectKeepsInv(e, c);
  }

  lemma CorrectKeepsInv(e: Execution, c: Command)
    requires Inv(e) && c.Correct?
    ensures Inv(Step(e, c).execution) && Extends(e, Step(e, c).execution)
  {
    RerunKeepsInv(e, c.caseRef, c.newId);
    var f := Rerunning(e, c.caseRef, c.newId).execution;
    if Rerunning(e, c.caseRef, c.newId).error.None? {
      assert Chain(f.attempts[c.caseRef], c.caseRef);
      CaseKeepsInv(f, c.caseRef, Step(e, c).execution.attempts[c.caseRef], f.version);
      ExtendsTrans(e, f, Step(e, c).execution);
    }
  }

  /** The execution after n commands. */
  function From(e: Execution, cs: seq<Command>, n: nat): Execution
    requires n <= |cs|
    decreases n
  {
    if n == 0 then e else Step(From(e, cs, n - 1), cs[n - 1]).execution
  }

  lemma {:induction false} RunKeepsInv(e: Execution, cs: seq<Command>, n: nat)
    requires Inv(e) && n <= |cs|
    ensures Inv(From(e, cs, n))
    decreases n
  {
    if n > 0 {
      RunKeepsInv(e, cs, n - 1);
      StepKeepsInv(From(e, cs, n - 1), cs[n - 1]);
    }
  }

  lemma {:induction false} RunExtends(e: Execution, cs: seq<Command>, m: nat, n: nat)
    requires Inv(e) && m <= n <= |cs|
    ensures Extends(From(e, cs, m), From(e, cs, n))
    decreases n
  {
    if m < n {
      RunExtends(e, cs, m, n - 1);
      RunKeepsInv(e, cs, n - 1);
      StepKeepsInv(From(e, cs, n - 1), cs[n - 1]);
      ExtendsTrans(From(e, cs, m), From(e, cs, n - 1), From(e, cs, n));
    }
  }

  /** In every reachable execution attempts are numbered 1..n, only the last can be open, and finished ones never change. */
  lemma FinishedAttemptsNeverChange(cs: seq<Command>, m: nat, n: nat, caseRef: Uuid, i: nat)
    requires m <= n <= |cs| && caseRef in From(NEW, cs, m).attempts && i < |From(NEW, cs, m).attempts[caseRef]|
    ensures caseRef in From(NEW, cs, n).attempts && i < |From(NEW, cs, n).attempts[caseRef]|
    ensures var a, b := From(NEW, cs, m).attempts[caseRef][i], From(NEW, cs, n).attempts[caseRef][i];
            && a.attemptNo == i + 1 && b.attemptNo == i + 1 && Later(a, b)
            && (i + 1 < |From(NEW, cs, m).attempts[caseRef]| ==> a.status in TERMINAL)
            && (a.status in TERMINAL ==> a == b)
  {
    RunKeepsInv(NEW, cs, m);
    RunExtends(NEW, cs, m, n);
    assert Chain(From(NEW, cs, m).attempts[caseRef], caseRef);
    assert Later(From(NEW, cs, m).attempts[caseRef][i], From(NEW, cs, n).attempts[caseRef][i]);
  }

  // ---------------------------------------------------------------------
  // Reports and the portal
  // ---------------------------------------------------------------------

  // The cases whose latest attempt has a status.
  ghost function CasesIn(attempts: map<Uuid, seq<Attempt>>, s: RunStatus): set<Uuid> {
    set c | c in attempts && attempts[c] != [] && Latest(attempts[c]).status == s
  }

  datatype Summary = Summary(passed: nat, failed: nat, blocked: nat, skipped: nat)

  ghost predicate Publishable(e: Execution) {
    && e.status in {InProgress, Completed} && e.attempts != map[]
    && forall c {:trigger e.attempts[c]} | c in e.attempts :: e.attempts[c] != [] && Latest(e.attempts[c]).status in TERMINAL
  }

  ghost function SummaryOf(attempts: map<Uuid, seq<Attempt>>): Summary {
    Summary(|CasesIn(attempts, Passed)|, |CasesIn(attempts, Failed)|, |CasesIn(attempts, Blocked)|,
            |CasesIn(attempts, Skipped)|)
  }

  // The cases whose latest attempt has one of several statuses.
  ghost function Among(attempts: map<Uuid, seq<Attempt>>, ss: set<RunStatus>): set<Uuid> {
    set c | c in attempts && attempts[c] != [] && Latest(attempts[c]).status in ss
  }

  lemma AmongMore(attempts: map<Uuid, seq<Attempt>>, ss: set<RunStatus>, s: RunStatus)
    requires s !in ss
    ensures |Among(attempts, ss + {s})| == |Among(attempts, ss)| + |CasesIn(attempts, s)|
  {
    assert Among(attempts, ss + {s}) == Among(attempts, ss) + CasesIn(attempts, s);
    assert Among(attempts, ss) !! CasesIn(attempts, s);
  }

  lemma AmongTerminal(attempts: map<Uuid, seq<Attempt>>)
    ensures |Among(attempts, TERMINAL)| ==
            |CasesIn(attempts, Passed)| + |CasesIn(attempts, Failed)| + |CasesIn(attempts, Blocked)| + |CasesIn(attempts, Skipped)|
  {
    assert Among(attempts, {}) == {};
    AmongMore(attempts, {}, Passed);
    AmongMore(attempts, {} + {Passed}, Failed);
    AmongMore(attempts, {} + {Passed} + {Failed}, Blocked);
    AmongMore(attempts, {} + {Passed} + {Failed} + {Blocked}, Skipped);
    assert {} + {Passed} + {Failed} + {Blocked} + {Skipped} == TERMINAL;
  }

  /** The published counts add up to the number of cases. */
  lemma SummaryAddsUp(e: Execution)
    requires Publishable(e)
    ensures var s := SummaryOf(e.attempts); s.passed + s.failed + s.blocked + s.skipped == |e.attempts|
  {
    AmongTerminal(e.attempts);
    assert Among(e.attempts, TERMINAL) == e.attempts.Keys;
  }

  datatype Bucket = PendingBucket | RunningBucket | PassedBucket | FailedBucket

  function CountOf(counts: map<RunStatus, nat>, s: RunStatus): nat { if s in counts then counts[s] else 0 }

  function Total(counts: map<RunStatus, nat>): nat {
    CountOf(counts, NotRun) + CountOf(counts, Running) + CountOf(counts, Passed) + CountOf(counts, Failed)
    + CountOf(counts, Blocked) + CountOf(counts, Skipped)
  }

  function TotalTerminal(counts: map<RunStatus, nat>): nat {
    CountOf(counts, Passed) + CountOf(counts, Failed) + CountOf(counts, Blocked) + CountOf(counts, Skipped)
  }

  /** The portal's bucket for an execution. */
  function Derive(status: ExecutionStatus, counts: map<RunStatus, nat>): Bucket {
    if status == InDraft then PendingBucket
    else if Total(counts) == 0 || TotalTerminal(counts) < Total(counts) then RunningBucket
    else if CountOf(counts, Failed) + CountOf(counts, Blocked) > 0 then FailedBucket
    else PassedBucket
  }

  // Counts of the latest attempts, whatever way they were found.
  ghost predicate Counts(e: Execution, counts: map<RunStatus, nat>) {
    forall s :: CountOf(counts, s) == |CasesIn(e.attempts, s)|
  }

  /** The portal says passed or failed exactly of what can be published, and failed exactly when a case failed or was blocked. */
  lemma PortalAgreesWithReport(e: Execution, counts: map<RunStatus, nat>)
    requires Inv(e) && Counts(e, counts)
    ensures Derive(e.status, counts) in {PassedBucket, FailedBucket} <==> Publishable(e)
    ensures Derive(e.status, counts) == FailedBucket <==>
            Publishable(e) && SummaryOf(e.attempts).failed + SummaryOf(e.attempts).blocked > 0
    ensures Derive(e.status, counts) == PendingBucket <==> e.attempts == map[]
  {
    TotalIsCases(e, counts);
    var n, r := CasesIn(e.attempts, NotRun), CasesIn(e.attempts, Running);
    assert CountOf(counts, NotRun) == |n| && CountOf(counts, Running) == |r|;
    forall c | c in e.attempts
      ensures Chain(e.attempts[c], c) && (c in n || c in r || Latest(e.attempts[c]).status in TERMINAL)
    {
      assert Chain(e.attempts[c], c);
    }
    if e.attempts != map[] {
      var c :| c in e.attempts;
      assert |e.attempts| > 0 by {
        assert c in e.attempts.Keys;
      }
    }
    assert Publishable(e) ==> n == {} && r == {};
    assert n == {} && r == {} && e.attempts != map[] ==> Publishable(e);
  }

  lemma TotalIsCases(e: Execution, counts: map<RunStatus, nat>)
    requires Inv(e) && Counts(e, counts)
    ensures Total(counts) == |e.attempts|
    ensures TotalTerminal(counts) == |Among(e.attempts, TERMINAL)|
  {
    AmongTerminal(e.attempts);
    AmongMore(e.attempts, TERMINAL, NotRun);
    AmongMore(e.attempts, TERMINAL + {NotRun}, Running);
    var all := TERMINAL + {NotRun} + {Running};
    forall s: RunStatus
      ensures s in all
    {
      match s { case NotRun => case Running => case Passed => case Failed => case Blocked => case Skipped => }
    }
    forall c | c in e.attempts
      ensures c in Among(e.attempts, all)
    {
      assert Chain(e.attempts[c], c);
    }
    assert Among(e.attempts, all) == e.attempts.Keys;
  }

  // The attempt with the highest number, the first of them if there are several.
  function Highest(runs: seq<Attempt>): Attempt
    requires runs != []
  {
    var init, last := runs[..|runs| - 1], runs[|runs| - 1];
    if init == [] then last
    else
      var best := Highest(init);
      if best.attemptNo >= last.attemptNo then best else last
  }

  lemma {:induction false} HighestIn(runs: seq<Attempt>)
    requires runs != []
    ensures Highest(runs) in runs
  {
    if |runs| > 1 {
      HighestIn(runs[..|runs| - 1]);
    }
  }

  /** In a chain the attempt with the highest number is the last one. */
  lemma HighestIsLatest(runs: seq<Attempt>, caseRef: Uuid)
    requires Chain(runs, caseRef)
    ensures Highest(runs) == Latest(runs)
  {
  }

  // ---------------------------------------------------------------------
  // What each command does
  // ---------------------------------------------------------------------

  // A result that the attempt can take, with the text that it needs.
  predicate Accepts(s: RunStatus, result: Option<RunStatus>, actual: string) {
    || (s == NotRun && result == Some(Running))
    || (s == Running && (result == Some(Passed) || result == Some(Skipped)))
    || (s == Running && (result == Some(Failed) || result == Some(Blocked)) && !Blank(actual))
  }

  // The same attempt with a result.
  predicate Holding(a: Attempt, b: Attempt, result: RunStatus, actual: string, version: nat) {
    b.id == a.id && b.caseRef == a.caseRef && b.attemptNo == a.attemptNo && b.status == result && b.actualResult == actual
    && b.version == version
  }

  // Only this case's attempts differ.
  ghost predicate OnlyCase(e: Execution, f: Execution, caseRef: Uuid) {
    && f.status == e.status && f.attempts.Keys == e.attempts.Keys
    && forall c {:trigger f.attempts[c]} | c in e.attempts && c != caseRef :: f.attempts[c] == e.attempts[c]
  }

  /** A transition gives the latest attempt the requested result and text, if it accepts them, and changes nothing else. */
  lemma TransitionEffect(e: Execution, caseRef: Uuid, result: Option<RunStatus>, actual: string)
    requires Inv(e)
    ensures var out := Step(e, Transition(caseRef, result, actual));
            var f := out.execution;
            if caseRef !in e.attempts then out == Outcome(e, Some("CASE_RUN_NOT_FOUND"))
            else
              var runs := e.attempts[caseRef];
              runs != [] && if !Accepts(runs[|runs| - 1].status, result, actual) then
                out == Outcome(e, Some("INVALID_CASE_RUN_TRANSITION"))
              else
                && out.error.None? && f.version == e.version + 1 && OnlyCase(e, f, caseRef)
                && |f.attempts[caseRef]| == |runs| && f.attempts[caseRef][..|runs| - 1] == runs[..|runs| - 1]
                && Holding(runs[|runs| - 1], f.attempts[caseRef][|runs| - 1], result.value, actual, runs[|runs| - 1].version + 1)
  {
    if caseRef in e.attempts {
      assert Chain(e.attempts[caseRef], caseRef);
    }
  }

  /** A rerun appends one attempt, not run yet, to a case whose latest attempt is finished. */
  lemma RerunEffect(e: Execution, caseRef: Uuid, newId: Uuid)
    requires Inv(e)
    ensures var out := Step(e, Rerun(caseRef, newId));
            var f := out.execution;
            if caseRef !in e.attempts then out == Outcome(e, Some("CASE_RUN_NOT_FOUND"))
            else
              var runs := e.attempts[caseRef];
              runs != [] && if runs[|runs| - 1].status == NotRun || runs[|runs| - 1].status == Running then
                out == Outcome(e, Some("RERUN_NOT_ALLOWED"))
              else
                && out.error.None? && f.version == e.version + 1 && OnlyCase(e, f, caseRef)
                && f.attempts[caseRef] == runs + [Attempt(newId, caseRef, |runs| + 1, NotRun, "", 1)]
  {
    if caseRef in e.attempts {
      assert Chain(e.attempts[caseRef], caseRef);
    }
  }

  /** A correction appends an attempt that has the result already; one that cannot have it is left running. */
  lemma CorrectionEffect(e: Execution, caseRef: Uuid, result: Option<RunStatus>, actual: string, newId: Uuid)
    requires Inv(e)
    ensures var out := Step(e, Correct(caseRef, result, actual, newId));
            var f := out.execution;
            if caseRef !in e.attempts then out == Outcome(e, Some("CASE_RUN_NOT_FOUND"))
            else
              var runs := e.attempts[caseRef];
              runs != [] && if runs[|runs| - 1].status == NotRun || runs[|runs| - 1].status == Running then
                out == Outcome(e, Some("RERUN_NOT_ALLOWED"))
              else
                && f.version == e.version + 1 && OnlyCase(e, f, caseRef)
                && |f.attempts[caseRef]| == |runs| + 1 && f.attempts[caseRef][..|runs|] == runs
                && var last := f.attempts[caseRef][|runs|];
                if Accepts(Running, result, actual) then
                  out.error.None? && last == Attempt(newId, caseRef, |runs| + 1, result.value, actual, 3)
                else
                  out.error == Some("INVALID_CASE_RUN_TRANSITION")
                  && last == Attempt(newId, caseRef, |runs| + 1, Running, "", 2)
  {
    if caseRef in e.attempts {
      assert Chain(e.attempts[caseRef], caseRef);
    }
  }

  /** A start gives each case one attempt, not run yet; of a case named twice, the last naming counts. */
  lemma StartEffect(e: Execution, cases: seq<(Uuid, Uuid)>)
    ensures var out := Step(e, Start(cases));
            if e.status != InDraft || cases == [] then out == Outcome(e, Some("EXECUTION_NOT_STARTABLE"))
            else
              && out.error.None? && out.execution.status == InProgress && out.execution.version == e.version + 1
              && (forall c | c in out.execution.attempts :: exists k :: 0 <= k < |cases| && cases[k].0 == c)
              && forall k | 0 <= k < |cases| && forall j | k < j < |cases| :: cases[j].0 != cases[k].0 ::
                   cases[k].0 in out.execution.attempts
                   && out.execution.attempts[cases[k].0] == [Attempt(cases[k].1, cases[k].0, 1, NotRun, "", 1)]
  {
    forall c | c in Started(cases)
      ensures exists k :: 0 <= k < |cases| && cases[k].0 == c
    {
      StartedAt(cases, c);
    }
    forall k | 0 <= k < |cases| && forall j | k < j < |cases| :: cases[j].0 != cases[k].0
      ensures cases[k].0 in Started(cases) && Started(cases)[cases[k].0] == [FirstAttempt(cases[k].1, cases[k].0)]
    {
      StartedLast(cases, k);
    }
  }

  lemma {:induction false} StartedLast(cases: seq<(Uuid, Uuid)>, k: nat)
    requires k < |cases| && forall j | k < j < |cases| :: cases[j].0 != cases[k].0
    ensures cases[k].0 in Started(cases) && Started(cases)[cases[k].0] == [FirstAttempt(cases[k].1, cases[k].0)]
    decreases |cases|
  {
    if k < |cases| - 1 {
      StartedLast(cases[..|cases| - 1], k);
    }
  }

  // ---------------------------------------------------------------------
  // Saving attempts
  // ---------------------------------------------------------------------

  datatype Row = Row(caseRef: Uuid, attemptNo: nat, status: RunStatus, actualResult: string)

  function RowOf(a: Attempt): Row { Row(a.caseRef, a.attemptNo, a.status, a.actualResult) }

  // Why a stored row refuses an attempt.
  function Refusal(rows: map<Uuid, Row>, a: Attempt): Option<string> {
    if a.id !in rows then None
    else
      var p := rows[a.id];
      if p.status in TERMINAL && (p.status != a.status || p.actualResult != a.actualResult) then
        Some("ATTEMPT_TERMINAL_IMMUTABLE")
      else if p.status !in TERMINAL && p.status != a.status && !Allowed(p.status, a.status) then
        Some("INVALID_CASE_RUN_TRANSITION")
      else None
  }

  /** When a row takes an attempt: a finished row only the same one, an unfinished row also its next status. */
  lemma RowTakesIff(rows: map<Uuid, Row>, a: Attempt)
    ensures Refusal(rows, a).None? <==>
            a.id in rows ==>
              var p := rows[a.id];
              if p.status == NotRun then a.status == NotRun || a.status == Running
              else if p.status == Running then a.status != NotRun
              else a.status == p.status && a.actualResult == p.actualResult
  {
  }

  function Saved(rows: map<Uuid, Row>, a: Attempt): map<Uuid, Row> {
    rows[a.id := if a.id in rows then rows[a.id].(status := a.status, actualResult := a.actualResult) else RowOf(a)]
  }

  predicate At(e: Execution, c: Uuid, i: nat) { c in e.attempts && i < |e.attempts[c]| }

  function IdAt(e: Execution, c: Uuid, i: nat): Uuid
    requires At(e, c, i)
  {
    e.attempts[c][i].id
  }

  ghost predicate DistinctIds(e: Execution) {
    forall c, i: nat, d, j: nat {:trigger IdAt(e, c, i), IdAt(e, d, j)} | At(e, c, i) && At(e, d, j) ::
      IdAt(e, c, i) == IdAt(e, d, j) ==> c == d && i == j
  }

  ghost predicate HasId(e: Execution, id: Uuid) {
    exists c, i: nat {:trigger IdAt(e, c, i)} :: At(e, c, i) && IdAt(e, c, i) == id
  }

  // New attempts have new identifiers.
  ghost predicate Fresh(e: Execution, c: Command) {
    match c
    case Start(cases) => forall i, j | 0 <= i < j < |cases| :: cases[i].1 != cases[j].1
    case Rerun(_, newId) => !HasId(e, newId)
    case Transition(_, _, _) => true
    case Correct(_, _, _, newId) => !HasId(e, newId)
  }

  ghost predicate FreshRun(e: Execution, cs: seq<Command>) {
    forall i: nat {:trigger From(e, cs, i)} | i < |cs| :: Fresh(From(e, cs, i), cs[i])
  }

  // At most one attempt more, and it has a new identifier.
  lemma OneNewId(e: Execution, f: Execution, c: Uuid, newId: Uuid)
    requires DistinctIds(e) && Extends(e, f) && f.attempts.Keys == e.attempts.Keys && c in e.attempts
    requires forall d | d in e.attempts && d != c :: |f.attempts[d]| == |e.attempts[d]|
    requires |f.attempts[c]| == |e.attempts[c]| ||
             (|f.attempts[c]| == |e.attempts[c]| + 1 && IdAt(f, c, |e.attempts[c]|) == newId && !HasId(e, newId))
    ensures DistinctIds(f)
  {
    forall d, i: nat | At(f, d, i)
      ensures At(e, d, i) ==> IdAt(f, d, i) == IdAt(e, d, i)
      ensures !At(e, d, i) ==> d == c && i == |e.attempts[c]| && IdAt(f, d, i) == newId && !HasId(e, newId)
    {
      if At(e, d, i) {
        assert Later(e.attempts[d][i], f.attempts[d][i]);
      }
    }
  }

  lemma StartedIds(e: Execution, c: Command)
    requires c.Start? && Step(e, c).error.None? && Fresh(e, c)
    ensures DistinctIds(Step(e, c).execution)
  {
    var f := Step(e, c).execution;
    forall x, i: nat, y, j: nat | At(f, x, i) && At(f, y, j) && IdAt(f, x, i) == IdAt(f, y, j)
      ensures x == y && i == j
    {
      StartedAt(c.cases, x);
      StartedAt(c.cases, y);
    }
  }

  lemma StepKeepsIds(e: Execution, c: Command)
    requires Inv(e) && DistinctIds(e) && Fresh(e, c)
    ensures DistinctIds(Step(e, c).execution)
  {
    StepKeepsInv(e, c);
    var f := Step(e, c).execution;
    match c
    case Start(_) =>
      if Step(e, c).error.None? {
        StartedIds(e, c);
      }
    case Rerun(caseRef, newId) =>
      if HasRuns(e, caseRef) {
        OneNewId(e, f, caseRef, newId);
      }
    case Transition(caseRef, _, _) =>
      if HasRuns(e, caseRef) {
        OneNewId(e, f, caseRef, 0);
      }
    case Correct(caseRef, _, _, newId) =>
      if HasRuns(e, caseRef) {
        OneNewId(e, f, caseRef, newId);
      }
  }

  lemma {:induction false} RunKeepsIds(e: Execution, cs: seq<Command>, n: nat)
    requires Inv(e) && DistinctIds(e) && FreshRun(e, cs) && n <= |cs|
    ensures DistinctIds(From(e, cs, n))
    decreases n
  {
    if n > 0 {
      RunKeepsIds(e, cs, n - 1);
      RunKeepsInv(e, cs, n - 1);
      assert Fresh(From(e, cs, n - 1), cs[n - 1]);
      StepKeepsIds(From(e, cs, n - 1), cs[n - 1]);
    }
  }

  // The rows are those of the execution.
  ghost predicate Holds(rows: map<Uuid, Row>, e: Execution) {
    && (forall id | id in rows :: HasId(e, id))
    && forall c, i: nat {:trigger IdAt(e, c, i)} | At(e, c, i) :: IdAt(e, c, i) in rows && rows[IdAt(e, c, i)] == RowOf(e.attempts[c][i])
  }

  // ---------------------------------------------------------------------
  // Counting stored rows
  // ---------------------------------------------------------------------

  // A row of the table, with the execution that it belongs to.
  datatype TableRow = TableRow(execution: Uuid, row: Row)

  function RowsOf(table: map<Uuid, TableRow>, execution: Uuid): map<Uuid, Row> {
    map id | id in table && table[id].execution == execution :: table[id].row
  }

  // The rows the query joins: those with the highest number of their case in their execution.
  ghost function Joined(table: map<Uuid, TableRow>, execution: Uuid, s: RunStatus): set<Uuid> {
    set id | id in table && table[id].execution == execution && table[id].row.status == s
             && forall j | j in table && table[j].execution == execution && table[j].row.caseRef == table[id].row.caseRef ::
                  table[j].row.attemptNo <= table[id].row.attemptNo
  }

  // A stored row is that of one attempt.
  lemma StoredRow(rows: map<Uuid, Row>, e: Execution, id: Uuid) returns (c: Uuid, i: nat)
    requires Inv(e) && Holds(rows, e) && id in rows
    ensures At(e, c, i) && IdAt(e, c, i) == id && rows[id] == RowOf(e.attempts[c][i])
    ensures rows[id].caseRef == c && rows[id].attemptNo == i + 1
  {
    assert HasId(e, id);
    c, i :| At(e, c, i) && IdAt(e, c, i) == id;
    assert Chain(e.attempts[c], c);
  }

  // The latest attempt of a case has a row, and no row of the case has a higher number.
  lemma LatestRow(rows: map<Uuid, Row>, e: Execution, c: Uuid)
    requires Inv(e) && Holds(rows, e) && c in e.attempts
    ensures HasRuns(e, c) && Latest(e.attempts[c]).id in rows
    ensures rows[Latest(e.attempts[c]).id] == RowOf(Latest(e.attempts[c])) && Latest(e.attempts[c]).caseRef == c
    ensures forall j | j in rows && rows[j].caseRef == c :: rows[j].attemptNo <= Latest(e.attempts[c]).attemptNo
  {
    assert Chain(e.attempts[c], c);
    var n: nat := |e.attempts[c]| - 1;
    assert At(e, c, n) && IdAt(e, c, n) == Latest(e.attempts[c]).id;
    forall j | j in rows && rows[j].caseRef == c
      ensures rows[j].attemptNo <= Latest(e.attempts[c]).attemptNo
    {
      var d, i := StoredRow(rows, e, j);
    }
  }

  // A row with the highest number of its case is that of the latest attempt.
  lemma JoinedIsLatest(table: map<Uuid, TableRow>, execution: Uuid, e: Execution, s: RunStatus, id: Uuid)
    requires Inv(e) && Holds(RowsOf(table, execution), e) && id in Joined(table, execution, s)
    ensures var c := table[id].row.caseRef; c in CasesIn(e.attempts, s) && HasRuns(e, c) && id == Latest(e.attempts[c]).id
  {
    var rows := RowsOf(table, execution);
    var c, i := StoredRow(rows, e, id);
    LatestRow(rows, e, c);
    var last := Latest(e.attempts[c]).id;
    assert table[last].row.attemptNo <= table[id].row.attemptNo;
    assert Chain(e.attempts[c], c);
    assert i == |e.attempts[c]| - 1;
  }

  lemma LatestIsJoined(table: map<Uuid, TableRow>, execution: Uuid, e: Execution, s: RunStatus, c: Uuid)
    requires Inv(e) && Holds(RowsOf(table, execution), e) && c in CasesIn(e.attempts, s)
    ensures HasRuns(e, c) && Latest(e.attempts[c]).id in Joined(table, execution, s)
    ensures table[Latest(e.attempts[c]).id].row.caseRef == c
  {
    LatestRow(RowsOf(table, execution), e, c);
    forall j | j in table && table[j].execution == execution && table[j].row.caseRef == c
      ensures table[j].row.attemptNo <= Latest(e.attempts[c]).attemptNo
    {
      assert j in RowsOf(table, execution);
    }
  }

  /**
   Counting the stored rows of an execution by the highest number of each case, whatever other executions have
   rows in the table, gives the counts of the latest attempts.
   */
  lemma RowCounts(table: map<Uuid, TableRow>, execution: Uuid, e: Execution, s: RunStatus)
    requires Inv(e) && Holds(RowsOf(table, execution), e)
    ensures |Joined(table, execution, s)| == |CasesIn(e.attempts, s)|
  {
    var joined, cases := Joined(table, execution, s), CasesIn(e.attempts, s);
    forall id | id in joined
      ensures Matches(table, e, id, table[id].row.caseRef) && table[id].row.caseRef in cases
    {
      JoinedIsLatest(table, execution, e, s, id);
    }
    forall c | c in cases
      ensures HasRuns(e, c) && Latest(e.attempts[c]).id in joined && Matches(table, e, Latest(e.attempts[c]).id, c)
    {
      LatestIsJoined(table, execution, e, s, c);
    }
    OneToOne(table, e, joined, cases);
  }

  // The row of a case's latest attempt.
  ghost predicate Matches(table: map<Uuid, TableRow>, e: Execution, id: Uuid, c: Uuid) {
    id in table && table[id].row.caseRef == c && HasRuns(e, c) && id == Latest(e.attempts[c]).id
  }

  lemma {:induction false} OneToOne(table: map<Uuid, TableRow>, e: Execution, ids: set<Uuid>, cases: set<Uuid>)
    requires forall c | c in cases :: HasRuns(e, c) && Latest(e.attempts[c]).id in ids && Matches(table, e, Latest(e.attempts[c]).id, c)
    requires forall id | id in ids :: id in table && table[id].row.caseRef in cases && Matches(table, e, id, table[id].row.caseRef)
    ensures |ids| == |cases|
    decreases |cases|
  {
    if cases == {} {
      assert ids == {};
    } else {
      var c :| c in cases;
      OneToOne(table, e, ids - {Latest(e.attempts[c]).id}, cases - {c});
    }
  }

  // ---------------------------------------------------------------------
  // Committing a unit of work
  // ---------------------------------------------------------------------

  /** Every attempt of the execution is accepted by the stored rows. */
  ghost predicate Committable(rows: map<Uuid, Row>, f: Execution) {
    forall c, i: nat {:trigger IdAt(f, c, i)} | At(f, c, i) :: Refusal(rows, f.attempts[c][i]).None?
  }

  /** No attempt that was stored as not run has been finished since. */
  ghost predicate NoneRushed(e: Execution, f: Execution) {
    forall c, i: nat {:trigger IdAt(e, c, i)} | At(e, c, i) && e.attempts[c][i].status == NotRun ::
      At(f, c, i) && f.attempts[c][i].status !in TERMINAL
  }

  // An identifier that was there before is at its old place.
  lemma KeptPlace(e: Execution, f: Execution, c: Uuid, i: nat)
    requires Extends(e, f) && DistinctIds(f) && At(f, c, i) && HasId(e, IdAt(f, c, i))
    ensures At(e, c, i)
  {
    var d, j: nat :| At(e, d, j) && IdAt(e, d, j) == IdAt(f, c, i);
    assert Later(e.attempts[d][j], f.attempts[d][j]);
    assert At(f, d, j) && IdAt(f, d, j) == IdAt(f, c, i);
  }

  lemma AttemptRefused(rows: map<Uuid, Row>, e: Execution, f: Execution, c: Uuid, i: nat)
    requires Holds(rows, e) && Extends(e, f) && DistinctIds(f) && At(f, c, i)
    ensures Refusal(rows, f.attempts[c][i]) ==
            if At(e, c, i) && e.attempts[c][i].status == NotRun && f.attempts[c][i].status in TERMINAL
            then Some("INVALID_CASE_RUN_TRANSITION") else None
  {
    if At(e, c, i) {
      assert Later(e.attempts[c][i], f.attempts[c][i]);
      assert IdAt(e, c, i) == IdAt(f, c, i);
    }
    if IdAt(f, c, i) in rows {
      KeptPlace(e, f, c, i);
    }
  }

  /**
   A commit accepts an execution exactly when no attempt stored as not run has been finished in the meantime:
   starting and finishing an attempt needs a commit in between.
   */
  lemma CommitIff(e: Execution, cs: seq<Command>, rows: map<Uuid, Row>)
    requires Inv(e) && DistinctIds(e) && FreshRun(e, cs) && Holds(rows, e)
    ensures Committable(rows, From(e, cs, |cs|)) <==> NoneRushed(e, From(e, cs, |cs|))
  {
    var f := From(e, cs, |cs|);
    RunExtends(e, cs, 0, |cs|);
    RunKeepsIds(e, cs, |cs|);
    forall c, i: nat | At(f, c, i)
      ensures Refusal(rows, f.attempts[c][i]).None? <==>
              !(At(e, c, i) && e.attempts[c][i].status == NotRun && f.attempts[c][i].status in TERMINAL)
    {
      AttemptRefused(rows, e, f, c, i);
    }
    forall c, i: nat | At(e, c, i)
      ensures At(f, c, i)
    {
      assert Longer(e.attempts[c], f.attempts[c]);
    }
    if Committable(rows, f) {
      forall c, i: nat | At(e, c, i) && e.attempts[c][i].status == NotRun
        ensures At(f, c, i) && f.attempts[c][i].status !in TERMINAL
      {
        assert IdAt(f, c, i) == f.attempts[c][i].id;
      }
    }
    if NoneRushed(e, f) {
      forall c, i: nat | At(f, c, i)
        ensures Refusal(rows, f.attempts[c][i]).None?
      {
        if At(e, c, i) {
          assert IdAt(e, c, i) == e.attempts[c][i].id;
        }
      }
    }
  }

  // An execution of one case with one attempt.
  function OneCase(a: Attempt, version: nat): Execution { Execution(InProgress, map[a.caseRef := [a]], version) }

  lemma StartOne(caseRef: Uuid, id: Uuid)
    ensures Step(NEW, Start([(caseRef, id)])) == Outcome(OneCase(FirstAttempt(id, caseRef), 2), None)
  {
    var cases := [(caseRef, id)];
    assert cases[..0] == [] && Started([]) == map[];
    assert Started(cases) == Started(cases[..0])[caseRef := [FirstAttempt(id, caseRef)]];
  }

  lemma MoveOne(a: Attempt, version: nat, result: RunStatus)
    requires Moved(a, Some(result), "").Ok?
    ensures Step(OneCase(a, version), Transition(a.caseRef, Some(result), "")) ==
            Outcome(OneCase(Moved(a, Some(result), "").value, version + 1), None)
  {
    var b := Moved(a, Some(result), "").value;
    assert [a][0 := b] == [b];
    assert map[a.caseRef := [a]][a.caseRef := [b]] == map[a.caseRef := [b]];
  }

  lemma OneCaseRows(a: Attempt, version: nat)
    requires a.attemptNo == 1 && a.status in {NotRun, Running, Passed}
    ensures Inv(OneCase(a, version)) && DistinctIds(OneCase(a, version)) && Holds(map[a.id := RowOf(a)], OneCase(a, version))
    ensures forall rows :: Committable(rows, OneCase(a, version)) <==> Refusal(rows, a).None?
  {
    var e := OneCase(a, version);
    assert At(e, a.caseRef, 0) && IdAt(e, a.caseRef, 0) == a.id;
    assert a.caseRef in e.attempts && Chain(e.attempts[a.caseRef], a.caseRef);
    assert HasId(e, a.id);
    forall rows
      ensures Committable(rows, e) <==> Refusal(rows, a).None?
    {
      if Committable(rows, e) {
        assert Refusal(rows, e.attempts[a.caseRef][0]).None? by {
          assert At(e, a.caseRef, 0) && IdAt(e, a.caseRef, 0) == a.id;
        }
      }
      if Refusal(rows, a).None? {
        forall c, i: nat | At(e, c, i)
          ensures Refusal(rows, e.attempts[c][i]).None?
        {
        }
      }
    }
  }

  /** A case that is started, saved and then run to its end before the next commit: the first step alone would be saved. */
  lemma RushedAttemptIsRefused(caseRef: Uuid, id: Uuid)
    ensures var e := Step(NEW, Start([(caseRef, id)])).execution;
            var cs := [Transition(caseRef, Some(Running), ""), Transition(caseRef, Some(Passed), "")];
            var rows := map[id := Row(caseRef, 1, NotRun, "")];
            && Inv(e) && DistinctIds(e) && FreshRun(e, cs) && Holds(rows, e)
            && Committable(rows, From(e, cs, 1)) && !Committable(rows, From(e, cs, 2))
  {
    var cs := [Transition(caseRef, Some(Running), ""), Transition(caseRef, Some(Passed), "")];
    var a0 := FirstAttempt(id, caseRef);
    var a1 := Moved(a0, Some(Running), "").value;
    var a2 := Moved(a1, Some(Passed), "").value;
    StartOne(caseRef, id);
    MoveOne(a0, 2, Running);
    MoveOne(a1, 3, Passed);
    OneCaseRows(a0, 2);
    OneCaseRows(a1, 3);
    OneCaseRows(a2, 4);
    var e := OneCase(a0, 2);
    assert From(e, cs, 1) == OneCase(a1, 3) by {
      assert From(e, cs, 0) == e;
    }
    assert From(e, cs, 2) == OneCase(a2, 4);
  }

  // ---------------------------------------------------------------------
  // The aggregate
  // ---------------------------------------------------------------------

  class CaseRun {
    const id: Uuid
    const caseRef: Uuid
    const attemptNo: nat
    var status: RunStatus
    var actualResult: string
    var version: nat

    function View(): Attempt
      reads this
    {
      Attempt(id, caseRef, attemptNo, status, actualResult, version)
    }

    constructor (id: Uuid, caseRef: Uuid, attemptNo: nat)
      ensures View() == Attempt(id, caseRef, attemptNo, NotRun, "", 1)
    {
      this.id, this.caseRef, this.attemptNo := id, caseRef, attemptNo;
      status, actualResult, version := NotRun, "", 1;
    }

    /** Record the next status of this attempt. */
    method DoTransition(result: Option<RunStatus>, actual: string) returns (r: Result<nat>)
      modifies this
      ensures var want := Moved(old(View()), result, actual);
              r.Ok? == want.Ok? && (r.Err? ==> r.code == want.code)
              && View() == if want.Ok? then want.value else old(View())
    {
      if result.None? || !Allowed(status, result.value) || (result.value in {Failed, Blocked} && Blank(actual)) {
        return Err("INVALID_CASE_RUN_TRANSITION");
      }
      status, actualResult := result.value, actual;
      version := version + 1;
      return Ok(version);
    }

    /** A new attempt after this one. */
    method Rerun(newId: Uuid) returns (r: Result<CaseRun>)
      ensures r.Ok? <==> status in TERMINAL
      ensures r.Ok? ==> fresh(r.value) && r.value.View() == Attempt(newId, caseRef, attemptNo + 1, NotRun, "", 1)
      ensures r.Err? ==> r.code == "RERUN_NOT_ALLOWED"
    {
      if status !in TERMINAL {
        return Err("RERUN_NOT_ALLOWED");
      }
      var next := new CaseRun(newId, caseRef, attemptNo + 1);
      return Ok(next);
    }
  }

  function Views(runs: seq<CaseRun>): (vs: seq<Attempt>)
    reads runs
    ensures |vs| == |runs| && forall i | 0 <= i < |vs| :: vs[i] == runs[i].View()
  {
    if runs == [] then [] else Views(runs[..|runs| - 1]) + [runs[|runs| - 1].View()]
  }

  function Occurrences(statuses: seq<RunStatus>, s: RunStatus): nat {
    if statuses == [] then 0
    else Occurrences(statuses[..|statuses| - 1], s) + if statuses[|statuses| - 1] == s then 1 else 0
  }

  // The statuses are those of the latest attempts of some cases.
  ghost predicate Tallied(e: Execution, done: set<Uuid>, statuses: seq<RunStatus>) {
    forall s {:trigger Occurrences(statuses, s)} :: Occurrences(statuses, s) == |CasesIn(e.attempts, s) * done|
  }

  lemma OneCaseMore(e: Execution, done: set<Uuid>, c: Uuid, s: RunStatus)
    requires c !in done && HasRuns(e, c)
    ensures |CasesIn(e.attempts, s) * (done + {c})| ==
            |CasesIn(e.attempts, s) * done| + if s == Latest(e.attempts[c]).status then 1 else 0
  {
    if s == Latest(e.attempts[c]).status {
      assert CasesIn(e.attempts, s) * (done + {c}) == CasesIn(e.attempts, s) * done + {c};
    } else {
      assert CasesIn(e.attempts, s) * (done + {c}) == CasesIn(e.attempts, s) * done;
    }
  }

  lemma CaseTallied(e: Execution, done: set<Uuid>, statuses: seq<RunStatus>, c: Uuid)
    requires Tallied(e, done, statuses) && c !in done && HasRuns(e, c)
    ensures Tallied(e, done + {c}, statuses + [Latest(e.attempts[c]).status])
  {
    var more := statuses + [Latest(e.attempts[c]).status];
    assert more[..|more| - 1] == statuses;
    forall s
      ensures Occurrences(more, s) == |CasesIn(e.attempts, s) * (done + {c})|
    {
      assert Occurrences(statuses, s) == |CasesIn(e.attempts, s) * done|;
      OneCaseMore(e, done, c, s);
    }
  }

  lemma AllTallied(e: Execution, done: set<Uuid>, statuses: seq<RunStatus>)
    requires Tallied(e, done, statuses) && done == e.attempts.Keys
    ensures forall s :: Occurrences(statuses, s) == |CasesIn(e.attempts, s)|
  {
    forall s
      ensures Occurrences(statuses, s) == |CasesIn(e.attempts, s)|
    {
      assert CasesIn(e.attempts, s) * done == CasesIn(e.attempts, s);
    }
  }

  // The counts are those of the latest attempts of some cases.
  ghost predicate Counted(e: Execution, done: set<Uuid>, counts: map<RunStatus, nat>) {
    forall s {:trigger CountOf(counts, s)} :: CountOf(counts, s) == |CasesIn(e.attempts, s) * done|
  }

  lemma CaseCounted(e: Execution, done: set<Uuid>, counts: map<RunStatus, nat>, c: Uuid)
    requires Counted(e, done, counts) && c !in done && HasRuns(e, c)
    ensures var s := Latest(e.attempts[c]).status;
            Counted(e, done + {c}, counts[s := CountOf(counts, s) + 1])
  {
    forall s
      ensures CountOf(counts[Latest(e.attempts[c]).status := CountOf(counts, Latest(e.attempts[c]).status) + 1], s) ==
              |CasesIn(e.attempts, s) * (done + {c})|
    {
      assert CountOf(counts, s) == |CasesIn(e.attempts, s) * done|;
      OneCaseMore(e, done, c, s);
    }
  }

  lemma AllCounted(e: Execution, done: set<Uuid>, counts: map<RunStatus, nat>)
    requires Counted(e, done, counts) && done == e.attempts.Keys
    ensures Counts(e, counts)
  {
    forall s
      ensures CountOf(counts, s) == |CasesIn(e.attempts, s)|
    {
      assert CasesIn(e.attempts, s) * done == CasesIn(e.attempts, s);
    }
  }

  lemma {:induction false} OccursIn(statuses: seq<RunStatus>, s: RunStatus)
    ensures Occurrences(statuses, s) > 0 <==> s in statuses
  {
    if statuses != [] {
      OccursIn(statuses[..|statuses| - 1], s);
    }
  }

  // An execution is publishable when none of the collected statuses is unfinished.
  lemma Unfinished(e: Execution, statuses: seq<RunStatus>)
    requires Inv(e) && e.attempts != map[] && forall s :: Occurrences(statuses, s) == |CasesIn(e.attempts, s)|
    ensures Publishable(e) <==> e.status in {InProgress, Completed} && forall s | s in statuses :: s in TERMINAL
  {
    forall s
      ensures s in statuses <==> CasesIn(e.attempts, s) != {}
    {
      OccursIn(statuses, s);
    }
    forall c | c in e.attempts
      ensures e.attempts[c] != [] && Latest(e.attempts[c]).status in statuses
    {
      assert Chain(e.attempts[c], c);
      assert c in CasesIn(e.attempts, Latest(e.attempts[c]).status);
    }
    if Publishable(e) {
      forall s | s in statuses
        ensures s in TERMINAL
      {
        var c :| c in CasesIn(e.attempts, s);
      }
    }
  }

  class TestExecution {
    var status: ExecutionStatus
    var attempts: map<Uuid, seq<CaseRun>>
    var version: nat
    ghost var repr: set<CaseRun>    // the objects of all attempts

    // The objects read as these attempts.
    ghost predicate CaseShows(runs: seq<CaseRun>, values: seq<Attempt>)
      reads this, repr
    {
      |runs| == |values|
      && forall i {:trigger runs[i]} {:trigger values[i]} | 0 <= i < |runs| :: runs[i] in repr && runs[i].View() == values[i]
    }

    /** The object reads as e; as attempts carry their places, no two places share an object. */
    ghost predicate Shows(e: Execution)
      reads this, repr
    {
      && status == e.status && version == e.version && attempts.Keys == e.attempts.Keys
      && forall c {:trigger attempts[c]} {:trigger e.attempts[c]} | c in attempts :: CaseShows(attempts[c], e.attempts[c])
    }

    constructor ()
      ensures Shows(NEW) && repr == {}
    {
      status, attempts, version, repr := InDraft, map[], 1, {};
    }

    /** One not-run attempt for each case. */
    method DoStart(ghost e: Execution, cases: seq<(Uuid, Uuid)>) returns (r: Result<nat>)
      requires Shows(e)
      modifies this
      ensures Shows(Step(e, Start(cases)).execution) && fresh(repr - old(repr))
      ensures r.Ok? == Step(e, Start(cases)).error.None?
      ensures r.Err? ==> Some(r.code) == Step(e, Start(cases)).error
    {
      if status != InDraft || cases == [] {
        return Err("EXECUTION_NOT_STARTABLE");
      }
      var started: map<Uuid, seq<CaseRun>> := map[];
      ghost var created: set<CaseRun> := {};
      for i := 0 to |cases|
        invariant unchanged(this) && started.Keys == Started(cases[..i]).Keys && fresh(created)
        invariant forall c {:trigger started[c]} | c in started ::
                    |started[c]| == 1 && started[c][0] in created && Started(cases[..i])[c] == [started[c][0].View()]
      {
        var (caseRef, id) := cases[i];
        var run := new CaseRun(id, caseRef, 1);
        started := started[caseRef := [run]];
        created := created + {run};
        assert cases[..i + 1][..i] == cases[..i];
      }
      assert cases[..|cases|] == cases;
      attempts, repr := started, created;
      status := InProgress;
      version := version + 1;
      ghost var f := Step(e, Start(cases)).execution;
      forall c | c in attempts
        ensures CaseShows(attempts[c], f.attempts[c])
      {
        assert |started[c]| == 1;
      }
      return Ok(version);
    }

    /** Append an attempt to a case whose latest one is finished. */
    method DoRerun(ghost e: Execution, caseRef: Uuid, newId: Uuid) returns (r: Result<CaseRun>)
      requires Shows(e)
      modifies this
      ensures Shows(Rerunning(e, caseRef, newId).execution) && fresh(repr - old(repr))
      ensures r.Ok? == Rerunning(e, caseRef, newId).error.None?
      ensures r.Err? ==> Some(r.code) == Rerunning(e, caseRef, newId).error
      ensures r.Ok? ==> caseRef in attempts && attempts[caseRef] != [] && attempts[caseRef][|attempts[caseRef]| - 1] == r.value
    {
      if caseRef !in attempts || attempts[caseRef] == [] {
        return Err("CASE_RUN_NOT_FOUND");
      }
      var current := attempts[caseRef];
      var next := current[|current| - 1].Rerun(newId);
      if next.Err? {
        return Err(next.code);
      }
      attempts := attempts[caseRef := current + [next.value]];
      version := version + 1;
      repr := repr + {next.value};
      return Ok(next.value);
    }
  
    /** Move the latest attempt of a case; finished attempts stay as they are. */
    method TransitionAttempt(ghost e: Execution, caseRef: Uuid, result: Option<RunStatus>, actual: string) returns (r: Result<nat>)
      requires Shows(e) && Inv(e)
      modifies this`version, repr
      ensures Shows(Step(e, Transition(caseRef, result, actual)).execution)
      ensures r.Ok? == Step(e, Transition(caseRef, result, actual)).error.None?
      ensures r.Err? ==> Some(r.code) == Step(e, Transition(caseRef, result, actual)).error
    {
      if caseRef !in attempts || attempts[caseRef] == [] {
        return Err("CASE_RUN_NOT_FOUND");
      }
      r := MoveLatest(e, caseRef, result, actual);
      if r.Ok? {
        version := version + 1;
      }
    }

    // The latest attempt of a case makes a move.
    method MoveLatest(ghost e: Execution, caseRef: Uuid, result: Option<RunStatus>, actual: string) returns (r: Result<nat>)
      requires Shows(e) && Inv(e) && HasRuns(e, caseRef)
      modifies repr
      ensures var moved := Moved(Latest(e.attempts[caseRef]), result, actual);
              && r.Ok? == moved.Ok? && (r.Err? ==> r.code == moved.code)
              && Shows(WithLatest(e, caseRef, if moved.Ok? then moved.value else Latest(e.attempts[caseRef]), e.version))
    {
      var runs := attempts[caseRef];
      assert CaseShows(runs, e.attempts[caseRef]);
      var latest := runs[|runs| - 1];
      OnePlace(e, caseRef);
      r := latest.DoTransition(result, actual);
      ghost var f := WithLatest(e, caseRef, latest.View(), e.version);
      forall c | c in attempts
        ensures CaseShows(attempts[c], f.attempts[c])
      {
        assert old(CaseShows(attempts[c], e.attempts[c]));
        forall i | 0 <= i < |attempts[c]|
          ensures attempts[c][i] in repr && attempts[c][i].View() == f.attempts[c][i]
        {
          assert old(attempts[c][i].View()) == e.attempts[c][i];
        }
      }
    }

    // The object of a latest attempt is in no other place.
    lemma OnePlace(e: Execution, caseRef: Uuid)
      requires Shows(e) && Inv(e) && HasRuns(e, caseRef)
      ensures var latest := attempts[caseRef][|attempts[caseRef]| - 1];
              forall c, i {:trigger attempts[c][i]} | c in attempts && 0 <= i < |attempts[c]| && attempts[c][i] == latest ::
                c == caseRef && i == |attempts[c]| - 1
    {
      var latest := attempts[caseRef][|attempts[caseRef]| - 1];
      forall c, i | c in attempts && 0 <= i < |attempts[c]| && attempts[c][i] == latest
        ensures c == caseRef && i == |attempts[c]| - 1
      {
        assert Chain(e.attempts[c], c) && Chain(e.attempts[caseRef], caseRef);
        assert CaseShows(attempts[c], e.attempts[c]) && CaseShows(attempts[caseRef], e.attempts[caseRef]);
        assert attempts[c][i].View() == e.attempts[c][i] && latest.View() == Latest(e.attempts[caseRef]);
      }
    }
  
    /** Correct a finished case by an attempt that is run at once. An unacceptable result leaves it running. */
    method CorrectTerminal(ghost e: Execution, caseRef: Uuid, result: Option<RunStatus>, actual: string, newId: Uuid)
      returns (r: Result<nat>)
      requires Shows(e) && Inv(e)
      modifies this, repr
      ensures Shows(Step(e, Correct(caseRef, result, actual, newId)).execution)
      ensures r.Ok? == Step(e, Correct(caseRef, result, actual, newId)).error.None?
      ensures r.Err? ==> Some(r.code) == Step(e, Correct(caseRef, result, actual, newId)).error
    {
      var rerun := DoRerun(e, caseRef, newId);
      if rerun.Err? {
        return Err(rerun.code);
      }
      ghost var f, g := Rerunning(e, caseRef, newId).execution, Step(e, Correct(caseRef, None, "", newId)).execution;
      CorrectByMoves(e, caseRef, result, actual, newId);
      r := MoveLatest(f, caseRef, Some(Running), "");
      r := MoveLatest(g, caseRef, result, actual);
    }

    // A correction is an appended attempt, moved to running and then to its result.
    static lemma CorrectByMoves(e: Execution, caseRef: Uuid, result: Option<RunStatus>, actual: string, newId: Uuid)
      requires Inv(e) && Rerunning(e, caseRef, newId).error.None?
      ensures var f, g := Rerunning(e, caseRef, newId).execution, Step(e, Correct(caseRef, None, "", newId)).execution;
              && Inv(f) && HasRuns(f, caseRef) && Inv(g) && HasRuns(g, caseRef)
              && Moved(Latest(f.attempts[caseRef]), Some(Running), "").Ok?
              && g == WithLatest(f, caseRef, Moved(Latest(f.attempts[caseRef]), Some(Running), "").value, f.version)
              && var moved := Moved(Latest(g.attempts[caseRef]), result, actual);
                 Step(e, Correct(caseRef, result, actual, newId)) ==
                 Outcome(WithLatest(g, caseRef, if moved.Ok? then moved.value else Latest(g.attempts[caseRef]), g.version),
                         if moved.Ok? then None else Some(moved.code))
    {
      RerunKeepsInv(e, caseRef, newId);
      StepKeepsInv(e, Correct(caseRef, None, "", newId));
      var f := Rerunning(e, caseRef, newId).execution;
      var running := Moved(Latest(f.attempts[caseRef]), Some(Running), "").value;
      var moved := Moved(running, result, actual);
      SetTwice(f, caseRef, running, if moved.Ok? then moved.value else running);
    }

    // A latest attempt that is replaced twice is replaced once.
    static lemma SetTwice(f: Execution, caseRef: Uuid, a: Attempt, b: Attempt)
      requires HasRuns(f, caseRef)
      ensures WithLatest(WithLatest(f, caseRef, a, f.version), caseRef, b, f.version) == WithLatest(f, caseRef, b, f.version)
    {
      var runs, n := f.attempts[caseRef], |f.attempts[caseRef]| - 1;
      assert runs[n := a][n := b] == runs[n := b];
    }

    lemma SomeRuns(e: Execution, c: Uuid)
      requires Shows(e) && Inv(e) && c in attempts
      ensures HasRuns(e, c) && attempts[c] != [] && attempts[c][|attempts[c]| - 1].View() == Latest(e.attempts[c])
    {
      assert CaseShows(attempts[c], e.attempts[c]) && Chain(e.attempts[c], c);
    }

    method LatestStatus(ghost e: Execution, c: Uuid) returns (s: RunStatus)
      requires Shows(e) && Inv(e) && c in attempts
      ensures HasRuns(e, c) && s == Latest(e.attempts[c]).status
    {
      SomeRuns(e, c);
      s := attempts[c][|attempts[c]| - 1].status;
    }

    // The statuses of the latest attempts, in the order the cases come.
    method LatestStatuses(ghost e: Execution) returns (latest: seq<RunStatus>)
      requires Shows(e) && Inv(e)
      ensures forall s :: Occurrences(latest, s) == |CasesIn(e.attempts, s)|
    {
      latest := [];
      var todo := attempts.Keys;
      ghost var done: set<Uuid> := {};
      while todo != {}
        invariant done !! todo && done + todo == attempts.Keys
        invariant Tallied(e, done, latest)
        decreases todo
      {
        var c :| c in todo;
        var status := LatestStatus(e, c);
        CaseTallied(e, done, latest, c);
        latest := latest + [status];
        todo, done := todo - {c}, done + {c};
      }
      AllTallied(e, done, latest);
    }

    /** Publish the counts of the latest attempts, if all of them are finished. */
    method Publish(ghost e: Execution) returns (r: Result<Summary>)
      requires Shows(e) && Inv(e)
      ensures r.Ok? <==> Publishable(e)
      ensures r.Ok? ==> r.value == SummaryOf(e.attempts)
      ensures r.Err? ==> r.code == "REPORT_NOT_PUBLISHABLE"
    {
      if status !in {InProgress, Completed} || attempts == map[] {
        assert attempts == map[] ==> e.attempts.Keys == {};
        return Err("REPORT_NOT_PUBLISHABLE");
      }
      var latest := LatestStatuses(e);
      Unfinished(e, latest);
      for i := 0 to |latest|
        invariant forall j | 0 <= j < i :: latest[j] in TERMINAL
      {
        if latest[i] !in TERMINAL {
          return Err("REPORT_NOT_PUBLISHABLE");
        }
      }
      var passed := CountStatus(latest, Passed);
      var failed := CountStatus(latest, Failed);
      var blocked := CountStatus(latest, Blocked);
      var skipped := CountStatus(latest, Skipped);
      return Ok(Summary(passed, failed, blocked, skipped));
    }

    static method CountStatus(latest: seq<RunStatus>, s: RunStatus) returns (n: nat)
      ensures n == Occurrences(latest, s)
    {
      n := 0;
      for i := 0 to |latest|
        invariant n == Occurrences(latest[..i], s)
      {
        assert latest[..i + 1][..i] == latest[..i];
        if latest[i] == s {
          n := n + 1;
        }
      }
      assert latest[..|latest|] == latest;
    }

    // The attempt with the highest number.
    static method FindHighest(runs: seq<CaseRun>) returns (best: CaseRun)
      requires runs != []
      ensures best in runs && best.View() == Highest(Views(runs))
    {
      ghost var vs := Views(runs);
      best := runs[0];
      assert vs[..1][..0] == [];
      for i := 1 to |runs|
        invariant best in runs && best.View() == Highest(vs[..i])
      {
        assert vs[..i + 1][..i] == vs[..i];
        if best.attemptNo < runs[i].attemptNo {
          best := runs[i];
        }
      }
      assert vs[..|runs|] == vs;
    }

    method HighestStatus(ghost e: Execution, c: Uuid) returns (s: RunStatus)
      requires Shows(e) && Inv(e) && c in attempts && attempts[c] != []
      ensures HasRuns(e, c) && s == Latest(e.attempts[c]).status
    {
      assert CaseShows(attempts[c], e.attempts[c]) && Chain(e.attempts[c], c);
      var best := FindHighest(attempts[c]);
      assert Views(attempts[c]) == e.attempts[c];
      HighestIsLatest(e.attempts[c], c);
      s := best.status;
    }

    method CountCase(ghost e: Execution, ghost done: set<Uuid>, c: Uuid, counts: map<RunStatus, nat>)
      returns (more: map<RunStatus, nat>)
      requires Shows(e) && Inv(e) && c in attempts && c !in done && Counted(e, done, counts)
      ensures Counted(e, done + {c}, more)
    {
      SomeRuns(e, c);
      more := counts;
      if attempts[c] != [] {
        var s := HighestStatus(e, c);
        CaseCounted(e, done, counts, c);
        more := counts[s := CountOf(counts, s) + 1];
      }
    }

    /** The portal's counts: the attempt with the highest number of each case. */
    method PortalCounts(ghost e: Execution) returns (counts: map<RunStatus, nat>)
      requires Shows(e) && Inv(e)
      ensures Counts(e, counts)
    {
      counts := map[];
      var todo := attempts.Keys;
      ghost var done: set<Uuid> := {};
      while todo != {}
        invariant done !! todo && done + todo == attempts.Keys
        invariant Counted(e, done, counts)
        decreases todo
      {
        var c :| c in todo;
        counts := CountCase(e, done, c, counts);
        todo, done := todo - {c}, done + {c};
      }
      AllCounted(e, done, counts);
    }
  }

  // ---------------------------------------------------------------------
  // The commit over the attempt rows
  // ---------------------------------------------------------------------

  // The rows after saving some attempts, given by identifier.
  ghost predicate Written(before: map<Uuid, Row>, rows: map<Uuid, Row>, done: map<Uuid, Attempt>) {
    && (forall id {:trigger done[id]} | id in done ::
          done[id].id == id && Refusal(before, done[id]).None? && id in rows && rows[id] == Saved(before, done[id])[id])
    && (forall id {:trigger rows[id]} | id in rows && id !in done :: id in before && rows[id] == before[id])
    && before.Keys <= rows.Keys
  }

  // Exactly the attempts of some cases, and of one more up to place k, are saved.
  ghost predicate SavedUpTo(e: Execution, done: map<Uuid, Attempt>, cases: set<Uuid>, c: Uuid, k: nat) {
    && (forall d, i: nat {:trigger IdAt(e, d, i)} | At(e, d, i) && (d in cases || (d == c && i < k)) ::
          IdAt(e, d, i) in done && done[IdAt(e, d, i)] == e.attempts[d][i])
    && forall id {:trigger done[id]} | id in done ::
         exists d, i: nat {:trigger IdAt(e, d, i)} :: At(e, d, i) && (d in cases || (d == c && i < k)) && IdAt(e, d, i) == id
  }

  lemma SaveOne(before: map<Uuid, Row>, rows: map<Uuid, Row>, done: map<Uuid, Attempt>, a: Attempt)
    requires Written(before, rows, done) && a.id !in done
    ensures Refusal(rows, a) == Refusal(before, a)
    ensures Refusal(before, a).None? ==> Written(before, Saved(rows, a), done[a.id := a])
  {
  }

  lemma OneSavedMore(e: Execution, done: map<Uuid, Attempt>, cases: set<Uuid>, c: Uuid, k: nat)
    requires DistinctIds(e) && At(e, c, k) && c !in cases && SavedUpTo(e, done, cases, c, k)
    ensures IdAt(e, c, k) !in done
    ensures SavedUpTo(e, done[IdAt(e, c, k) := e.attempts[c][k]], cases, c, k + 1)
  {
  }

  class AttemptRows {
    var rows: map<Uuid, Row>

    constructor ()
      ensures rows == map[]
    {
      rows := map[];
    }

    /** Save every attempt of an execution, or nothing. */
    method Commit(x: TestExecution, ghost e: Execution) returns (r: Result<nat>)
      requires x.Shows(e) && DistinctIds(e)
      modifies this
      ensures r.Ok? <==> Committable(old(rows), e)
      ensures r.Err? ==> rows == old(rows)
      ensures r.Err? ==> exists c, i: nat {:trigger IdAt(e, c, i)} :: At(e, c, i) && Refusal(rows, e.attempts[c][i]) == Some(r.code)
      ensures r.Ok? ==> forall e0 | Holds(old(rows), e0) && Extends(e0, e) :: Holds(rows, e)
    {
      var pending := rows;
      ghost var done: map<Uuid, Attempt> := map[];
      var todo := x.attempts.Keys;
      ghost var saved: set<Uuid> := {};
      while todo != {}
        invariant saved !! todo && saved + todo == x.attempts.Keys
        invariant unchanged(this) && Written(rows, pending, done) && SavedUpTo(e, done, saved, 0, 0)
        decreases todo
      {
        var c :| c in todo;
        assert x.CaseShows(x.attempts[c], e.attempts[c]);
        var attempts := x.attempts[c];
        for k := 0 to |attempts|
          invariant unchanged(this) && Written(rows, pending, done) && SavedUpTo(e, done, saved, c, k)
        {
          var attempt := attempts[k].View();
          assert attempt == e.attempts[c][k] && At(e, c, k);
          OneSavedMore(e, done, saved, c, k);
          SaveOne(rows, pending, done, attempt);
          var refusal := Refusal(pending, attempt);
          if refusal.Some? {
            assert IdAt(e, c, k) == e.attempts[c][k].id;
            return Err(refusal.value);
          }
          pending := Saved(pending, attempt);
          done := done[attempt.id := attempt];
        }
        todo, saved := todo - {c}, saved + {c};
      }
      AllSaved(rows, pending, done, e);
      rows := pending;
      return Ok(0);
    }
  }

  lemma AllSaved(before: map<Uuid, Row>, rows: map<Uuid, Row>, done: map<Uuid, Attempt>, e: Execution)
    requires Written(before, rows, done) && SavedUpTo(e, done, e.attempts.Keys, 0, 0) && DistinctIds(e)
    ensures Committable(before, e)
    ensures forall e0 | Holds(before, e0) && Extends(e0, e) :: Holds(rows, e)
  {
    forall c, i: nat | At(e, c, i)
      ensures Refusal(before, e.attempts[c][i]).None?
    {
      assert done[IdAt(e, c, i)] == e.attempts[c][i];
    }
    forall e0 | Holds(before, e0) && Extends(e0, e)
      ensures Holds(rows, e)
    {
      HoldsAfter(before, rows, done, e0, e);
    }
  }

  /** After a commit the rows are those of the execution again. */
  lemma HoldsAfter(before: map<Uuid, Row>, rows: map<Uuid, Row>, done: map<Uuid, Attempt>, e0: Execution, e: Execution)
    requires Written(before, rows, done) && SavedUpTo(e, done, e.attempts.Keys, 0, 0) && DistinctIds(e)
    requires Holds(before, e0) && Extends(e0, e)
    ensures Holds(rows, e)
  {
    forall c, i: nat | At(e, c, i)
      ensures IdAt(e, c, i) in rows && rows[IdAt(e, c, i)] == RowOf(e.attempts[c][i])
    {
      var id := IdAt(e, c, i);
      assert id in done && done[id] == e.attempts[c][i];
      if id in before {
        KeptPlace(e0, e, c, i);
        assert Later(e0.attempts[c][i], e.attempts[c][i]);
        assert IdAt(e0, c, i) == id;
      }
    }
    forall id | id in rows
      ensures HasId(e, id)
    {
      if id in done {
        assert done[id] == done[id];
      } else {
        assert rows[id] == before[id];
        var c, i: nat :| At(e0, c, i) && IdAt(e0, c, i) == id;
        assert Later(e0.attempts[c][i], e.attempts[c][i]);
        assert IdAt(e, c, i) == id;
      }
    }
  }
}
