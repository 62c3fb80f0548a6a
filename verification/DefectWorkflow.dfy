/**
 The defect aggregate of td-service: a nine-state workflow with evidence, counters and a history.
 */
module DefectWorkflow {
  import opened Options

  datatype Status = New | Assigned | InProgress | Fixed | PendingVerification | Closed | Reopened | Rejected | Duplicate

  datatype FixKind = MergeRequest | CommitRef | PatchFile | OtherFix

  datatype FixEvidence = FixEvidence(kind: FixKind, externalRef: string, summary: string)

  datatype Conclusion = Passed | Failed

  datatype Verification = Verification(environmentRef: string, conclusion: Conclusion, evidenceRefs: seq<string>)

  // Request values arrive as text; what is not in the service's vocabulary is an Other value.
  datatype Severity = Blocker | Critical | Major | Minor | Trivial | OtherSeverity(text: string)

  datatype Priority = P0 | P1 | P2 | P3 | OtherPriority(text: string)

  datatype DefectType =
    | Functional | Performance | Security | Compatibility | Usability | Data | Configuration | OtherKnown
    | OtherType(text: string)

  // The workflow actions, and the entry that a patch leaves in the history.
  datatype Name =
    | Assign | Start | Reject | MarkFixed | SubmitVerification | VerifyClose | VerifyFail | ManualReopen | MarkDuplicate
    | PatchFields | OtherAction(text: string)

  // Times are minutes. The policy key names the severity at creation.
  datatype Sla = Sla(policyKey: Severity, policyVersion: string, responseDue: int, resolutionDue: int,
                     firstResponded: Option<int>, resolved: Option<int>,
                     responseBreached: bool, resolutionBreached: bool)

  datatype Entry = Entry(sequenceNo: nat, action: Name, actor: Uuid, before: Status, after: Status, reason: string)

  /** The fields that a patch may change. */
  datatype Content = Content(title: string, description: string, severity: Severity, priority: Priority,
                             defectType: DefectType, expected: string, actual: string, steps: seq<string>)

  datatype Value = Value(project: Uuid, businessNo: string, reporter: Uuid, content: Content, status: Status,
                         assignee: Option<Uuid>, verifier: Option<Uuid>, fixVersion: Option<Uuid>,
                         rootCause: string, duplicateOf: Option<Uuid>, reopenCount: nat, version: nat,
                         fixes: seq<FixEvidence>, verifications: seq<Verification>, history: seq<Entry>, sla: Sla)

  datatype Action = Action(name: Name, actor: Uuid, privileged: bool, assignee: Option<Uuid>,
                           verifier: Option<Uuid>, reason: string, fixVersion: Option<Uuid>,
                           fixEvidence: Option<FixEvidence>, verification: Option<Verification>, rootCause: string,
                           duplicateOf: Option<Uuid>, ancestors: set<Uuid>, now: int)

  datatype Changes = Changes(title: Option<string>, description: Option<string>, severity: Option<Severity>,
                             priority: Option<Priority>, defectType: Option<DefectType>, expected: Option<string>,
                             actual: Option<string>, steps: Option<seq<string>>, unknown: bool)

  // ---------------------------------------------------------------------
  // Content rules and service levels
  // ---------------------------------------------------------------------

  // Minutes to respond and to resolve.
  function SlaMinutes(severity: Severity): (int, int) {
    match severity
    case Blocker => (15, 480)
    case Critical => (60, 1440)
    case Major => (240, 4320)
    case Minor => (1440, 14400)
    case _ => (2880, 28800)
  }

  function NewSla(severity: Severity, now: int): Sla {
    var (response, resolution) := SlaMinutes(severity);
    Sla(severity, "v1", now + response, now + resolution, None, None, false, false)
  }

  // The first rule that the content breaks, if any.
  function ContentError(c: Content): Option<string> {
    if !(1 <= |c.title| <= 200) || |c.description| > 20_000 then Some("INVALID_DEFECT")
    else if c.priority.OtherPriority? || c.severity.OtherSeverity? || c.defectType.OtherType? then
      Some("INVALID_DEFECT_CLASSIFICATION")
    else if Blank(c.expected) || Blank(c.actual) then Some("RESULTS_REQUIRED")
    else if (c.severity.Blocker? || c.severity.Critical?) && c.steps == [] then Some("REPRODUCTION_REQUIRED")
    else if |c.steps| > 50 then Some("TOO_MANY_REPRODUCTION_STEPS")
    else None
  }

  function Create(project: Uuid, businessNo: string, reporter: Uuid, c: Content, now: int): Result<Value> {
    if ContentError(c).Some? then Err(ContentError(c).value)
    else Ok(Value(project, businessNo, reporter, c, New, None, None, None, "", None, 0, 1, [], [], [],
                  NewSla(c.severity, now)))
  }

  // ---------------------------------------------------------------------
  // Commands on values
  // ---------------------------------------------------------------------

  function Record(d: Value, name: Name, actor: Uuid, before: Status, reason: string): Value {
    d.(version := d.version + 1,
       history := d.history + [Entry(|d.history| + 1, name, actor, before, d.status, reason)])
  }

  /** The guarded effect of an action, before it is recorded. */
  function Effect(d: Value, id: Uuid, a: Action): Result<Value> {
    if a.name == Assign && d.status in [New, Reopened] && a.assignee.Some? then
      Ok(d.(assignee := a.assignee, status := Assigned))
    else if a.name == Start && d.status == Assigned && (a.privileged || Some(a.actor) == d.assignee) then
      Ok(d.(status := InProgress,
            sla := d.sla.(firstResponded := if d.sla.firstResponded.Some? then d.sla.firstResponded else Some(a.now))))
    else if a.name == Reject && d.status == New && a.privileged && !Blank(a.reason) then
      Ok(d.(status := Rejected))
    else if a.name == MarkFixed && d.status == InProgress && a.fixVersion.Some? && a.fixEvidence.Some? then
      Ok(d.(fixVersion := a.fixVersion, fixes := d.fixes + [a.fixEvidence.value], status := Fixed))
    else if a.name == SubmitVerification && d.status == Fixed && a.verifier.Some? then
      if d.fixVersion.None? || d.fixes == [] then Err("FIX_EVIDENCE_REQUIRED")
      else Ok(d.(verifier := a.verifier, status := PendingVerification))
    else if a.name == VerifyClose && d.status == PendingVerification && a.verification.Some?
            && a.verification.value.conclusion == Passed && !Blank(a.rootCause) then
      if Some(a.actor) != d.verifier && !a.privileged then Err("FORBIDDEN")
      else Ok(d.(rootCause := a.rootCause, verifications := d.verifications + [a.verification.value], status := Closed,
                 sla := d.sla.(resolved := Some(a.now))))
    else if a.name == VerifyFail && d.status == PendingVerification && a.verification.Some?
            && a.verification.value.conclusion == Failed then
      Ok(d.(verifications := d.verifications + [a.verification.value], status := Reopened,
            reopenCount := d.reopenCount + 1))
    else if a.name == ManualReopen && d.status == Closed
            && (a.privileged || Some(a.actor) == d.verifier || a.actor == d.reporter) && !Blank(a.reason) then
      Ok(d.(status := Reopened, reopenCount := d.reopenCount + 1))
    else if a.name == MarkDuplicate && d.status in [New, Assigned, InProgress] && a.privileged
            && a.duplicateOf.Some? && !Blank(a.reason) then
      if a.duplicateOf.value == id || id in a.ancestors then Err("DUPLICATE_CYCLE")
      else Ok(d.(duplicateOf := a.duplicateOf, status := Duplicate))
    else Err("INVALID_STATE_TRANSITION")
  }

  function Transition(d: Value, id: Uuid, a: Action): Result<Value> {
    var r := Effect(d, id, a);
    if r.Ok? then Ok(Record(r.value, a.name, a.actor, d.status, a.reason)) else r
  }

  function Amend(c: Content, ch: Changes): Content {
    Content(Pick(ch.title, c.title), Pick(ch.description, c.description), Pick(ch.severity, c.severity),
            Pick(ch.priority, c.priority), Pick(ch.defectType, c.defectType), Pick(ch.expected, c.expected),
            Pick(ch.actual, c.actual), Pick(ch.steps, c.steps))
  }

  predicate Empty(ch: Changes) { ch == Changes(None, None, None, None, None, None, None, None, false) }

  function Patch(d: Value, actor: Uuid, ch: Changes): Result<Value> {
    if Empty(ch) then Err("EMPTY_PATCH")
    else if ch.unknown then Err("INVALID_PATCH_FIELD")
    else if ch.severity.Some? && ch.severity.value.OtherSeverity? then Err("INVALID_SEVERITY")
    else
      var c := Amend(d.content, ch);
      if ContentError(c).Some? then Err(ContentError(c).value)
      else Ok(Record(d.(content := c), PatchFields, actor, d.status, "field update"))
  }

  // ---------------------------------------------------------------------
  // What every defect satisfies
  // ---------------------------------------------------------------------

  /** The workflow as a table: where an action leads, whoever takes it. */
  function Target(from: Status, action: Name): Option<Status> {
    match action
    case Assign => if from in [New, Reopened] then Some(Assigned) else None
    case Start => if from == Assigned then Some(InProgress) else None
    case Reject => if from == New then Some(Rejected) else None
    case MarkFixed => if from == InProgress then Some(Fixed) else None
    case SubmitVerification => if from == Fixed then Some(PendingVerification) else None
    case VerifyClose => if from == PendingVerification then Some(Closed) else None
    case VerifyFail => if from == PendingVerification then Some(Reopened) else None
    case ManualReopen => if from == Closed then Some(Reopened) else None
    case MarkDuplicate => if from in [New, Assigned, InProgress] then Some(Duplicate) else None
    case PatchFields => Some(from)
    case _ => None
  }

  /** The status that the recorded actions lead to, from a new defect. */
  function Replay(history: seq<Entry>): Option<Status> {
    if history == [] then Some(New)
    else
      var s := Replay(history[..|history| - 1]);
      if s.Some? then Target(s.value, history[|history| - 1].action) else None
  }

  function Count(history: seq<Entry>, action: Name): nat {
    if history == [] then 0
    else Count(history[..|history| - 1], action) + if history[|history| - 1].action == action then 1 else 0
  }

  // Entries are numbered from one, and each takes over where the one before left the defect.
  predicate Chained(history: seq<Entry>) {
    history == [] ||
    var init, last := history[..|history| - 1], history[|history| - 1];
    Chained(init) && last.sequenceNo == |history| && Some(last.before) == Replay(init) && Some(last.after) == Replay(history)
  }

  predicate Replayed(d: Value) { Replay(d.history) == Some(d.status) && Chained(d.history) }

  predicate Counted(d: Value) {
    && d.version == 1 + |d.history|
    && d.reopenCount == Count(d.history, VerifyFail) + Count(d.history, ManualReopen)
    && |d.fixes| == Count(d.history, MarkFixed)
    && |d.verifications| == Count(d.history, VerifyClose) + Count(d.history, VerifyFail)
  }

  /** The evidence that a status stands for. */
  predicate Evidenced(d: Value) {
    && (d.status in [Fixed, PendingVerification, Closed] ==> d.fixVersion.Some? && d.fixes != [])
    && (d.status in [PendingVerification, Closed] ==> d.verifier.Some?)
    && (d.status in [Assigned, InProgress, Fixed, PendingVerification, Closed] ==> d.assignee.Some?)
    && (d.status == Closed ==> !Blank(d.rootCause) && d.verifications != []
                               && d.verifications[|d.verifications| - 1].conclusion == Passed)
    && (d.status == Duplicate <==> d.duplicateOf.Some?)
  }

  predicate Inv(d: Value) {
    Replayed(d) && Counted(d) && Evidenced(d) && ContentError(d.content).None?
  }

  /** What a later value of a defect keeps of an earlier one: its records and its service levels. */
  predicate Extends(d: Value, e: Value) {
    && d.history <= e.history && d.fixes <= e.fixes && d.verifications <= e.verifications
    && d.project == e.project && d.businessNo == e.businessNo && d.reporter == e.reporter
    && (d.duplicateOf.Some? ==> e.duplicateOf == d.duplicateOf)
    && d.sla.policyKey == e.sla.policyKey && d.sla.policyVersion == e.sla.policyVersion
    && d.sla.responseDue == e.sla.responseDue && d.sla.resolutionDue == e.sla.resolutionDue
  }

  lemma RecordReplays(h: seq<Entry>, e: Entry)
    requires Chained(h) && Replay(h) == Some(e.before) && e.sequenceNo == |h| + 1
    requires Target(e.before, e.action) == Some(e.after)
    ensures Chained(h + [e]) && Replay(h + [e]) == Some(e.after)
  {
    assert (h + [e])[..|h + [e]| - 1] == h;
  }

  /** What a chained history says of its entries one by one. */
  lemma {:induction false} ChainedAt(h: seq<Entry>, i: nat)
    requires Chained(h) && i < |h|
    ensures h[i].sequenceNo == i + 1
    ensures h[i].before == if i == 0 then New else h[i - 1].after
    ensures Target(h[i].before, h[i].action) == Some(h[i].after)
    decreases |h|
  {
    var init := h[..|h| - 1];
    if i < |init| {
      ChainedAt(init, i);
    } else if |init| > 0 {
      assert Chained(init);
    }
  }

  /** An accepted action moves the status as the workflow table says, and adds one entry saying so. */
  lemma TransitionFollowsTable(d: Value, id: Uuid, a: Action)
    requires Transition(d, id, a).Ok?
    ensures var e := Transition(d, id, a).value;
            && Target(d.status, a.name) == Some(e.status)
            && e.history == d.history + [Entry(|d.history| + 1, a.name, a.actor, d.status, e.status, a.reason)]
            && e.content == d.content
  {
  }

  // An entry counts for its own action only.
  lemma CountNext(h: seq<Entry>, e: Entry)
    ensures forall action {:trigger Count(h + [e], action)} ::
              Count(h + [e], action) == Count(h, action) + if e.action == action then 1 else 0
  {
    assert (h + [e])[..|h + [e]| - 1] == h;
  }

  lemma TransitionKeepsCounts(d: Value, id: Uuid, a: Action)
    requires Counted(d) && Transition(d, id, a).Ok?
    ensures Counted(Transition(d, id, a).value)
  {
    var entry := Transition(d, id, a).value.history[|d.history|];
    assert Transition(d, id, a).value.history == d.history + [entry];
    CountNext(d.history, entry);
  }

  lemma TransitionKeepsEvidence(d: Value, id: Uuid, a: Action)
    requires Evidenced(d) && Transition(d, id, a).Ok?
    ensures Evidenced(Transition(d, id, a).value)
  {
  }

  lemma TransitionExtends(d: Value, id: Uuid, a: Action)
    requires Evidenced(d) && Transition(d, id, a).Ok?
    ensures Extends(d, Transition(d, id, a).value)
  {
  }

  /** Every action keeps the history replayable, the counters exact and the evidence in place. */
  lemma TransitionKeepsInv(d: Value, id: Uuid, a: Action)
    requires Inv(d) && Transition(d, id, a).Ok?
    ensures Inv(Transition(d, id, a).value) && Extends(d, Transition(d, id, a).value)
  {
    TransitionFollowsTable(d, id, a);
    TransitionKeepsCounts(d, id, a);
    TransitionKeepsEvidence(d, id, a);
    TransitionExtends(d, id, a);
    RecordReplays(d.history, Transition(d, id, a).value.history[|d.history|]);
  }

  // The defect after a patch: other content, and one entry more.
  predicate Patched(d: Value, e: Value, entry: Entry) {
    && e == d.(content := e.content, version := d.version + 1, history := d.history + [entry])
    && entry.sequenceNo == |d.history| + 1 && entry.action == PatchFields && entry.before == entry.after == d.status
  }

  lemma PatchedIs(d: Value, actor: Uuid, ch: Changes)
    requires Patch(d, actor, ch).Ok?
    ensures Patched(d, Patch(d, actor, ch).value, Entry(|d.history| + 1, PatchFields, actor, d.status, d.status, "field update"))
    ensures ContentError(Patch(d, actor, ch).value.content).None?
  {
  }

  lemma PatchedReplays(d: Value, e: Value, entry: Entry)
    requires Replayed(d) && Patched(d, e, entry)
    ensures Replayed(e)
  {
    RecordReplays(d.history, entry);
  }

  lemma PatchedCounts(d: Value, e: Value, entry: Entry)
    requires Counted(d) && Patched(d, e, entry)
    ensures Counted(e)
  {
    CountNext(d.history, entry);
  }

  /** A patch changes content only: the status, the evidence and the service levels stay. */
  lemma PatchKeepsInv(d: Value, actor: Uuid, ch: Changes)
    requires Inv(d) && Patch(d, actor, ch).Ok?
    ensures Inv(Patch(d, actor, ch).value) && Extends(d, Patch(d, actor, ch).value)
    ensures Patch(d, actor, ch).value.sla == d.sla && Patch(d, actor, ch).value.status == d.status
  {
    var entry := Entry(|d.history| + 1, PatchFields, actor, d.status, d.status, "field update");
    PatchedIs(d, actor, ch);
    PatchedReplays(d, Patch(d, actor, ch).value, entry);
    PatchedCounts(d, Patch(d, actor, ch).value, entry);
  }

  lemma CreateInv(project: Uuid, businessNo: string, reporter: Uuid, c: Content, now: int)
    requires Create(project, businessNo, reporter, c, now).Ok?
    ensures Inv(Create(project, businessNo, reporter, c, now).value)
  {
  }

  lemma ExtendsTransitive(d: Value, e: Value, f: Value)
    requires Extends(d, e) && Extends(e, f)
    ensures Extends(d, f)
  {
  }

  // ---------------------------------------------------------------------
  // What each action does
  // ---------------------------------------------------------------------

  /** Who may take an action and with what: by status, role and evidence. */
  predicate Permitted(d: Value, id: Uuid, a: Action) {
    match a.name
    case Assign => (d.status == New || d.status == Reopened) && a.assignee.Some?
    case Start => d.status == Assigned && (a.privileged || d.assignee == Some(a.actor))
    case Reject => d.status == New && a.privileged && !Blank(a.reason)
    case MarkFixed => d.status == InProgress && a.fixVersion.Some? && a.fixEvidence.Some?
    case SubmitVerification => d.status == Fixed && a.verifier.Some?
    case VerifyClose =>
      && d.status == PendingVerification && (a.privileged || d.verifier == Some(a.actor))
      && a.verification.Some? && a.verification.value.conclusion == Passed && !Blank(a.rootCause)
    case VerifyFail => d.status == PendingVerification && a.verification.Some? && a.verification.value.conclusion == Failed
    case ManualReopen =>
      d.status == Closed && (a.privileged || d.verifier == Some(a.actor) || d.reporter == a.actor) && !Blank(a.reason)
    case MarkDuplicate =>
      && (d.status == New || d.status == Assigned || d.status == InProgress) && a.privileged && !Blank(a.reason)
      && a.duplicateOf.Some? && a.duplicateOf.value != id && id !in a.ancestors
    case _ => false
  }

  /** An action of a consistent defect is accepted exactly if it is permitted. */
  lemma ActionIff(d: Value, id: Uuid, a: Action)
    requires Inv(d)
    ensures Transition(d, id, a).Ok? <==> Permitted(d, id, a)
  {
    EffectIff(d, id, a);
  }

  lemma EffectIff(d: Value, id: Uuid, a: Action)
    requires Evidenced(d)
    ensures Effect(d, id, a).Ok? <==> Permitted(d, id, a)
  {
  }

  /** A refusal says why: the wrong verifier, a cycle of duplicates, or an action that does not fit. */
  lemma RefusalSaysWhy(d: Value, id: Uuid, a: Action)
    requires Inv(d)
    ensures Transition(d, id, a).Err? ==>
              Transition(d, id, a).code ==
                if a.name == VerifyClose && d.status == PendingVerification && a.verification.Some?
                   && a.verification.value.conclusion == Passed && !Blank(a.rootCause) then "FORBIDDEN"
                else if a.name == MarkDuplicate && (d.status == New || d.status == Assigned || d.status == InProgress)
                   && a.privileged && !Blank(a.reason) && a.duplicateOf.Some? then "DUPLICATE_CYCLE"
                else "INVALID_STATE_TRANSITION"
  {
  }

  // What an action may change besides status, version and history.
  predicate SamePeople(d: Value, e: Value) { e.assignee == d.assignee && e.verifier == d.verifier }

  predicate SameRecords(d: Value, e: Value) {
    && e.fixVersion == d.fixVersion && e.fixes == d.fixes && e.verifications == d.verifications
    && e.rootCause == d.rootCause && e.reopenCount == d.reopenCount && e.duplicateOf == d.duplicateOf
  }

  predicate SameIdentity(d: Value, e: Value) {
    e.project == d.project && e.businessNo == d.businessNo && e.reporter == d.reporter && e.content == d.content
  }

  /** An accepted action writes what it was given to its own fields, and leaves all others. */
  lemma ActionEffect(d: Value, id: Uuid, a: Action)
    requires Transition(d, id, a).Ok?
    ensures var e := Transition(d, id, a).value;
            && SameIdentity(d, e) && e.version == d.version + 1
            && (a.name != Start && a.name != VerifyClose ==> e.sla == d.sla)
            && match a.name
               case Assign => e.status == Assigned && e.assignee == a.assignee && e.verifier == d.verifier && SameRecords(d, e)
               case Start =>
                 && e.status == InProgress && SamePeople(d, e) && SameRecords(d, e)
                 && e.sla == d.sla.(firstResponded := e.sla.firstResponded)
                 && e.sla.firstResponded == if d.sla.firstResponded.None? then Some(a.now) else d.sla.firstResponded
               case Reject => e.status == Rejected && SamePeople(d, e) && SameRecords(d, e)
               case MarkFixed =>
                 && e.status == Fixed && SamePeople(d, e) && e.fixVersion == a.fixVersion
                 && e.fixes == d.fixes + [a.fixEvidence.value] && SameRecords(d, e.(fixVersion := d.fixVersion, fixes := d.fixes))
               case SubmitVerification =>
                 e.status == PendingVerification && e.verifier == a.verifier && e.assignee == d.assignee && SameRecords(d, e)
               case VerifyClose =>
                 && e.status == Closed && SamePeople(d, e) && e.rootCause == a.rootCause
                 && e.verifications == d.verifications + [a.verification.value]
                 && SameRecords(d, e.(rootCause := d.rootCause, verifications := d.verifications))
                 && e.sla == d.sla.(resolved := Some(a.now))
               case VerifyFail =>
                 && e.status == Reopened && SamePeople(d, e) && e.verifications == d.verifications + [a.verification.value]
                 && e.reopenCount == d.reopenCount + 1
                 && SameRecords(d, e.(verifications := d.verifications, reopenCount := d.reopenCount))
               case ManualReopen =>
                 && e.status == Reopened && SamePeople(d, e) && e.reopenCount == d.reopenCount + 1
                 && SameRecords(d, e.(reopenCount := d.reopenCount))
               case MarkDuplicate =>
                 && e.status == Duplicate && SamePeople(d, e) && e.duplicateOf == a.duplicateOf
                 && SameRecords(d, e.(duplicateOf := d.duplicateOf))
               case _ => false
  {
  }

  predicate ContentLegal(c: Content) {
    && 1 <= |c.title| <= 200 && |c.description| <= 20_000
    && !c.priority.OtherPriority? && !c.severity.OtherSeverity? && !c.defectType.OtherType?
    && !Blank(c.expected) && !Blank(c.actual) && |c.steps| <= 50
    && (c.severity == Blocker || c.severity == Critical ==> c.steps != [])
  }

  /** A patch gives each field its new value or keeps the old one; it is accepted if that is within the rules. */
  lemma PatchEffect(d: Value, actor: Uuid, ch: Changes, c: Content)
    requires c.title == (if ch.title.Some? then ch.title.value else d.content.title)
    requires c.description == (if ch.description.Some? then ch.description.value else d.content.description)
    requires c.severity == (if ch.severity.Some? then ch.severity.value else d.content.severity)
    requires c.priority == (if ch.priority.Some? then ch.priority.value else d.content.priority)
    requires c.defectType == (if ch.defectType.Some? then ch.defectType.value else d.content.defectType)
    requires c.expected == (if ch.expected.Some? then ch.expected.value else d.content.expected)
    requires c.actual == (if ch.actual.Some? then ch.actual.value else d.content.actual)
    requires c.steps == (if ch.steps.Some? then ch.steps.value else d.content.steps)
    ensures Patch(d, actor, ch).Ok? <==>
            && !ch.unknown && ContentLegal(c)
            && (ch.title.Some? || ch.description.Some? || ch.severity.Some? || ch.priority.Some? || ch.defectType.Some?
                || ch.expected.Some? || ch.actual.Some? || ch.steps.Some?)
    ensures Patch(d, actor, ch).Ok? ==> Patched(d, Patch(d, actor, ch).value, PatchEntry(d, actor))
                                        && Patch(d, actor, ch).value.content == c
  {
    assert c == Amend(d.content, ch);
  }

  /** Content that is not within the rules is refused for the first one it breaks. */
  lemma ContentRefusalSaysWhy(c: Content)
    ensures ContentError(c).None? <==> ContentLegal(c)
    ensures ContentError(c).Some? ==>
              ContentError(c).value ==
                if |c.title| < 1 || |c.title| > 200 || |c.description| > 20_000 then "INVALID_DEFECT"
                else if c.priority.OtherPriority? || c.severity.OtherSeverity? || c.defectType.OtherType? then
                  "INVALID_DEFECT_CLASSIFICATION"
                else if Blank(c.expected) || Blank(c.actual) then "RESULTS_REQUIRED"
                else if c.steps == [] then "REPRODUCTION_REQUIRED" else "TOO_MANY_REPRODUCTION_STEPS"
  {
  }

  /** A refused patch says whether it is empty, names a field that is not patchable, or breaks a rule. */
  lemma PatchRefusalSaysWhy(d: Value, actor: Uuid, ch: Changes)
    requires Patch(d, actor, ch).Err?
    ensures Patch(d, actor, ch).code ==
            if ch == Changes(None, None, None, None, None, None, None, None, false) then "EMPTY_PATCH"
            else if ch.unknown then "INVALID_PATCH_FIELD"
            else if ch.severity.Some? && ch.severity.value.OtherSeverity? then "INVALID_SEVERITY"
            else ContentError(Amend(d.content, ch)).value
  {
  }

  function PatchEntry(d: Value, actor: Uuid): Entry {
    Entry(|d.history| + 1, PatchFields, actor, d.status, d.status, "field update")
  }

  /** A new defect: nobody assigned, nothing recorded, and due times in hours by severity. */
  lemma CreateEffect(project: Uuid, businessNo: string, reporter: Uuid, c: Content, now: int)
    ensures Create(project, businessNo, reporter, c, now).Ok? <==> ContentLegal(c)
    ensures Create(project, businessNo, reporter, c, now).Ok? ==>
              var d := Create(project, businessNo, reporter, c, now).value;
              && d.project == project && d.businessNo == businessNo && d.reporter == reporter && d.content == c
              && d.status == New && d.version == 1 && d.history == [] && d.fixes == [] && d.verifications == []
              && d.assignee == d.verifier == d.fixVersion == d.duplicateOf == None && d.rootCause == "" && d.reopenCount == 0
              && d.sla.policyKey == c.severity && d.sla.firstResponded == d.sla.resolved == None
              && !d.sla.responseBreached && !d.sla.resolutionBreached
              && (c.severity == Blocker ==> d.sla.responseDue == now + 15 && d.sla.resolutionDue == now + 8 * 60)
              && (c.severity == Critical ==> d.sla.responseDue == now + 1 * 60 && d.sla.resolutionDue == now + 24 * 60)
              && (c.severity == Major ==> d.sla.responseDue == now + 4 * 60 && d.sla.resolutionDue == now + 72 * 60)
              && (c.severity == Minor ==> d.sla.responseDue == now + 24 * 60 && d.sla.resolutionDue == now + 240 * 60)
              && (c.severity == Trivial ==> d.sla.responseDue == now + 48 * 60 && d.sla.resolutionDue == now + 480 * 60)
  {
  }

  // Terminal statuses: nothing but patches is recorded any more.
  lemma DuplicateIsFinal(d: Value, id: Uuid, a: Action)
    requires d.status in [Duplicate, Rejected]
    ensures Transition(d, id, a) == Err("INVALID_STATE_TRANSITION")
  {
  }

  // ---------------------------------------------------------------------
  // The aggregate
  // ---------------------------------------------------------------------

  class Defect {
    const id: Uuid
    const projectId: Uuid
    const businessNo: string
    const reporterId: Uuid
    var content: Content
    var status: Status
    var assigneeId: Option<Uuid>
    var verifierId: Option<Uuid>
    var fixVersionId: Option<Uuid>
    var rootCause: string
    var duplicateOfId: Option<Uuid>
    var reopenCount: nat
    var version: nat
    var fixEvidence: seq<FixEvidence>
    var verificationEvidence: seq<Verification>
    var history: seq<Entry>
    var sla: Sla

    function View(): Value
      reads this
    {
      Value(projectId, businessNo, reporterId, content, status, assigneeId, verifierId, fixVersionId, rootCause,
            duplicateOfId, reopenCount, version, fixEvidence, verificationEvidence, history, sla)
    }

    constructor (id: Uuid, d: Value)
      ensures this.id == id && View() == d
    {
      this.id, projectId, businessNo, reporterId := id, d.project, d.businessNo, d.reporter;
      content, status, assigneeId, verifierId := d.content, d.status, d.assignee, d.verifier;
      fixVersionId, rootCause, duplicateOfId := d.fixVersion, d.rootCause, d.duplicateOf;
      reopenCount, version, fixEvidence, verificationEvidence := d.reopenCount, d.version, d.fixes, d.verifications;
      history, sla := d.history, d.sla;
    }

    method RecordEntry(name: Name, actor: Uuid, before: Status, reason: string)
      modifies this`version, this`history
      ensures View() == Record(old(View()), name, actor, before, reason)
    {
      version := version + 1;
      history := history + [Entry(|history| + 1, name, actor, before, status, reason)];
    }

    // The guarded effect, field by field.
    method ApplyEffect(a: Action) returns (r: Result<Status>)
      modifies this
      ensures r.Ok? <==> Effect(old(View()), id, a).Ok?
      ensures r.Ok? ==> View() == Effect(old(View()), id, a).value && r.value == status
      ensures r.Err? ==> View() == old(View()) && r.code == Effect(old(View()), id, a).code
    {
      if a.name.Assign? || a.name.Start? || a.name.Reject? {
        r := ApplyTriage(a);
      } else if a.name.MarkFixed? || a.name.SubmitVerification? {
        r := ApplyFix(a);
      } else if a.name.VerifyClose? {
        r := ApplyClose(a);
      } else if a.name.VerifyFail? {
        r := ApplyFailure(a);
      } else if a.name.ManualReopen? || a.name.MarkDuplicate? {
        r := ApplyAdministration(a);
      } else {
        r := Err("INVALID_STATE_TRANSITION");
      }
    }

    method ApplyTriage(a: Action) returns (r: Result<Status>)
      requires a.name.Assign? || a.name.Start? || a.name.Reject?
      modifies this
      ensures r.Ok? <==> Effect(old(View()), id, a).Ok?
      ensures r.Ok? ==> View() == Effect(old(View()), id, a).value && r.value == status
      ensures r.Err? ==> View() == old(View()) && r.code == Effect(old(View()), id, a).code
    {
      if a.name.Assign? && status in [New, Reopened] && a.assignee.Some? {
        assigneeId, status := a.assignee, Assigned;
      } else if a.name.Start? && status == Assigned && (a.privileged || Some(a.actor) == assigneeId) {
        status := InProgress;
        sla := sla.(firstResponded := if sla.firstResponded.Some? then sla.firstResponded else Some(a.now));
      } else if a.name.Reject? && status == New && a.privileged && !Blank(a.reason) {
        status := Rejected;
      } else {
        return Err("INVALID_STATE_TRANSITION");
      }
      return Ok(status);
    }

    method ApplyFix(a: Action) returns (r: Result<Status>)
      requires a.name.MarkFixed? || a.name.SubmitVerification?
      modifies this
      ensures r.Ok? <==> Effect(old(View()), id, a).Ok?
      ensures r.Ok? ==> View() == Effect(old(View()), id, a).value && r.value == status
      ensures r.Err? ==> View() == old(View()) && r.code == Effect(old(View()), id, a).code
    {
      if a.name.MarkFixed? && status == InProgress && a.fixVersion.Some? && a.fixEvidence.Some? {
        fixVersionId := a.fixVersion;
        fixEvidence := fixEvidence + [a.fixEvidence.value];
        status := Fixed;
      } else if a.name.SubmitVerification? && status == Fixed && a.verifier.Some? {
        if fixVersionId.None? || fixEvidence == [] {
          return Err("FIX_EVIDENCE_REQUIRED");
        }
        verifierId, status := a.verifier, PendingVerification;
      } else {
        return Err("INVALID_STATE_TRANSITION");
      }
      return Ok(status);
    }

    method ApplyClose(a: Action) returns (r: Result<Status>)
      requires a.name.VerifyClose?
      modifies this
      ensures r.Ok? <==> Effect(old(View()), id, a).Ok?
      ensures r.Ok? ==> View() == Effect(old(View()), id, a).value && r.value == status
      ensures r.Err? ==> View() == old(View()) && r.code == Effect(old(View()), id, a).code
    {
      if status != PendingVerification || a.verification.None? || a.verification.value.conclusion != Passed
         || Blank(a.rootCause)
      {
        return Err("INVALID_STATE_TRANSITION");
      }
      if Some(a.actor) != verifierId && !a.privileged {
        return Err("FORBIDDEN");
      }
      rootCause, status := a.rootCause, Closed;
      verificationEvidence := verificationEvidence + [a.verification.value];
      sla := sla.(resolved := Some(a.now));
      return Ok(status);
    }

    method ApplyFailure(a: Action) returns (r: Result<Status>)
      requires a.name.VerifyFail?
      modifies this
      ensures r.Ok? <==> Effect(old(View()), id, a).Ok?
      ensures r.Ok? ==> View() == Effect(old(View()), id, a).value && r.value == status
      ensures r.Err? ==> View() == old(View()) && r.code == Effect(old(View()), id, a).code
    {
      if status != PendingVerification || a.verification.None? || a.verification.value.conclusion != Failed {
        return Err("INVALID_STATE_TRANSITION");
      }
      verificationEvidence := verificationEvidence + [a.verification.value];
      status, reopenCount := Reopened, reopenCount + 1;
      return Ok(status);
    }

    method ApplyAdministration(a: Action) returns (r: Result<Status>)
      requires a.name.ManualReopen? || a.name.MarkDuplicate?
      modifies this
      ensures r.Ok? <==> Effect(old(View()), id, a).Ok?
      ensures r.Ok? ==> View() == Effect(old(View()), id, a).value && r.value == status
      ensures r.Err? ==> View() == old(View()) && r.code == Effect(old(View()), id, a).code
    {
      if a.name.ManualReopen? && status == Closed && !Blank(a.reason)
         && (a.privileged || Some(a.actor) == verifierId || a.actor == reporterId)
      {
        status, reopenCount := Reopened, reopenCount + 1;
      } else if a.name.MarkDuplicate? && status in [New, Assigned, InProgress] && a.privileged
                && a.duplicateOf.Some? && !Blank(a.reason)
      {
        if a.duplicateOf.value == id || id in a.ancestors {
          return Err("DUPLICATE_CYCLE");
        }
        duplicateOfId, status := a.duplicateOf, Duplicate;
      } else {
        return Err("INVALID_STATE_TRANSITION");
      }
      return Ok(status);
    }

    /** One action; a refused action changes nothing. */
    method DoTransition(a: Action) returns (r: Result<Status>)
      modifies this
      ensures r.Ok? <==> Transition(old(View()), id, a).Ok?
      ensures r.Ok? ==> View() == Transition(old(View()), id, a).value && r.value == status
      ensures r.Err? ==> View() == old(View()) && r.code == Transition(old(View()), id, a).code
    {
      var before := status;
      r := ApplyEffect(a);
      if r.Ok? {
        RecordEntry(a.name, a.actor, before, a.reason);
      }
    }

    /**
     A patch writes its fields before it checks them, so a refused patch leaves this object, a
     private copy of the stored rows, half written; the caller discards it.
     */
    method DoPatch(actor: Uuid, ch: Changes) returns (r: Result<Status>)
      modifies this
      ensures r.Ok? <==> Patch(old(View()), actor, ch).Ok?
      ensures r.Ok? ==> View() == Patch(old(View()), actor, ch).value && r.value == status
      ensures r.Err? ==> r.code == Patch(old(View()), actor, ch).code && View() == old(View()).(content := content)
    {
      if Empty(ch) {
        return Err("EMPTY_PATCH");
      }
      if ch.unknown {
        return Err("INVALID_PATCH_FIELD");
      }
      content := content.(title := Pick(ch.title, content.title), description := Pick(ch.description, content.description));
      if ch.severity.Some? && ch.severity.value.OtherSeverity? {
        return Err("INVALID_SEVERITY");
      }
      content := content.(severity := Pick(ch.severity, content.severity), priority := Pick(ch.priority, content.priority));
      content := content.(defectType := Pick(ch.defectType, content.defectType));
      content := content.(expected := Pick(ch.expected, content.expected), actual := Pick(ch.actual, content.actual));
      content := content.(steps := Pick(ch.steps, content.steps));
      assert content == Amend(old(content), ch);
      var e := ContentError(content);
      if e.Some? {
        return Err(e.value);
      }
      RecordEntry(PatchFields, actor, status, "field update");
      return Ok(status);
    }
  }
}
