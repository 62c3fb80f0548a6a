/**
 Requirements in requirement-service: content frozen in numbered revisions, a lifecycle, a typed
 hierarchy, and change requests for baselined requirements. A request works on a private copy of
 the stored row and stores it only when nothing was refused.
 */
module RequirementGovernance {
  import opened Options
  import opened Chains
  import opened RevisionRows

  datatype Kind = Epic | Feature | UserStory | Fr | Nfr | Ac

  datatype Status = Draft | InReview | Rejected | Approved | Active | Completed | Canceled

  datatype Priority = P0 | P1 | P2 | P3 | OtherPriority(text: string)

  /** What a revision freezes. */
  datatype Content = Content(title: string, description: string, kind: Kind, parent: Option<Uuid>, priority: Priority,
                             owner: Uuid, release: Uuid, criteria: seq<string>)

  datatype Requirement = Requirement(project: Uuid, businessNo: string, content: Content, status: Status,
                                     currentRevision: nat, version: nat, baselined: bool)

  // A patch; a parent of Some(None) asks for no parent.
  datatype Changes = Changes(title: Option<string>, description: Option<string>, priority: Option<Priority>,
                             owner: Option<Uuid>, release: Option<Uuid>, criteria: Option<seq<string>>,
                             parent: Option<Option<Uuid>>, unknown: bool, unpersisted: bool)

  datatype ChangeStatus = ChangeDraft | ChangeInReview | ChangeApproved | ChangeRejected | ChangeApplied | ChangeCanceled

  datatype ChangeAction = Submit | Approve | Reject | Apply | Cancel | OtherChangeAction(text: string)

  datatype ChangeRequest = ChangeRequest(project: Uuid, requirement: Uuid, base: Uuid, patch: Changes,
                                         status: ChangeStatus, version: nat)

  datatype Action = SubmitReview | ApproveIt | RejectIt | ReturnToDraft | Activate | Complete | CancelIt | Reopen
                  | OtherAction(text: string)

  datatype Evidence = Evidence(approvedReview: bool, baselined: bool, completion: bool, privileged: bool, reason: string)

  datatype Store = Store(reqs: map<Uuid, Requirement>, revisions: Table<Content>,
                         changes: map<Uuid, ChangeRequest>)

  datatype Command =
    | Create(project: Uuid, newId: Uuid, revisionId: Uuid, businessNo: string, content: Content)
    | Patch(project: Uuid, id: Uuid, changes: Changes, revisionId: Uuid, changeId: Uuid)
    | Move(project: Uuid, id: Uuid, action: Action, evidence: Evidence)
    | OpenChange(project: Uuid, id: Uuid, base: Uuid, changes: Changes, changeId: Uuid)
    | MoveChange(project: Uuid, id: Uuid, changeId: Uuid, changeAction: ChangeAction, revisionId: Uuid)
    | Baseline(id: Uuid)    // set from outside the service

  // ---------------------------------------------------------------------
  // The hierarchy
  // ---------------------------------------------------------------------

  /** The one kind of parent each kind may have. */
  function AllowedParent(k: Kind): Option<Kind> {
    match k
    case Epic => None
    case Feature => Some(Epic)
    case UserStory => Some(Feature)
    case _ => Some(UserStory)
  }

  function Level(k: Kind): nat {
    match k
    case Epic => 0
    case Feature => 1
    case UserStory => 2
    case _ => 3
  }

  function Parents(reqs: map<Uuid, Requirement>, project: Uuid): map<Uuid, Uuid> {
    map id | id in reqs && reqs[id].project == project && reqs[id].content.parent.Some? :: reqs[id].content.parent.value
  }

  predicate ParentOk(reqs: map<Uuid, Requirement>, id: Uuid)
    requires id in reqs
  {
    reqs[id].content.parent.Some? ==>
      var p := reqs[id].content.parent.value;
      p in reqs && reqs[p].project == reqs[id].project
      && AllowedParent(reqs[id].content.kind) == Some(reqs[p].content.kind)
  }

  ghost predicate Hierarchy(reqs: map<Uuid, Requirement>) {
    forall id {:trigger ParentOk(reqs, id)} | id in reqs :: ParentOk(reqs, id)
  }

  /** Every step up the hierarchy is one level. */
  lemma {:induction false} UpIsLevel(reqs: map<Uuid, Requirement>, project: Uuid, x: Uuid, k: nat)
    requires Hierarchy(reqs) && x in reqs && reqs[x].project == project
    requires Up(Parents(reqs, project), x, k).Some?
    ensures var y := Up(Parents(reqs, project), x, k).value;
            y in reqs && reqs[y].project == project && Level(reqs[y].content.kind) + k == Level(reqs[x].content.kind)
    decreases k
  {
    if k > 0 {
      assert ParentOk(reqs, x);
      UpIsLevel(reqs, project, Parents(reqs, project)[x], k - 1);
    }
  }

  /** No requirement has more than three ancestors, and none is its own ancestor. */
  lemma AtMostThreeAncestors(reqs: map<Uuid, Requirement>, project: Uuid, x: Uuid)
    requires Hierarchy(reqs) && x in reqs && reqs[x].project == project
    ensures Up(Parents(reqs, project), x, 4).None?
    ensures !IsAncestor(Parents(reqs, project), x, x)
    ensures Ends(Parents(reqs, project), x, Level(reqs[x].content.kind))
  {
    if Up(Parents(reqs, project), x, 4).Some? {
      UpIsLevel(reqs, project, x, 4);
    }
    if IsAncestor(Parents(reqs, project), x, x) {
      var k: nat :| k > 0 && Up(Parents(reqs, project), x, k) == Some(x);
      UpIsLevel(reqs, project, x, k);
    }
    EndsByLevel(reqs, project, x);
  }

  lemma {:induction false} EndsByLevel(reqs: map<Uuid, Requirement>, project: Uuid, x: Uuid)
    requires Hierarchy(reqs) && x in reqs && reqs[x].project == project
    ensures Ends(Parents(reqs, project), x, Level(reqs[x].content.kind))
    decreases Level(reqs[x].content.kind)
  {
    if x in Parents(reqs, project) {
      assert ParentOk(reqs, x);
      EndsByLevel(reqs, project, Parents(reqs, project)[x]);
    }
  }

  ghost function AncestorSet(reqs: map<Uuid, Requirement>, project: Uuid, x: Uuid): set<Uuid> {
    set a | a in Parents(reqs, project).Values && IsAncestor(Parents(reqs, project), a, x)
  }

  /** Re-parenting, with the checks in the service's order. */
  ghost function SetParent(reqs: map<Uuid, Requirement>, project: Uuid, id: Uuid, kind: Kind, raw: Option<Uuid>)
    : Result<Option<Uuid>>
  {
    if raw.None? then
      if AllowedParent(kind).Some? then Err("PARENT_REQUIRED") else Ok(None)
    else
      var p := raw.value;
      if !(p in reqs && reqs[p].project == project) then Err("RESOURCE_NOT_FOUND")
      else if AllowedParent(kind) != Some(reqs[p].content.kind) then Err("INVALID_REQUIREMENT_HIERARCHY")
      else if p == id || id in AncestorSet(reqs, project, p) + {p} then Err("REQUIREMENT_CYCLE")
      else Ok(Some(p))
  }

  /** The cycle check never fires: a legal parent is one level up, and its ancestors are higher still. */
  lemma CycleCheckIsDead(reqs: map<Uuid, Requirement>, project: Uuid, id: Uuid, raw: Option<Uuid>)
    requires Hierarchy(reqs) && id in reqs && reqs[id].project == project
    ensures SetParent(reqs, project, id, reqs[id].content.kind, raw) != Err("REQUIREMENT_CYCLE")
  {
    if raw.Some? && raw.value in reqs && reqs[raw.value].project == project
       && AllowedParent(reqs[id].content.kind) == Some(reqs[raw.value].content.kind)
       && IsAncestor(Parents(reqs, project), id, raw.value)
    {
      var k: nat :| k > 0 && Up(Parents(reqs, project), raw.value, k) == Some(id);
      UpIsLevel(reqs, project, raw.value, k);
    }
  }

  // ---------------------------------------------------------------------
  // Business numbers
  // ---------------------------------------------------------------------

  const MAX_NUMBER := 64

  predicate HasNumber(q: Requirement, project: Uuid, businessNo: string) {
    q.project == project && q.businessNo == businessNo
  }

  predicate NumberTaken(reqs: map<Uuid, Requirement>, project: Uuid, businessNo: string) {
    exists id {:trigger reqs[id]} | id in reqs :: HasNumber(reqs[id], project, businessNo)
  }

  /** What the table refuses of a new row. */
  function NumberError(reqs: map<Uuid, Requirement>, project: Uuid, businessNo: string): Option<string> {
    if |businessNo| > MAX_NUMBER then Some("value too long")
    else if NumberTaken(reqs, project, businessNo) then Some("unique violation")
    else None
  }

  // No two requirements of a project have one business number.
  ghost predicate DistinctNumbers(reqs: map<Uuid, Requirement>) {
    forall x, y {:trigger reqs[x], reqs[y]} | x in reqs && y in reqs && HasNumber(reqs[x], reqs[y].project, reqs[y].businessNo) ::
      x == y
  }

  lemma RowKeepsNumbers(reqs: map<Uuid, Requirement>, id: Uuid, q: Requirement)
    requires DistinctNumbers(reqs)
    requires if id in reqs then HasNumber(reqs[id], q.project, q.businessNo) else !NumberTaken(reqs, q.project, q.businessNo)
    ensures DistinctNumbers(reqs[id := q])
  {
    assert forall x | x in reqs && x != id :: !HasNumber(reqs[x], q.project, q.businessNo);
  }

  // ---------------------------------------------------------------------
  // Commands
  // ---------------------------------------------------------------------

  function ContentError(c: Content): Option<string> {
    if !(1 <= |c.title| <= 200) || |c.description| > 20_000 then Some("INVALID_REQUIREMENT")
    else if c.priority.OtherPriority? then Some("INVALID_PRIORITY")
    else if |c.criteria| > 100 then Some("INVALID_ACCEPTANCE_CRITERIA")
    else None
  }

  predicate EmptyChanges(ch: Changes) {
    ch.title.None? && ch.description.None? && ch.priority.None? && ch.owner.None? && ch.release.None?
    && ch.criteria.None? && ch.parent.None? && !ch.unknown && !ch.unpersisted
  }

  function GovernedError(ch: Changes): Option<string> {
    if EmptyChanges(ch) then Some("EMPTY_PATCH")
    else if ch.unknown then Some("INVALID_CHANGE_PATCH")
    else if ch.unpersisted then Some("UNSUPPORTED_PATCH_FIELD")
    else None
  }

  function Amend(c: Content, ch: Changes, parent: Option<Uuid>): Content {
    Content(Pick(ch.title, c.title), Pick(ch.description, c.description), c.kind, parent, Pick(ch.priority, c.priority),
            Pick(ch.owner, c.owner), Pick(ch.release, c.release), Pick(ch.criteria, c.criteria))
  }

  // The revisions of a requirement as they are read from the table.
  ghost function RevisionsOf(s: Store, id: Uuid): seq<Revision<Content>> { ReadBack(s.revisions, id) }

  /** Write the governed fields, check the result and freeze it as the next revision. */
  ghost function ApplyFields(s: Store, id: Uuid, ch: Changes, revisionId: Uuid): Result<Store>
    requires id in s.reqs
  {
    var q := s.reqs[id];
    var parent := if ch.parent.Some? then SetParent(s.reqs, q.project, id, q.content.kind, ch.parent.value)
                  else Ok(q.content.parent);
    if parent.Err? then Err(parent.code)
    else
      var c := Amend(q.content, ch, parent.value);
      if ContentError(c).Some? then Err(ContentError(c).value)
      else
        var revision := Revision(revisionId, q.currentRevision + 1, c);
        var earlier := RevisionsOf(s, id);
        Ok(s.(reqs := s.reqs[id := q.(content := c, currentRevision := q.currentRevision + 1, version := q.version + 1)],
              revisions := Write(s.revisions, id, earlier + [revision])))
  }

  function NextStatus(q: Requirement, a: Action, e: Evidence): Result<Status> {
    match a
    case SubmitReview =>
      if q.status != Draft && q.status != Rejected then Err("INVALID_STATE_TRANSITION")
      else if q.content.kind != Epic && q.content.criteria == [] then Err("AC_REQUIRED")
      else Ok(InReview)
    case ApproveIt => if q.status == InReview && e.approvedReview then Ok(Approved) else Err("INVALID_STATE_TRANSITION")
    case RejectIt => if q.status == InReview then Ok(Rejected) else Err("INVALID_STATE_TRANSITION")
    case ReturnToDraft => if q.status == Rejected then Ok(Draft) else Err("INVALID_STATE_TRANSITION")
    case Activate => if q.status == Approved && e.baselined then Ok(Active) else Err("INVALID_STATE_TRANSITION")
    case Complete => if q.status == Active && e.completion then Ok(Completed) else Err("INVALID_STATE_TRANSITION")
    case CancelIt => if q.status == Active then Ok(Canceled) else Err("INVALID_STATE_TRANSITION")
    case Reopen =>
      if q.status == Completed && e.privileged && !Blank(e.reason) then Ok(Active) else Err("INVALID_STATE_TRANSITION")
    case OtherAction(_) => Err("INVALID_STATE_TRANSITION")
  }

  function NextChange(s: ChangeStatus, a: ChangeAction): Option<ChangeStatus> {
    match (s, a)
    case (ChangeDraft, Submit) => Some(ChangeInReview)
    case (ChangeInReview, Approve) => Some(ChangeApproved)
    case (ChangeInReview, Reject) => Some(ChangeRejected)
    case (ChangeApproved, Apply) => Some(ChangeApplied)
    case (ChangeDraft, Cancel) => Some(ChangeCanceled)
    case (ChangeInReview, Cancel) => Some(ChangeCanceled)
    case _ => None
  }

  predicate Visible(s: Store, project: Uuid, id: Uuid) { id in s.reqs && s.reqs[id].project == project }

  // The revision with the highest number.
  ghost function LatestRevision(revisions: seq<Revision<Content>>): Revision<Content>
    requires revisions != []
  {
    var init, last := revisions[..|revisions| - 1], revisions[|revisions| - 1];
    if init == [] then last
    else
      var best := LatestRevision(init);
      if best.revisionNo >= last.revisionNo then best else last
  }

  ghost function Step(s: Store, c: Command): Result<Store> {
    match c
    case Create(project, newId, revisionId, businessNo, content) =>
      var initial := content.(parent := None);   // a new requirement never has a parent
      if ContentError(initial).Some? then Err(ContentError(initial).value)
      else if NumberError(s.reqs, project, businessNo).Some? then Err(NumberError(s.reqs, project, businessNo).value)
      else
        Ok(s.(reqs := s.reqs[newId := Requirement(project, businessNo, initial, Draft, 1, 1, false)],
              revisions := Write(s.revisions, newId, [Revision(revisionId, 1, initial)])))
    case Patch(project, id, changes, revisionId, changeId) =>
      if !Visible(s, project, id) then Err("RESOURCE_NOT_FOUND")
      else if GovernedError(changes).Some? then Err(GovernedError(changes).value)
      else if s.reqs[id].baselined then
        if RevisionsOf(s, id) == [] then Err("REVISION_NOT_FOUND")
        else
          var base := LatestRevision(RevisionsOf(s, id)).id;
          Ok(s.(changes := s.changes[changeId := ChangeRequest(project, id, base, changes, ChangeDraft, 1)]))
      else ApplyFields(s, id, changes, revisionId)
    case Move(project, id, action, evidence) =>
      if !Visible(s, project, id) then Err("RESOURCE_NOT_FOUND")
      else
        var next := NextStatus(s.reqs[id], action, evidence);
        if next.Err? then Err(next.code)
        else Ok(s.(reqs := s.reqs[id := s.reqs[id].(status := next.value, version := s.reqs[id].version + 1)]))
    case OpenChange(project, id, base, changes, changeId) =>
      if !Visible(s, project, id) then Err("RESOURCE_NOT_FOUND")
      else if GovernedError(changes).Some? then Err(GovernedError(changes).value)
      else if forall r | r in RevisionsOf(s, id) :: r.id != base then Err("RESOURCE_NOT_FOUND")
      else Ok(s.(changes := s.changes[changeId := ChangeRequest(project, id, base, changes, ChangeDraft, 1)]))
    case MoveChange(project, id, changeId, action, revisionId) =>
      if !Visible(s, project, id) then Err("RESOURCE_NOT_FOUND")
      else if !(changeId in s.changes && s.changes[changeId].project == project && s.changes[changeId].requirement == id)
      then Err("RESOURCE_NOT_FOUND")
      else
        var change := s.changes[changeId];
        if action.Apply? && GovernedError(change.patch).Some? then Err(GovernedError(change.patch).value)
        else if NextChange(change.status, action).None? then Err("INVALID_STATE_TRANSITION")
        else
          var applied := if action.Apply? then ApplyFields(s, id, change.patch, revisionId) else Ok(s);
          if applied.Err? then applied
          else
            var moved := change.(status := NextChange(change.status, action).value, version := change.version + 1);
            Ok(applied.value.(changes := s.changes[changeId := moved]))
    case Baseline(id) =>
      if id in s.reqs then Ok(s.(reqs := s.reqs[id := s.reqs[id].(baselined := true)])) else Ok(s)
  }

  // New requirements and new revisions have new identifiers.
  ghost predicate Fresh(s: Store, c: Command) {
    match c
    case Create(_, newId, revisionId, _, _) => newId !in s.reqs && revisionId !in s.revisions
    case Patch(_, _, _, revisionId, _) => revisionId !in s.revisions
    case MoveChange(_, _, _, _, revisionId) => revisionId !in s.revisions
    case _ => true
  }

  // ---------------------------------------------------------------------
  // What every store satisfies
  // ---------------------------------------------------------------------

  /** Revisions are numbered 1..current, and the newest is the live content. */
  ghost predicate Frozen(s: Store, id: Uuid)
    requires id in s.reqs
  {
    && |RevisionsOf(s, id)| == s.reqs[id].currentRevision && RevisionsOf(s, id) != []
    && Consecutive(RevisionsOf(s, id))
    && RevisionsOf(s, id)[|RevisionsOf(s, id)| - 1].snapshot == s.reqs[id].content
    && ContentError(s.reqs[id].content).None?
  }

  ghost predicate Inv(s: Store) {
    Hierarchy(s.reqs) && DistinctNumbers(s.reqs) && (forall id {:trigger Frozen(s, id)} | id in s.reqs :: Frozen(s, id))
    && forall r {:trigger s.revisions[r]} | r in s.revisions :: s.revisions[r].requirement in s.reqs
  }

  /** What a command may do to a requirement it finds. */
  ghost predicate Evolves(s: Store, t: Store, id: Uuid)
    requires id in s.reqs
  {
    && id in t.reqs && t.reqs[id].project == s.reqs[id].project && t.reqs[id].content.kind == s.reqs[id].content.kind
    && t.reqs[id].businessNo == s.reqs[id].businessNo
    && RevisionsOf(s, id) <= RevisionsOf(t, id)
  }

  // No row of the revision table is changed or dropped.
  ghost predicate RowsKept(s: Store, t: Store) {
    forall r {:trigger t.revisions[r]} {:trigger r in s.revisions} | r in s.revisions ::
      r in t.revisions && t.revisions[r] == s.revisions[r]
  }

  // Every other requirement is untouched.
  ghost predicate SameElse(s: Store, t: Store, id: Uuid) {
    forall j {:trigger Frozen(t, j)} {:trigger t.reqs[j]} | j in t.reqs && j != id ::
      j in s.reqs && t.reqs[j] == s.reqs[j]
      && RevisionsOf(t, j) == RevisionsOf(s, j)
  }

  /** A change of one row that keeps its kind keeps the hierarchy, if the row's own parent is legal. */
  lemma RowKeepsHierarchy(reqs: map<Uuid, Requirement>, id: Uuid, q: Requirement)
    requires Hierarchy(reqs)
    requires id in reqs ==> reqs[id].project == q.project && reqs[id].content.kind == q.content.kind
    requires ParentOk(reqs[id := q], id)
    ensures Hierarchy(reqs[id := q])
  {
    var out := reqs[id := q];
    forall j | j in out
      ensures ParentOk(out, j)
    {
      if j != id {
        assert ParentOk(reqs, j);
      }
    }
  }

  /** What one more revision does to the table. */
  lemma RevisionAdded(s: Store, id: Uuid, r: Revision<Content>)
    requires Inv(s) && Consecutive(RevisionsOf(s, id)) && r.id !in s.revisions && r.revisionNo == |RevisionsOf(s, id)| + 1
    ensures var rows := Write(s.revisions, id, RevisionsOf(s, id) + [r]);
            && rows == s.revisions[r.id := RowOf(id, r)] && ReadBack(rows, id) == RevisionsOf(s, id) + [r]
            && forall j {:trigger ReadBack(rows, j)} | j in s.reqs && j != id :: ReadBack(rows, j) == RevisionsOf(s, j)
  {
    ReadBackNext(s.revisions, id, RevisionsOf(s, id), r);
    forall j | j in s.reqs && j != id
      ensures ReadBack(s.revisions[r.id := RowOf(id, r)], j) == RevisionsOf(s, j)
    {
      assert Frozen(s, j);
      ReadBackOther(s.revisions, id, r, j);
    }
  }

  // A requirement that is not stored has no revisions.
  lemma NoRevisions(s: Store, id: Uuid)
    requires Inv(s) && id !in s.reqs
    ensures RevisionsOf(s, id) == []
  {
    forall r | r in s.revisions
      ensures s.revisions[r].requirement != id
    {
    }
    ReadBackIs([], s.revisions, id);
  }

  // A row with new content, and the revision that freezes it.
  lemma FreezeKeepsInv(s: Store, id: Uuid, q: Requirement, r: Revision<Content>)
    requires Inv(s) && id in s.reqs && r.id !in s.revisions && r.snapshot == q.content
    requires q.project == s.reqs[id].project && q.content.kind == s.reqs[id].content.kind && ContentError(q.content).None?
    requires q.businessNo == s.reqs[id].businessNo
    requires q.currentRevision == s.reqs[id].currentRevision + 1 == r.revisionNo && ParentOk(s.reqs[id := q], id)
    ensures Keeps(s, s.(reqs := s.reqs[id := q], revisions := Write(s.revisions, id, RevisionsOf(s, id) + [r])))
  {
    var t := s.(reqs := s.reqs[id := q], revisions := Write(s.revisions, id, RevisionsOf(s, id) + [r]));
    assert Frozen(s, id);
    RowKeepsHierarchy(s.reqs, id, q);
    RowKeepsNumbers(s.reqs, id, q);
    RevisionAdded(s, id, r);
    ConsecutiveNext(RevisionsOf(s, id), r);
    assert RevisionsOf(t, id) == RevisionsOf(s, id) + [r];
    assert Frozen(t, id) && SameElse(s, t, id);
    RowsKeepInv(s, t, id);
  }

  lemma ApplyKeepsInv(s: Store, id: Uuid, ch: Changes, revisionId: Uuid)
    requires Inv(s) && id in s.reqs && revisionId !in s.revisions && ApplyFields(s, id, ch, revisionId).Ok?
    ensures var t := ApplyFields(s, id, ch, revisionId).value;
            && Keeps(s, t) && t.reqs.Keys == s.reqs.Keys
            && t.reqs[id].version == s.reqs[id].version + 1 && t.reqs[id].currentRevision == s.reqs[id].currentRevision + 1
  {
    var q := ApplyFields(s, id, ch, revisionId).value.reqs[id];
    assert ParentOk(s.reqs, id);
    FreezeKeepsInv(s, id, q, Revision(revisionId, s.reqs[id].currentRevision + 1, q.content));
  }

  // The content of a row stays, its lifecycle fields may change.
  lemma LifecycleKeepsInv(s: Store, id: Uuid, q: Requirement)
    requires Inv(s) && id in s.reqs
    requires q.project == s.reqs[id].project && q.content == s.reqs[id].content
             && q.currentRevision == s.reqs[id].currentRevision && q.businessNo == s.reqs[id].businessNo
    ensures Keeps(s, s.(reqs := s.reqs[id := q]))
  {
    var t := s.(reqs := s.reqs[id := q]);
    assert Frozen(s, id) && ParentOk(s.reqs, id);
    RowKeepsHierarchy(s.reqs, id, q);
    RowKeepsNumbers(s.reqs, id, q);
    RowsKeepInv(s, t, id);
  }

  lemma CreateKeepsInv(s: Store, c: Command)
    requires Inv(s) && c.Create? && Fresh(s, c) && Step(s, c).Ok?
    ensures Keeps(s, Step(s, c).value)
  {
    var q := Step(s, c).value.reqs[c.newId];
    FirstKeepsInv(s, c.newId, q, Revision(c.revisionId, 1, q.content));
  }

  // A new row, and the revision that freezes it.
  lemma FirstKeepsInv(s: Store, id: Uuid, q: Requirement, r: Revision<Content>)
    requires Inv(s) && id !in s.reqs && r.id !in s.revisions && r.snapshot == q.content
    requires q.content.parent.None? && ContentError(q.content).None? && !NumberTaken(s.reqs, q.project, q.businessNo)
    requires q.currentRevision == 1 == r.revisionNo
    ensures Keeps(s, s.(reqs := s.reqs[id := q], revisions := Write(s.revisions, id, [r])))
  {
    var t := s.(reqs := s.reqs[id := q], revisions := Write(s.revisions, id, [r]));
    RowKeepsHierarchy(s.reqs, id, q);
    RowKeepsNumbers(s.reqs, id, q);
    NoRevisions(s, id);
    RevisionAdded(s, id, r);
    assert RevisionsOf(s, id) + [r] == [r];
    assert Frozen(t, id) && SameElse(s, t, id);
    RowsKeepInv(s, t, id);
  }

  // The invariant holds, and every requirement found before has evolved.
  ghost predicate Keeps(s: Store, t: Store) {
    Inv(t) && RowsKept(s, t) && forall id {:trigger Evolves(s, t, id)} | id in s.reqs :: Evolves(s, t, id)
  }

  lemma ApplyKeeps(s: Store, id: Uuid, ch: Changes, revisionId: Uuid, changes: map<Uuid, ChangeRequest>)
    requires Inv(s) && id in s.reqs && revisionId !in s.revisions && ApplyFields(s, id, ch, revisionId).Ok?
    ensures Keeps(s, ApplyFields(s, id, ch, revisionId).value.(changes := changes))
  {
    ApplyKeepsInv(s, id, ch, revisionId);
    KeepsOtherChanges(s, ApplyFields(s, id, ch, revisionId).value, changes);
  }

  lemma KeepsOtherChanges(s: Store, t: Store, changes: map<Uuid, ChangeRequest>)
    requires Keeps(s, t)
    ensures Keeps(s, t.(changes := changes))
  {
    SameRows(t, t.(changes := changes));
    forall j | j in s.reqs
      ensures Evolves(s, t.(changes := changes), j)
    {
      assert Evolves(s, t, j);
    }
  }

  /** Every command keeps the revisions in step with the content, and the hierarchy legal. */
  lemma StepKeepsInv(s: Store, c: Command)
    requires Inv(s) && Fresh(s, c) && Step(s, c).Ok?
    ensures Keeps(s, Step(s, c).value)
  {
    var t := Step(s, c).value;
    match c
    case Create(_, _, _, _, _) => CreateKeepsInv(s, c);
    case Patch(_, id, changes, revisionId, _) =>
      if s.reqs[id].baselined {
        SameRows(s, t);
      } else {
        ApplyKeeps(s, id, changes, revisionId, s.changes);
      }
    case Move(_, id, _, _) => LifecycleKeepsInv(s, id, t.reqs[id]);
    case OpenChange(_, _, _, _, _) => SameRows(s, t);
    case MoveChange(_, id, changeId, action, revisionId) =>
      if action.Apply? {
        ApplyKeeps(s, id, s.changes[changeId].patch, revisionId, t.changes);
      } else {
        SameRows(s, t);
      }
    case Baseline(id) =>
      if id in s.reqs {
        LifecycleKeepsInv(s, id, t.reqs[id]);
      } else {
        SameRows(s, t);
      }
  }

  // Only the change requests differ.
  lemma SameRows(s: Store, t: Store)
    requires Inv(s) && t.reqs == s.reqs && t.revisions == s.revisions
    ensures Keeps(s, t)
  {
    forall id | id in t.reqs
      ensures Frozen(t, id) && Evolves(s, t, id)
    {
      assert Frozen(s, id);
    }
  }

  // Every row but one is as before, and that one is frozen as well.
  lemma RowsKeepInv(s: Store, t: Store, id: Uuid)
    requires Inv(s) && Hierarchy(t.reqs) && DistinctNumbers(t.reqs) && SameElse(s, t, id) && s.reqs.Keys <= t.reqs.Keys
    requires id in t.reqs ==> Frozen(t, id)
    requires id in s.reqs && id in t.reqs ==> Evolves(s, t, id)
    requires RowsKept(s, t) && forall r {:trigger t.revisions[r]} | r in t.revisions :: t.revisions[r].requirement in t.reqs
    ensures Keeps(s, t)
  {
    forall j | j in t.reqs
      ensures Frozen(t, j)
    {
      if j != id {
        assert Frozen(s, j);
      }
    }
    forall j | j in s.reqs
      ensures Evolves(s, t, j)
    {
      assert Frozen(s, j);
      if j != id {
        assert t.reqs[j] == s.reqs[j];
      }
    }
  }

  // ---------------------------------------------------------------------
  // What each command does
  // ---------------------------------------------------------------------

  // The fixed hierarchy, as pairs.
  predicate MayBeUnder(child: Kind, parent: Kind) {
    || (child == Feature && parent == Epic)
    || (child == UserStory && parent == Feature)
    || ((child == Fr || child == Nfr || child == Ac) && parent == UserStory)
  }

  /** The parent that a patch asks for, if it asks for one, is one that the requirement may have. */
  predicate ParentLegal(s: Store, id: Uuid, ch: Changes)
    requires id in s.reqs
  {
    ch.parent.Some? ==>
      if ch.parent.value.None? then s.reqs[id].content.kind == Epic
      else
        var p := ch.parent.value.value;
        p in s.reqs && s.reqs[p].project == s.reqs[id].project && MayBeUnder(s.reqs[id].content.kind, s.reqs[p].content.kind)
  }

  predicate ContentLegal(c: Content) {
    1 <= |c.title| <= 200 && |c.description| <= 20_000 && !c.priority.OtherPriority? && |c.criteria| <= 100
  }

  /** Each governed field has the value that the patch gives, or keeps its own; the kind stays. */
  predicate Written(before: Content, ch: Changes, now: Content) {
    && now.title == (if ch.title.Some? then ch.title.value else before.title)
    && now.description == (if ch.description.Some? then ch.description.value else before.description)
    && now.priority == (if ch.priority.Some? then ch.priority.value else before.priority)
    && now.owner == (if ch.owner.Some? then ch.owner.value else before.owner)
    && now.release == (if ch.release.Some? then ch.release.value else before.release)
    && now.criteria == (if ch.criteria.Some? then ch.criteria.value else before.criteria)
    && now.parent == (if ch.parent.Some? then ch.parent.value else before.parent)
    && now.kind == before.kind
  }

  // Nothing but this requirement's row and revisions.
  ghost predicate OnlyRow(s: Store, t: Store, id: Uuid) {
    && t.reqs.Keys == s.reqs.Keys
    && forall j {:trigger t.reqs[j]} | j in s.reqs && j != id :: t.reqs[j] == s.reqs[j] && RevisionsOf(t, j) == RevisionsOf(s, j)
  }

  /** The patch was written, and the content frozen as exactly one more revision. */
  ghost predicate Revised(s: Store, t: Store, id: Uuid, ch: Changes, revisionId: Uuid)
    requires id in s.reqs
  {
    && OnlyRow(s, t, id) && Written(s.reqs[id].content, ch, t.reqs[id].content) && ContentLegal(t.reqs[id].content)
    && t.reqs[id] == s.reqs[id].(content := t.reqs[id].content, version := s.reqs[id].version + 1,
                                 currentRevision := s.reqs[id].currentRevision + 1)
    && RevisionsOf(t, id) == RevisionsOf(s, id) + [Revision(revisionId, t.reqs[id].currentRevision, t.reqs[id].content)]
  }

  // Some content with this patch written is within the rules.
  predicate PatchLegal(s: Store, id: Uuid, ch: Changes)
    requires id in s.reqs
  {
    && ParentLegal(s, id, ch)
    && (ch.title.Some? ==> 1 <= |ch.title.value| <= 200) && (ch.description.Some? ==> |ch.description.value| <= 20_000)
    && (ch.priority.Some? ==> !ch.priority.value.OtherPriority?) && (ch.criteria.Some? ==> |ch.criteria.value| <= 100)
  }

  // A patch with something in it, and nothing but governed fields that are stored.
  predicate PatchGoverned(ch: Changes) {
    && !ch.unknown && !ch.unpersisted
    && (ch.title.Some? || ch.description.Some? || ch.priority.Some? || ch.owner.Some? || ch.release.Some?
        || ch.criteria.Some? || ch.parent.Some?)
  }

  /** The parent is accepted exactly if the hierarchy allows it, and then it is the one asked for. */
  lemma SetParentIff(s: Store, id: Uuid, raw: Option<Uuid>, ch: Changes)
    requires Hierarchy(s.reqs) && id in s.reqs && ch.parent == Some(raw)
    ensures var r := SetParent(s.reqs, s.reqs[id].project, id, s.reqs[id].content.kind, raw);
            (r.Ok? <==> ParentLegal(s, id, ch)) && (r.Ok? ==> r.value == raw)
  {
    CycleCheckIsDead(s.reqs, s.reqs[id].project, id, raw);
  }

  lemma AmendWrites(c: Content, ch: Changes, parent: Option<Uuid>)
    requires ContentLegal(c) && parent == if ch.parent.Some? then ch.parent.value else c.parent
    ensures Written(c, ch, Amend(c, ch, parent))
    ensures ContentError(Amend(c, ch, parent)).None? <==> ContentLegal(Amend(c, ch, parent))
    ensures ContentLegal(Amend(c, ch, parent)) <==>
            && (ch.title.Some? ==> 1 <= |ch.title.value| <= 200) && (ch.description.Some? ==> |ch.description.value| <= 20_000)
            && (ch.priority.Some? ==> !ch.priority.value.OtherPriority?) && (ch.criteria.Some? ==> |ch.criteria.value| <= 100)
  {
  }

  // The parent that a patch leaves.
  ghost function ParentAfter(s: Store, id: Uuid, ch: Changes): Result<Option<Uuid>>
    requires id in s.reqs
  {
    if ch.parent.Some? then SetParent(s.reqs, s.reqs[id].project, id, s.reqs[id].content.kind, ch.parent.value)
    else Ok(s.reqs[id].content.parent)
  }

  lemma ParentAfterIff(s: Store, id: Uuid, ch: Changes)
    requires Hierarchy(s.reqs) && id in s.reqs
    ensures ParentAfter(s, id, ch).Ok? <==> ParentLegal(s, id, ch)
    ensures ParentAfter(s, id, ch).Ok? ==>
              ParentAfter(s, id, ch).value == if ch.parent.Some? then ch.parent.value else s.reqs[id].content.parent
  {
    if ch.parent.Some? {
      SetParentIff(s, id, ch.parent.value, ch);
    }
  }

  lemma WriteAllowed(s: Store, id: Uuid, ch: Changes, revisionId: Uuid)
    requires Hierarchy(s.reqs) && id in s.reqs && ContentError(s.reqs[id].content).None?
    ensures ApplyFields(s, id, ch, revisionId).Ok? <==> PatchLegal(s, id, ch)
  {
    ParentAfterIff(s, id, ch);
    if ParentAfter(s, id, ch).Ok? {
      AmendWrites(s.reqs[id].content, ch, ParentAfter(s, id, ch).value);
    }
  }

  // What an accepted write stores.
  ghost function WrittenStore(s: Store, id: Uuid, c: Content, revisionId: Uuid): Store
    requires id in s.reqs
  {
    var q := s.reqs[id].(content := c, version := s.reqs[id].version + 1, currentRevision := s.reqs[id].currentRevision + 1);
    s.(reqs := s.reqs[id := q],
       revisions := Write(s.revisions, id, RevisionsOf(s, id) + [Revision(revisionId, q.currentRevision, c)]))
  }

  lemma WriteGives(s: Store, id: Uuid, ch: Changes, revisionId: Uuid) returns (c: Content)
    requires Hierarchy(s.reqs) && id in s.reqs && ContentError(s.reqs[id].content).None?
    requires ApplyFields(s, id, ch, revisionId).Ok?
    ensures Written(s.reqs[id].content, ch, c) && ContentLegal(c)
    ensures ApplyFields(s, id, ch, revisionId).value == WrittenStore(s, id, c, revisionId)
  {
    ParentAfterIff(s, id, ch);
    c := Amend(s.reqs[id].content, ch, ParentAfter(s, id, ch).value);
    AmendWrites(s.reqs[id].content, ch, ParentAfter(s, id, ch).value);
  }

  lemma WriteIff(s: Store, id: Uuid, ch: Changes, revisionId: Uuid)
    requires Inv(s) && id in s.reqs && revisionId !in s.revisions
    ensures ApplyFields(s, id, ch, revisionId).Ok? <==> PatchLegal(s, id, ch)
    ensures ApplyFields(s, id, ch, revisionId).Ok? ==>
              Revised(s, ApplyFields(s, id, ch, revisionId).value, id, ch, revisionId)
              && ApplyFields(s, id, ch, revisionId).value.changes == s.changes
  {
    assert Frozen(s, id);
    WriteAllowed(s, id, ch, revisionId);
    if ApplyFields(s, id, ch, revisionId).Ok? {
      var c := WriteGives(s, id, ch, revisionId);
      RevisedBy(s, id, ch, c, revisionId);
    }
  }

  lemma RevisedBy(s: Store, id: Uuid, ch: Changes, c: Content, revisionId: Uuid)
    requires Inv(s) && id in s.reqs && revisionId !in s.revisions && Written(s.reqs[id].content, ch, c) && ContentLegal(c)
    ensures Revised(s, WrittenStore(s, id, c, revisionId), id, ch, revisionId)
  {
    WritesOneRow(s, id, c, revisionId);
    WritesOneRevision(s, id, c, revisionId);
  }

  lemma WritesOneRevision(s: Store, id: Uuid, c: Content, revisionId: Uuid)
    requires Inv(s) && id in s.reqs && revisionId !in s.revisions
    ensures RevisionsOf(WrittenStore(s, id, c, revisionId), id)
            == RevisionsOf(s, id) + [Revision(revisionId, s.reqs[id].currentRevision + 1, c)]
  {
    assert Frozen(s, id);
    RevisionAdded(s, id, Revision(revisionId, s.reqs[id].currentRevision + 1, c));
  }

  lemma WritesOneRow(s: Store, id: Uuid, c: Content, revisionId: Uuid)
    requires Inv(s) && id in s.reqs && revisionId !in s.revisions
    ensures OnlyRow(s, WrittenStore(s, id, c, revisionId), id)
  {
    assert Frozen(s, id);
    var t := WrittenStore(s, id, c, revisionId);
    RevisionAdded(s, id, Revision(revisionId, s.reqs[id].currentRevision + 1, c));
    forall j | j in s.reqs && j != id
      ensures t.reqs[j] == s.reqs[j] && RevisionsOf(t, j) == RevisionsOf(s, j)
    {
      assert ReadBack(t.revisions, j) == RevisionsOf(s, j);
    }
  }

  /**
   A patch: written in place and frozen, or, once the requirement is baselined, turned into a draft change request
   against the newest revision that leaves every requirement as it is.
   */
  lemma PatchIff(s: Store, c: Command)
    requires Inv(s) && c.Patch? && Fresh(s, c)
    ensures var visible := c.id in s.reqs && s.reqs[c.id].project == c.project;
            Step(s, c).Ok? <==> visible && PatchGoverned(c.changes) && (s.reqs[c.id].baselined || PatchLegal(s, c.id, c.changes))
    ensures Step(s, c).Ok? ==>
              var t, revisions := Step(s, c).value, RevisionsOf(s, c.id);
              if s.reqs[c.id].baselined then
                revisions != []
                && t == s.(changes := s.changes[c.changeId :=
                     ChangeRequest(c.project, c.id, revisions[|revisions| - 1].id, c.changes, ChangeDraft, 1)])
              else Revised(s, t, c.id, c.changes, c.revisionId) && t.changes == s.changes
  {
    if Visible(s, c.project, c.id) {
      assert Frozen(s, c.id);
      LatestIsLast(RevisionsOf(s, c.id));
      WriteIff(s, c.id, c.changes, c.revisionId);
    }
  }

  // The change request's own state machine, as triples.
  predicate ChangeMoves(from: ChangeStatus, a: ChangeAction, to: ChangeStatus) {
    || (from == ChangeDraft && a == Submit && to == ChangeInReview)
    || (from == ChangeDraft && a == Cancel && to == ChangeCanceled)
    || (from == ChangeInReview && a == Approve && to == ChangeApproved)
    || (from == ChangeInReview && a == Reject && to == ChangeRejected)
    || (from == ChangeInReview && a == Cancel && to == ChangeCanceled)
    || (from == ChangeApproved && a == Apply && to == ChangeApplied)
  }

  // The request is one of this requirement.
  predicate Requested(s: Store, c: Command)
    requires c.MoveChange?
  {
    && c.id in s.reqs && s.reqs[c.id].project == c.project
    && c.changeId in s.changes && s.changes[c.changeId].project == c.project && s.changes[c.changeId].requirement == c.id
  }

  /** Applying a change request: only an approved one, whatever its base; its patch is written and frozen. */
  lemma ApplyIff(s: Store, c: Command)
    requires Inv(s) && c.MoveChange? && c.changeAction.Apply? && Fresh(s, c)
    ensures Step(s, c).Ok? <==>
            && Requested(s, c) && s.changes[c.changeId].status == ChangeApproved
            && PatchGoverned(s.changes[c.changeId].patch) && PatchLegal(s, c.id, s.changes[c.changeId].patch)
    ensures Step(s, c).Ok? ==> Applied(s, c, Step(s, c).value)
  {
    ApplyAllowed(s, c);
    if Step(s, c).Ok? {
      ApplyGives(s, c);
    }
  }

  lemma ApplyAllowed(s: Store, c: Command)
    requires Inv(s) && c.MoveChange? && c.changeAction.Apply?
    ensures Step(s, c).Ok? <==>
            && Requested(s, c) && s.changes[c.changeId].status == ChangeApproved
            && PatchGoverned(s.changes[c.changeId].patch) && PatchLegal(s, c.id, s.changes[c.changeId].patch)
  {
    if Requested(s, c) {
      assert Frozen(s, c.id);
      WriteAllowed(s, c.id, s.changes[c.changeId].patch, c.revisionId);
    }
  }

  // The patch is written and the request is done.
  ghost predicate Applied(s: Store, c: Command, t: Store)
    requires c.MoveChange?
  {
    && Requested(s, c)
    && var change := s.changes[c.changeId];
       Revised(s, t, c.id, change.patch, c.revisionId)
       && t.changes == s.changes[c.changeId := change.(status := ChangeApplied, version := change.version + 1)]
  }

  lemma ApplyGives(s: Store, c: Command)
    requires Inv(s) && c.MoveChange? && c.changeAction.Apply? && Fresh(s, c) && Step(s, c).Ok?
    ensures Applied(s, c, Step(s, c).value)
  {
    var change := s.changes[c.changeId];
    WriteIff(s, c.id, change.patch, c.revisionId);
    var t := ApplyFields(s, c.id, change.patch, c.revisionId).value;
    RevisedAnyway(s, t, c.id, change.patch, c.revisionId, Step(s, c).value.changes);
    assert Step(s, c).value == t.(changes := Step(s, c).value.changes);
  }

  lemma RevisedAnyway(s: Store, t: Store, id: Uuid, ch: Changes, revisionId: Uuid, changes: map<Uuid, ChangeRequest>)
    requires id in s.reqs && Revised(s, t, id, ch, revisionId)
    ensures Revised(s, t.(changes := changes), id, ch, revisionId)
  {
    var u := t.(changes := changes);
    assert forall j {:trigger RevisionsOf(u, j)} :: RevisionsOf(u, j) == RevisionsOf(t, j);
    assert forall j {:trigger u.reqs[j]} | j in s.reqs :: u.reqs[j] == t.reqs[j];
  }

  /** Every other change action moves the request alone. */
  lemma MoveChangeIff(s: Store, c: Command)
    requires Inv(s) && c.MoveChange? && !c.changeAction.Apply?
    ensures Step(s, c).Ok? <==> Requested(s, c) && exists to :: ChangeMoves(s.changes[c.changeId].status, c.changeAction, to)
    ensures Step(s, c).Ok? ==>
              var t, change := Step(s, c).value, s.changes[c.changeId];
              && c.changeId in t.changes && ChangeMoves(change.status, c.changeAction, t.changes[c.changeId].status)
              && t == s.(changes := s.changes[c.changeId :=
                   change.(status := t.changes[c.changeId].status, version := change.version + 1)])
  {
    if Requested(s, c) && NextChange(s.changes[c.changeId].status, c.changeAction).Some? {
      assert ChangeMoves(s.changes[c.changeId].status, c.changeAction,
                         NextChange(s.changes[c.changeId].status, c.changeAction).value);
    }
  }

  // The lifecycle, with the evidence each action needs.
  predicate Moves(q: Requirement, a: Action, e: Evidence, to: Status) {
    || (q.status in {Draft, Rejected} && a == SubmitReview && to == InReview && (q.content.kind == Epic || q.content.criteria != []))
    || (q.status == InReview && a == ApproveIt && to == Approved && e.approvedReview)
    || (q.status == InReview && a == RejectIt && to == Rejected)
    || (q.status == Rejected && a == ReturnToDraft && to == Draft)
    || (q.status == Approved && a == Activate && to == Active && e.baselined)
    || (q.status == Active && a == Complete && to == Completed && e.completion)
    || (q.status == Active && a == CancelIt && to == Canceled)
    || (q.status == Completed && a == Reopen && to == Active && e.privileged && !Blank(e.reason))
  }

  /** A lifecycle action moves status and version alone, and only as the lifecycle and the evidence allow. */
  lemma MoveIff(s: Store, c: Command)
    requires Inv(s) && c.Move?
    ensures var visible := c.id in s.reqs && s.reqs[c.id].project == c.project;
            Step(s, c).Ok? <==> visible && exists to :: Moves(s.reqs[c.id], c.action, c.evidence, to)
    ensures Step(s, c).Ok? ==>
              var t, q := Step(s, c).value, s.reqs[c.id];
              && c.id in t.reqs && Moves(q, c.action, c.evidence, t.reqs[c.id].status)
              && t == s.(reqs := s.reqs[c.id := q.(status := t.reqs[c.id].status, version := q.version + 1)])
  {
    if Visible(s, c.project, c.id) && NextStatus(s.reqs[c.id], c.action, c.evidence).Ok? {
      assert Moves(s.reqs[c.id], c.action, c.evidence, NextStatus(s.reqs[c.id], c.action, c.evidence).value);
    }
  }

  /** A new requirement: a draft without a parent, with its content as the first revision. */
  lemma CreateIff(s: Store, c: Command)
    requires Inv(s) && c.Create? && Fresh(s, c)
    ensures Step(s, c).Ok? <==>
            && ContentLegal(c.content) && |c.businessNo| <= 64
            && forall id | id in s.reqs :: s.reqs[id].project != c.project || s.reqs[id].businessNo != c.businessNo
    ensures Step(s, c).Ok? ==>
              var t, first := Step(s, c).value, c.content.(parent := None);
              && t.reqs == s.reqs[c.newId := Requirement(c.project, c.businessNo, first, Draft, 1, 1, false)]
              && t.changes == s.changes && RevisionsOf(t, c.newId) == [Revision(c.revisionId, 1, first)]
              && forall j {:trigger RevisionsOf(t, j)} | j in s.reqs :: RevisionsOf(t, j) == RevisionsOf(s, j)
  {
    assert NumberTaken(s.reqs, c.project, c.businessNo) <==>
           exists id :: id in s.reqs && HasNumber(s.reqs[id], c.project, c.businessNo);
    if Step(s, c).Ok? {
      var r := Revision(c.revisionId, 1, c.content.(parent := None));
      NoRevisions(s, c.newId);
      RevisionAdded(s, c.newId, r);
      assert RevisionsOf(s, c.newId) + [r] == [r];
    }
  }

  /** Setting a baseline marks the requirement and changes nothing else. */
  lemma BaselineEffect(s: Store, id: Uuid)
    requires id in s.reqs
    ensures var q := s.reqs[id];
            Step(s, Baseline(id)) == Ok(s.(reqs := s.reqs[id :=
              Requirement(q.project, q.businessNo, q.content, q.status, q.currentRevision, q.version, true)]))
  {
  }

  // Why a patch or a change request is refused before anything is looked at.
  predicate PatchRefusal(ch: Changes, code: string) {
    code == if ch.unknown then "INVALID_CHANGE_PATCH" else if ch.unpersisted then "UNSUPPORTED_PATCH_FIELD" else "EMPTY_PATCH"
  }

  /** A refusal of a patch or of a change request says why. */
  lemma PatchRefusalSaysWhy(s: Store, c: Command)
    requires (c.Patch? || c.OpenChange?) && Step(s, c).Err?
    ensures if !(c.id in s.reqs && s.reqs[c.id].project == c.project) then Step(s, c).code == "RESOURCE_NOT_FOUND"
            else !PatchGoverned(c.changes) ==> PatchRefusal(c.changes, Step(s, c).code)
  {
  }

  /** A refused change action says whether the request, its state, its patch or the requirement is what is wrong. */
  lemma ChangeRefusalSaysWhy(s: Store, c: Command)
    requires c.MoveChange? && Step(s, c).Err?
    ensures var code := Step(s, c).code;
            if !Requested(s, c) then code == "RESOURCE_NOT_FOUND"
            else if c.changeAction == Apply && !PatchGoverned(s.changes[c.changeId].patch) then
              PatchRefusal(s.changes[c.changeId].patch, code)
            else if c.changeAction != Apply || s.changes[c.changeId].status != ChangeApproved then
              code == "INVALID_STATE_TRANSITION"
            else ApplyFields(s, c.id, s.changes[c.changeId].patch, c.revisionId) == Err(code)
  {
  }

  /** A refused move says whether the requirement, its acceptance criteria or the action is what is wrong. */
  lemma MoveRefusalSaysWhy(s: Store, c: Command)
    requires c.Move? && Step(s, c).Err?
    ensures Step(s, c).code ==
            if !(c.id in s.reqs && s.reqs[c.id].project == c.project) then "RESOURCE_NOT_FOUND"
            else if c.action == SubmitReview && s.reqs[c.id].status in {Draft, Rejected} then "AC_REQUIRED"
            else "INVALID_STATE_TRANSITION"
  {
  }

  /** A refused write says which rule its content or its parent breaks. */
  lemma WriteRefusalSaysWhy(s: Store, id: Uuid, ch: Changes, revisionId: Uuid)
    requires Hierarchy(s.reqs) && id in s.reqs && ContentError(s.reqs[id].content).None?
    requires ApplyFields(s, id, ch, revisionId).Err?
    ensures var code := ApplyFields(s, id, ch, revisionId).code;
            if !ParentLegal(s, id, ch) then
              code == if ch.parent.value.None? then "PARENT_REQUIRED"
                      else if !(ch.parent.value.value in s.reqs
                                && s.reqs[ch.parent.value.value].project == s.reqs[id].project) then "RESOURCE_NOT_FOUND"
                      else "INVALID_REQUIREMENT_HIERARCHY"
            else if (ch.title.Some? && !(1 <= |ch.title.value| <= 200)) || (ch.description.Some? && |ch.description.value| > 20_000)
            then code == "INVALID_REQUIREMENT"
            else if ch.priority.Some? && ch.priority.value.OtherPriority? then code == "INVALID_PRIORITY"
            else code == "INVALID_ACCEPTANCE_CRITERIA"
  {
    ParentAfterIff(s, id, ch);
    if ch.parent.Some? {
      CycleCheckIsDead(s.reqs, s.reqs[id].project, id, ch.parent.value);
    }
  }

  /** A change request is opened against any revision of the requirement, as a draft. */
  lemma OpenChangeIff(s: Store, c: Command)
    requires Inv(s) && c.OpenChange?
    ensures Step(s, c).Ok? <==> c.id in s.reqs && s.reqs[c.id].project == c.project && PatchGoverned(c.changes)
                                && exists r :: r in RevisionsOf(s, c.id) && r.id == c.base
    ensures Step(s, c).Ok? ==>
              Step(s, c).value == s.(changes := s.changes[c.changeId :=
                ChangeRequest(c.project, c.id, c.base, c.changes, ChangeDraft, 1)])
  {
  }

  // ---------------------------------------------------------------------
  // Runs
  // ---------------------------------------------------------------------

  const EMPTY := Store(map[], map[], map[])

  /** The store after n commands; a refused command stores nothing. */
  ghost function After(cs: seq<Command>, n: nat): Store
    requires n <= |cs|
    decreases n
  {
    if n == 0 then EMPTY
    else
      var s := After(cs, n - 1);
      if Step(s, cs[n - 1]).Ok? then Step(s, cs[n - 1]).value else s
  }

  ghost predicate FreshRun(cs: seq<Command>) {
    forall i: nat {:trigger After(cs, i)} | i < |cs| :: Fresh(After(cs, i), cs[i])
  }

  /** How many of the first n commands were accepted lifecycle actions on the requirement. */
  ghost function Transitions(cs: seq<Command>, n: nat, id: Uuid): nat
    requires n <= |cs|
    decreases n
  {
    if n == 0 then 0
    else
      Transitions(cs, n - 1, id)
      + if cs[n - 1].Move? && cs[n - 1].id == id && Step(After(cs, n - 1), cs[n - 1]).Ok? then 1 else 0
  }

  /** The invariant holds after every command of every run. */
  lemma {:induction false} RunKeepsInv(cs: seq<Command>, n: nat)
    requires FreshRun(cs) && n <= |cs|
    ensures Inv(After(cs, n))
    decreases n
  {
    if n > 0 {
      RunKeepsInv(cs, n - 1);
      var s := After(cs, n - 1);
      if Step(s, cs[n - 1]).Ok? {
        assert Fresh(s, cs[n - 1]);
        StepKeepsInv(s, cs[n - 1]);
      }
    }
  }

  // What one command does to the counters of a requirement.
  lemma StepCounts(s: Store, c: Command, id: Uuid)
    requires Inv(s) && Fresh(s, c) && Step(s, c).Ok? && id in Step(s, c).value.reqs
    ensures var q := Step(s, c).value.reqs[id];
            var moved := if c.Move? && c.id == id then 1 else 0;
            if id in s.reqs then
              q.version - q.currentRevision == s.reqs[id].version - s.reqs[id].currentRevision + moved
            else q.version == q.currentRevision && moved == 0
  {
  }

  lemma {:induction false} NoTransitionsBefore(cs: seq<Command>, n: nat, id: Uuid)
    requires FreshRun(cs) && n <= |cs| && id !in After(cs, n).reqs
    ensures Transitions(cs, n, id) == 0
    decreases n
  {
    if n > 0 {
      var s := After(cs, n - 1);
      RunKeepsInv(cs, n - 1);
      if Step(s, cs[n - 1]).Ok? {
        assert Fresh(s, cs[n - 1]);
        StepKeepsInv(s, cs[n - 1]);
        assert id in s.reqs ==> Evolves(s, Step(s, cs[n - 1]).value, id);
      }
      NoTransitionsBefore(cs, n - 1, id);
    }
  }

  /** version - current_revision is the number of lifecycle actions, in every reachable store. */
  lemma {:induction false} VersionCountsTransitions(cs: seq<Command>, n: nat, id: Uuid)
    requires FreshRun(cs) && n <= |cs| && id in After(cs, n).reqs
    ensures After(cs, n).reqs[id].version == After(cs, n).reqs[id].currentRevision + Transitions(cs, n, id)
    decreases n
  {
    if n > 0 {
      if id in After(cs, n - 1).reqs {
        VersionCountsTransitions(cs, n - 1, id);
      } else {
        NoTransitionsBefore(cs, n - 1, id);
      }
      CountsNext(cs, n - 1, id);
    }
  }

  // What the n-th command of a run does to the counters.
  lemma CountsNext(cs: seq<Command>, n: nat, id: Uuid)
    requires FreshRun(cs) && n < |cs| && id in After(cs, n + 1).reqs
    ensures var s, t := After(cs, n), After(cs, n + 1);
            var moved := Transitions(cs, n + 1, id) - Transitions(cs, n, id);
            if id in s.reqs then
              t.reqs[id].version - t.reqs[id].currentRevision == s.reqs[id].version - s.reqs[id].currentRevision + moved
            else t.reqs[id].version == t.reqs[id].currentRevision && moved == 0
  {
    var s := After(cs, n);
    RunKeepsInv(cs, n);
    if Step(s, cs[n]).Ok? {
      assert Fresh(s, cs[n]);
      StepCounts(s, cs[n], id);
    }
  }

  /** Revisions are never changed or dropped: those of an earlier moment come first, in place. */
  lemma {:induction false} RevisionsAreImmutable(cs: seq<Command>, m: nat, n: nat, id: Uuid)
    requires FreshRun(cs) && m <= n <= |cs| && id in After(cs, m).reqs
    ensures id in After(cs, n).reqs && RevisionsOf(After(cs, m), id) <= RevisionsOf(After(cs, n), id)
    ensures After(cs, m).reqs[id].content.kind == After(cs, n).reqs[id].content.kind
    decreases n - m
  {
    RunKeepsInv(cs, m);
    assert Frozen(After(cs, m), id);
    if m < n {
      RevisionsAreImmutable(cs, m, n - 1, id);
      var s := After(cs, n - 1);
      RunKeepsInv(cs, n - 1);
      if Step(s, cs[n - 1]).Ok? {
        assert Fresh(s, cs[n - 1]);
        StepKeepsInv(s, cs[n - 1]);
        assert Evolves(s, Step(s, cs[n - 1]).value, id);
      }
    }
  }

  /** The command applies an approved change request to the requirement. */
  ghost predicate Applies(s: Store, c: Command, id: Uuid) {
    && c.MoveChange? && c.changeAction.Apply? && c.id == id && Step(s, c).Ok?
    && c.changeId in s.changes && s.changes[c.changeId].status == ChangeApproved && s.changes[c.changeId].requirement == id
  }

  lemma StepProtects(s: Store, c: Command, id: Uuid)
    requires Inv(s) && Fresh(s, c) && Step(s, c).Ok? && id in s.reqs && s.reqs[id].baselined && !Applies(s, c, id)
    ensures var t := Step(s, c).value;
            id in t.reqs && t.reqs[id].baselined && t.reqs[id].content == s.reqs[id].content
            && RevisionsOf(t, id) == RevisionsOf(s, id)
  {
    match c
    case Create(_, _, _, _, _) => CreateIff(s, c);
    case Patch(_, _, _, _, _) => PatchIff(s, c);
    case Move(_, _, _, _) => MoveIff(s, c);
    case OpenChange(_, _, _, _, _) => OpenChangeIff(s, c);
    case MoveChange(_, _, _, action, _) =>
      if action.Apply? {
        ApplyIff(s, c);
      } else {
        MoveChangeIff(s, c);
      }
    case Baseline(_) =>
  }

  /**
   Over every run a baselined requirement stays baselined, and its content and its revisions stay as they are until
   an approved change request is applied to it.
   */
  lemma {:induction false} BaselinedIsProtected(cs: seq<Command>, m: nat, n: nat, id: Uuid)
    requires FreshRun(cs) && m <= n <= |cs| && id in After(cs, m).reqs && After(cs, m).reqs[id].baselined
    requires forall i: nat {:trigger After(cs, i)} | m <= i < n :: !Applies(After(cs, i), cs[i], id)
    ensures id in After(cs, n).reqs && After(cs, n).reqs[id].baselined
    ensures After(cs, n).reqs[id].content == After(cs, m).reqs[id].content
    ensures RevisionsOf(After(cs, n), id) == RevisionsOf(After(cs, m), id)
    decreases n - m
  {
    if m < n {
      BaselinedIsProtected(cs, m, n - 1, id);
      RunKeepsInv(cs, n - 1);
      var s := After(cs, n - 1);
      assert Fresh(s, cs[n - 1]) && !Applies(s, cs[n - 1], id);
      if Step(s, cs[n - 1]).Ok? {
        StepProtects(s, cs[n - 1], id);
      }
    }
  }

  /** And so are the rows they are read from: whatever is written later, a row stays as it was inserted. */
  lemma {:induction false} RowsAreImmutable(cs: seq<Command>, m: nat, n: nat)
    requires FreshRun(cs) && m <= n <= |cs|
    ensures RowsKept(After(cs, m), After(cs, n))
    decreases n - m
  {
    if m < n {
      RowsAreImmutable(cs, m, n - 1);
      RunKeepsInv(cs, n - 1);
      if Step(After(cs, n - 1), cs[n - 1]).Ok? {
        assert Fresh(After(cs, n - 1), cs[n - 1]);
        StepKeepsInv(After(cs, n - 1), cs[n - 1]);
      }
    }
  }

  /** What every reachable store says of a requirement. */
  lemma ReachableRequirement(cs: seq<Command>, n: nat, id: Uuid)
    requires FreshRun(cs) && n <= |cs| && id in After(cs, n).reqs
    ensures var s := After(cs, n);
            && Frozen(s, id) && ParentOk(s.reqs, id)
            && (forall other {:trigger s.reqs[other]} | other in s.reqs && other != id ::
                  !HasNumber(s.reqs[other], s.reqs[id].project, s.reqs[id].businessNo))
            && LatestRevision(RevisionsOf(s, id)) == RevisionsOf(s, id)[|RevisionsOf(s, id)| - 1]
            && Up(Parents(s.reqs, s.reqs[id].project), id, 4).None?
            && forall raw :: SetParent(s.reqs, s.reqs[id].project, id, s.reqs[id].content.kind, raw) != Err("REQUIREMENT_CYCLE")
  {
    RunKeepsInv(cs, n);
    var s := After(cs, n);
    assert Frozen(s, id) && ParentOk(s.reqs, id);
    LatestIsLast(RevisionsOf(s, id));
    AtMostThreeAncestors(s.reqs, s.reqs[id].project, id);
    forall raw
      ensures SetParent(s.reqs, s.reqs[id].project, id, s.reqs[id].content.kind, raw) != Err("REQUIREMENT_CYCLE")
    {
      CycleCheckIsDead(s.reqs, s.reqs[id].project, id, raw);
    }
  }

  /** The highest-numbered revision is the last one. */
  lemma {:induction false} LatestIsLast(rs: seq<Revision<Content>>)
    requires rs != [] && Consecutive(rs)
    ensures LatestRevision(rs) == rs[|rs| - 1]
  {
    var init := rs[..|rs| - 1];
    if init != [] {
      LatestIsLast(init);
    }
  }

  // Once the walk is at a root, an ancestor is at most k steps up.
  lemma AncestorWithin(p: map<Uuid, Uuid>, id: Uuid, k: nat, a: Uuid)
    requires Up(p, id, k).Some? && Up(p, id, k).value !in p && IsAncestor(p, a, id)
    ensures a in p.Values && exists j: nat :: 0 < j <= k && Up(p, id, j) == Some(a)
  {
    var j: nat :| j > 0 && Up(p, id, j) == Some(a);
    UpSucc(p, id, k);
    if j > k {
      UpPrefix(p, id, k + 1, j);
    }
    UpSucc(p, id, j - 1);
  }

  lemma WalkedAll(reqs: map<Uuid, Requirement>, project: Uuid, id: Uuid, k: nat, seen: set<Uuid>)
    requires Up(Parents(reqs, project), id, k).Some? && Up(Parents(reqs, project), id, k).value !in Parents(reqs, project)
    requires forall a :: a in seen <==> exists j: nat :: 0 < j <= k && Up(Parents(reqs, project), id, j) == Some(a)
    ensures seen == AncestorSet(reqs, project, id)
  {
    var p := Parents(reqs, project);
    forall a
      ensures a in seen <==> IsAncestor(p, a, id)
      ensures a in seen ==> a in p.Values
    {
      if IsAncestor(p, a, id) {
        AncestorWithin(p, id, k, a);
      }
    }
  }

  // ---------------------------------------------------------------------
  // The aggregate and the service
  // ---------------------------------------------------------------------

  /** A requirement loaded from its row: a private copy that the service changes in place. */
  class LoadedRequirement {
    const id: Uuid
    const projectId: Uuid
    const businessNo: string
    var content: Content
    var status: Status
    var currentRevision: nat
    var version: nat
    var baselined: bool

    function View(): Requirement
      reads this
    {
      Requirement(projectId, businessNo, content, status, currentRevision, version, baselined)
    }

    constructor (id: Uuid, q: Requirement)
      ensures this.id == id && View() == q
    {
      this.id, projectId, businessNo := id, q.project, q.businessNo;
      content, status, currentRevision, version, baselined := q.content, q.status, q.currentRevision, q.version, q.baselined;
    }

    /** Set a legal parent of the same project. */
    method DoSetParent(parent: Option<(Uuid, Requirement)>, ancestors: set<Uuid>) returns (r: Result<nat>)
      modifies this`content
      ensures r.Err? ==> content == old(content)
      ensures r.Ok? ==> content == old(content).(parent := if parent.Some? then Some(parent.value.0) else None)
      ensures r.Ok? <==> if parent.None? then AllowedParent(content.kind).None?
                         else AllowedParent(content.kind) == Some(parent.value.1.content.kind)
                              && parent.value.1.project == projectId && parent.value.0 != id && id !in ancestors
      ensures r.Err? ==>
                r.code == if parent.None? then "PARENT_REQUIRED"
                          else if AllowedParent(content.kind) != Some(parent.value.1.content.kind) then
                            "INVALID_REQUIREMENT_HIERARCHY"
                          else if parent.value.1.project != projectId then "RESOURCE_NOT_FOUND" else "REQUIREMENT_CYCLE"
    {
      var expected := AllowedParent(content.kind);
      if parent.None? {
        if expected.Some? {
          return Err("PARENT_REQUIRED");
        }
        content := content.(parent := None);
        return Ok(0);
      }
      var (parentId, p) := parent.value;
      if expected != Some(p.content.kind) {
        return Err("INVALID_REQUIREMENT_HIERARCHY");
      }
      if p.project != projectId {
        return Err("RESOURCE_NOT_FOUND");
      }
      if parentId == id || id in ancestors {
        return Err("REQUIREMENT_CYCLE");
      }
      content := content.(parent := Some(parentId));
      return Ok(0);
    }

    method DoTransition(action: Action, evidence: Evidence) returns (r: Result<Status>)
      modifies this`status, this`version
      ensures r == NextStatus(old(View()), action, evidence)
      ensures View() == if r.Ok? then old(View()).(status := r.value, version := old(version) + 1) else old(View())
    {
      if action.SubmitReview? && (status == Draft || status == Rejected) {
        if content.kind != Epic && content.criteria == [] {
          return Err("AC_REQUIRED");
        }
        status := InReview;
      } else if action.ApproveIt? && status == InReview && evidence.approvedReview {
        status := Approved;
      } else if action.RejectIt? && status == InReview {
        status := Rejected;
      } else if action.ReturnToDraft? && status == Rejected {
        status := Draft;
      } else if action.Activate? && status == Approved && evidence.baselined {
        status := Active;
      } else if action.Complete? && status == Active && evidence.completion {
        status := Completed;
      } else if action.CancelIt? && status == Active {
        status := Canceled;
      } else if action.Reopen? && status == Completed && evidence.privileged && !Blank(evidence.reason) {
        status := Active;
      } else {
        return Err("INVALID_STATE_TRANSITION");
      }
      version := version + 1;
      return Ok(status);
    }
  }

  class RequirementService {
    var store: Store

    constructor ()
      ensures store == EMPTY && Inv(store)
    {
      store := EMPTY;
    }

    /** Walk the parent chain: every ancestor, nearest first, until a root is reached. */
    method Ancestors(project: Uuid, id: Uuid) returns (seen: set<Uuid>)
      requires Hierarchy(store.reqs)
      ensures seen == AncestorSet(store.reqs, project, id)
    {
      ghost var p := Parents(store.reqs, project);
      ghost var k: nat := 0;
      seen := {};
      var current := id;
      while Visible(store, project, current) && store.reqs[current].content.parent.Some?
        invariant Up(p, id, k) == Some(current)
        invariant forall a :: a in seen <==> exists j: nat :: 0 < j <= k && Up(p, id, j) == Some(a)
        invariant k > 0 ==> Visible(store, project, id) && Visible(store, project, current)
        decreases if Visible(store, project, current) then Level(store.reqs[current].content.kind) else 0
      {
        var parent := store.reqs[current].content.parent.value;
        UpSucc(p, id, k);
        UpIsLevel(store.reqs, project, id, k + 1);
        UpIsLevel(store.reqs, project, id, k);
        NotSeen(store.reqs, project, id, k, seen);
        if parent in seen {
          break;
        }
        ghost var seen0 := seen;
        seen := seen + {parent};
        assert forall a :: a in seen <==> a in seen0 || Up(p, id, k + 1) == Some(a);
        k := k + 1;
        current := parent;
      }
      WalkedAll(store.reqs, project, id, k, seen);
    }

    // The next parent is higher than every ancestor seen before it.
    lemma NotSeen(reqs: map<Uuid, Requirement>, project: Uuid, id: Uuid, k: nat, seen: set<Uuid>)
      requires Hierarchy(reqs) && id in reqs && reqs[id].project == project && Up(Parents(reqs, project), id, k + 1).Some?
      requires forall a :: a in seen <==> exists j: nat :: 0 < j <= k && Up(Parents(reqs, project), id, j) == Some(a)
      ensures Up(Parents(reqs, project), id, k + 1).value !in seen
    {
      var parent := Up(Parents(reqs, project), id, k + 1).value;
      UpIsLevel(reqs, project, id, k + 1);
      forall j: nat | 0 < j <= k
        ensures Up(Parents(reqs, project), id, j) != Some(parent)
      {
        if Up(Parents(reqs, project), id, j).Some? {
          UpIsLevel(reqs, project, id, j);
        }
      }
    }

    // Re-parent a loaded requirement through the domain.
    method Reparent(requirement: LoadedRequirement, raw: Option<Uuid>) returns (r: Result<nat>)
      requires Hierarchy(store.reqs)
      modifies requirement`content
      ensures var want := SetParent(store.reqs, requirement.projectId, requirement.id, old(requirement.content).kind, raw);
              r.Ok? == want.Ok? && (r.Err? ==> r.code == want.code)
              && (r.Ok? ==> requirement.content == old(requirement.content).(parent := want.value))
              && (r.Err? ==> requirement.content == old(requirement.content))
    {
      if raw.None? {
        r := requirement.DoSetParent(None, {});
        return;
      }
      var parentId := raw.value;
      if !Visible(store, requirement.projectId, parentId) {
        return Err("RESOURCE_NOT_FOUND");
      }
      var ancestors := Ancestors(requirement.projectId, parentId);
      r := requirement.DoSetParent(Some((parentId, store.reqs[parentId])), ancestors + {parentId});
    }

    // The revisions of a requirement, read in the order of their numbers.
    method Revisions(id: Uuid) returns (rs: seq<Revision<Content>>)
      requires Inv(store) && id in store.reqs
      ensures rs == RevisionsOf(store, id) && rs != []
    {
      rs := ReadRows(store.revisions, id);
      assert Frozen(store, id);
      OneReading(RevisionsOf(store, id), rs, store.revisions, id);
    }

    // Write the governed fields into the copy, check it, and freeze a revision.
    method ApplyTo(requirement: LoadedRequirement, ch: Changes, revisionId: Uuid) returns (r: Result<nat>)
      requires Inv(store) && requirement.id in store.reqs
      requires store.reqs[requirement.id] == requirement.View()
      modifies this, requirement
      ensures var want := ApplyFields(old(store), requirement.id, ch, revisionId);
              r.Ok? == want.Ok? && (r.Err? ==> r.code == want.code && store == old(store))
              && (r.Ok? ==> store == want.value && requirement.View() == store.reqs[requirement.id])
    {
      requirement.content :=
        requirement.content.(title := Pick(ch.title, requirement.content.title),
                             description := Pick(ch.description, requirement.content.description),
                             priority := Pick(ch.priority, requirement.content.priority),
                             owner := Pick(ch.owner, requirement.content.owner),
                             release := Pick(ch.release, requirement.content.release),
                             criteria := Pick(ch.criteria, requirement.content.criteria));
      if ch.parent.Some? {
        var reparented := Reparent(requirement, ch.parent.value);
        if reparented.Err? {
          return Err(reparented.code);
        }
      }
      var e := ContentError(requirement.content);
      if e.Some? {
        return Err(e.value);
      }
      var version := Freeze(requirement, revisionId);
      return Ok(version);
    }

    // Count the copy up, store it, and write its content as the next revision.
    method Freeze(requirement: LoadedRequirement, revisionId: Uuid) returns (version: nat)
      requires Inv(store) && requirement.id in store.reqs
      modifies this, requirement
      ensures var q := old(requirement.View());
              var next := q.(currentRevision := q.currentRevision + 1, version := q.version + 1);
              && requirement.View() == next && version == next.version
              && store == old(store).(reqs := old(store).reqs[requirement.id := next],
                                      revisions := Write(old(store).revisions, requirement.id,
                                                         RevisionsOf(old(store), requirement.id)
                                                         + [Revision(revisionId, next.currentRevision, next.content)]))
    {
      requirement.currentRevision := requirement.currentRevision + 1;
      requirement.version := requirement.version + 1;
      var earlier := Revisions(requirement.id);
      var revision := Revision(revisionId, requirement.currentRevision, requirement.content);
      var rows := WriteRows(store.revisions, requirement.id, earlier + [revision]);
      store := store.(reqs := store.reqs[requirement.id := requirement.View()], revisions := rows);
      return requirement.version;
    }

    /** Apply one lifecycle action. */
    method DoMove(project: Uuid, id: Uuid, action: Action, evidence: Evidence) returns (r: Result<nat>)
      modifies this
      ensures var want := Step(old(store), Move(project, id, action, evidence));
              r.Ok? == want.Ok? && (r.Err? ==> r.code == want.code)
              && store == if want.Ok? then want.value else old(store)
    {
      if !Visible(store, project, id) {
        return Err("RESOURCE_NOT_FOUND");
      }
      var requirement := new LoadedRequirement(id, store.reqs[id]);
      var moved := requirement.DoTransition(action, evidence);
      if moved.Err? {
        return Err(moved.code);
      }
      store := store.(reqs := store.reqs[id := requirement.View()]);
      return Ok(requirement.version);
    }

    /** Update governed fields, or open a change request once the requirement is baselined. */
    method DoPatch(project: Uuid, id: Uuid, ch: Changes, revisionId: Uuid, changeId: Uuid) returns (r: Result<nat>)
      requires Inv(store)
      modifies this
      ensures var want := Step(old(store), Patch(project, id, ch, revisionId, changeId));
              r.Ok? == want.Ok? && (r.Err? ==> r.code == want.code)
              && store == if want.Ok? then want.value else old(store)
    {
      if !Visible(store, project, id) {
        return Err("RESOURCE_NOT_FOUND");
      }
      var e := GovernedError(ch);
      if e.Some? {
        return Err(e.value);
      }
      if store.reqs[id].baselined {
        assert Frozen(store, id);
        var revisions := Revisions(id);
        var latest := FindLatest(revisions);
        store := store.(changes := store.changes[changeId := ChangeRequest(project, id, latest.id, ch, ChangeDraft, 1)]);
        return Ok(0);
      }
      var requirement := new LoadedRequirement(id, store.reqs[id]);
      r := ApplyTo(requirement, ch, revisionId);
    }

    /** Create a requirement and freeze its first revision. */
    method DoCreate(project: Uuid, newId: Uuid, revisionId: Uuid, businessNo: string, content: Content) returns (r: Result<nat>)
      modifies this
      ensures var want := Step(old(store), Create(project, newId, revisionId, businessNo, content));
              r.Ok? == want.Ok? && (r.Err? ==> r.code == want.code)
              && store == if want.Ok? then want.value else old(store)
    {
      var first := content.(parent := None);
      var e := ContentError(first);
      if e.Some? {
        return Err(e.value);
      }
      e := NumberError(store.reqs, project, businessNo);
      if e.Some? {
        return Err(e.value);
      }
      var rows := WriteRows(store.revisions, newId, [Revision(revisionId, 1, first)]);
      store := store.(reqs := store.reqs[newId := Requirement(project, businessNo, first, Draft, 1, 1, false)], revisions := rows);
      return Ok(1);
    }

    /** Advance a change request; applying it writes its patch, or leaves everything as it was. */
    method DoMoveChange(project: Uuid, id: Uuid, changeId: Uuid, action: ChangeAction, revisionId: Uuid) returns (r: Result<nat>)
      requires Inv(store)
      modifies this
      ensures var want := Step(old(store), MoveChange(project, id, changeId, action, revisionId));
              r.Ok? == want.Ok? && (r.Err? ==> r.code == want.code)
              && store == if want.Ok? then want.value else old(store)
    {
      if !Visible(store, project, id) {
        return Err("RESOURCE_NOT_FOUND");
      }
      if changeId !in store.changes || store.changes[changeId].project != project || store.changes[changeId].requirement != id {
        return Err("RESOURCE_NOT_FOUND");
      }
      var change := store.changes[changeId];
      if action.Apply? {
        var e := GovernedError(change.patch);
        if e.Some? {
          return Err(e.value);
        }
      }
      var target := NextChange(change.status, action);
      if target.None? {
        return Err("INVALID_STATE_TRANSITION");
      }
      change := change.(status := target.value, version := change.version + 1);
      if action.Apply? {
        var requirement := new LoadedRequirement(id, store.reqs[id]);
        var applied := ApplyTo(requirement, change.patch, revisionId);
        if applied.Err? {
          return Err(applied.code);
        }
      }
      store := store.(changes := store.changes[changeId := change]);
      return Ok(change.version);
    }

    // max(revisions, key=revision_no): the first of the highest.
    method FindLatest(revisions: seq<Revision<Content>>) returns (latest: Revision<Content>)
      requires revisions != []
      ensures latest == LatestRevision(revisions)
    {
      latest := revisions[0];
      assert revisions[..1][..0] == [];
      for i := 1 to |revisions|
        invariant latest == LatestRevision(revisions[..i])
      {
        assert revisions[..i + 1][..i] == revisions[..i];
        if latest.revisionNo < revisions[i].revisionNo {
          latest := revisions[i];
        }
      }
      assert revisions[..|revisions|] == revisions;
    }
  }
}
