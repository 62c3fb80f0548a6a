/**
 Defects in the tables of td-service: a unit of work loads every aggregate, commands change some
 of them, and the commit writes all of them back. History and evidence rows are append-only.
 */
module DefectStore {
  import opened Options
  import opened Chains
  import opened DefectWorkflow
  import opened DuplicateChains

  datatype Head = Head(project: Uuid, businessNo: string, reporter: Uuid, content: Content, status: Status,
                       assignee: Option<Uuid>, verifier: Option<Uuid>, fixVersion: Option<Uuid>, rootCause: string,
                       reopenCount: nat, version: nat)

  datatype HistoryRow = HistoryRow(action: Name, actor: Uuid, before: Status, after: Status, reason: string)

  // The rows of one defect, by sequence number.
  type Column<T> = map<nat, T>

  datatype Rows = Rows(heads: map<Uuid, Head>, dups: map<Uuid, DupRow>, history: map<Uuid, Column<HistoryRow>>,
                       fixes: map<Uuid, Column<FixEvidence>>, verifications: map<Uuid, Column<Verification>>,
                       slas: map<Uuid, Sla>)

  // ---------------------------------------------------------------------
  // Append-only columns
  // ---------------------------------------------------------------------

  function ColumnOf<T>(table: map<Uuid, Column<T>>, id: Uuid): Column<T> { if id in table then table[id] else map[] }

  /** Rows 1..n. */
  function Numbered<T>(values: seq<T>): Column<T> {
    if values == [] then map[] else Numbered(values[..|values| - 1])[|values| := values[|values| - 1]]
  }

  lemma {:induction false} NumberedAt<T>(values: seq<T>)
    ensures forall i: nat :: i in Numbered(values) <==> 1 <= i <= |values|
    ensures forall i: nat | i in Numbered(values) :: Numbered(values)[i] == values[i - 1]
  {
    if values != [] {
      NumberedAt(values[..|values| - 1]);
    }
  }

  /** Write the values under their numbers; a number that is taken must hold the same value. */
  function Append<T(==)>(column: Column<T>, values: seq<T>, error: string): Result<Column<T>> {
    if values == [] then Ok(column)
    else
      var init := Append(column, values[..|values| - 1], error);
      var n := |values|;
      if init.Err? then init
      else if n in column then
        if column[n] == values[n - 1] then init else Err(error)
      else Ok(init.value[n := values[n - 1]])
  }

  lemma {:induction false} AppendSame<T>(stored: seq<T>, k: nat, error: string)
    requires k <= |stored|
    ensures Append(Numbered(stored), stored[..k], error) == Ok(Numbered(stored))
    decreases k
  {
    if k > 0 {
      assert stored[..k][..k - 1] == stored[..k - 1];
      AppendSame(stored, k - 1, error);
      NumberedAt(stored);
    }
  }

  /** Appending to what is stored succeeds when the stored values come first and unchanged. */
  lemma {:induction false} AppendExtends<T>(stored: seq<T>, values: seq<T>, error: string)
    requires stored <= values
    ensures Append(Numbered(stored), values, error) == Ok(Numbered(values))
    decreases |values|
  {
    if |stored| == |values| {
      assert stored == values == values[..|values|];
      AppendSame(values, |values|, error);
    } else {
      AppendExtends(stored, values[..|values| - 1], error);
      NumberedAt(stored);
    }
  }

  /** And only then: a stored value that differs is refused. */
  lemma {:induction false} AppendRefuses<T>(stored: seq<T>, values: seq<T>, error: string, i: nat)
    requires i < |stored| && i < |values| && stored[i] != values[i]
    ensures Append(Numbered(stored), values, error).Err?
    decreases |values|
  {
    NumberedAt(stored);
    if i < |values| - 1 {
      AppendRefuses(stored, values[..|values| - 1], error, i);
    }
  }

  ghost predicate IsMax(s: set<nat>, m: nat) { m in s && forall x | x in s :: x <= m }

  lemma {:induction false} HasMax(s: set<nat>)
    requires s != {}
    ensures exists m :: IsMax(s, m)
    decreases s
  {
    var x :| x in s;
    if s == {x} {
      assert IsMax(s, x);
    } else {
      HasMax(s - {x});
      var m :| IsMax(s - {x}, m);
      var top := if m < x then x else m;
      forall y | y in s
        ensures y <= top
      {
        assert y == x || y in s - {x};
      }
      assert IsMax(s, top);
    }
  }

  /** ORDER BY sequence_no. */
  ghost function Listed<T>(column: Column<T>): seq<T>
    decreases column.Keys
  {
    if column.Keys == {} then []
    else
      HasMax(column.Keys);
      var m :| IsMax(column.Keys, m);
      Listed(column - {m}) + [column[m]]
  }

  lemma {:induction false} ListedNumbered<T>(values: seq<T>)
    ensures Listed(Numbered(values)) == values
  {
    var column := Numbered(values);
    NumberedAt(values);
    if values == [] {
      assert column.Keys == {};
    } else {
      var n, init := |values|, values[..|values| - 1];
      assert n in column.Keys;
      HasMax(column.Keys);
      var m :| IsMax(column.Keys, m);
      assert m == n;
      NumberedAt(init);
      assert column - {n} == Numbered(init);
      ListedNumbered(init);
      assert init + [values[n - 1]] == values;
    }
  }

  // ---------------------------------------------------------------------
  // Loading and saving one aggregate
  // ---------------------------------------------------------------------

  function HeadOf(d: Value): Head {
    Head(d.project, d.businessNo, d.reporter, d.content, d.status, d.assignee, d.verifier, d.fixVersion, d.rootCause,
         d.reopenCount, d.version)
  }

  function RowOf(e: Entry): HistoryRow { HistoryRow(e.action, e.actor, e.before, e.after, e.reason) }

  function RowsOf(h: seq<Entry>): seq<HistoryRow> { seq(|h|, i requires 0 <= i < |h| => RowOf(h[i])) }

  function EntriesOf(rows: seq<HistoryRow>): seq<Entry> {
    seq(|rows|, i requires 0 <= i < |rows| =>
      Entry(i + 1, rows[i].action, rows[i].actor, rows[i].before, rows[i].after, rows[i].reason))
  }

  ghost function Load(r: Rows, id: Uuid): Value
    requires id in r.heads && id in r.slas
  {
    var h := r.heads[id];
    Value(h.project, h.businessNo, h.reporter, h.content, h.status, h.assignee, h.verifier, h.fixVersion, h.rootCause,
          if id in r.dups then Some(r.dups[id].master) else None, h.reopenCount, h.version,
          Listed(ColumnOf(r.fixes, id)), Listed(ColumnOf(r.verifications, id)),
          EntriesOf(Listed(ColumnOf(r.history, id))), r.slas[id])
  }

  predicate SamePolicy(a: Sla, b: Sla) {
    a.policyKey == b.policyKey && a.policyVersion == b.policyVersion
    && a.responseDue == b.responseDue && a.resolutionDue == b.resolutionDue
  }

  // The duplicate edge is checked and written once.
  ghost function SaveEdge(r: Rows, id: Uuid, d: Value): Result<Rows> {
    if d.duplicateOf.None? || id in r.dups then Ok(r)
    else
      var master := d.duplicateOf.value;
      var error := EdgeError(r.dups, master in r.heads && r.heads[master].project == d.project, d.project, id, master);
      if error.Some? then Err(error.value) else Ok(r.(dups := r.dups[id := DupRow(d.project, master)]))
  }

  // ---------------------------------------------------------------------
  // What the tables themselves refuse
  // ---------------------------------------------------------------------

  const MAX_NUMBER := 64
  const MAX_REF := 500

  const TOO_LONG := "value too long"
  const NUMBER_TAKEN := "uq_defect_project_business_no"

  predicate FixesFit(fixes: seq<FixEvidence>) {
    forall i {:trigger fixes[i]} | 0 <= i < |fixes| :: |fixes[i].externalRef| <= MAX_REF
  }

  predicate VerificationsFit(verifications: seq<Verification>) {
    forall i {:trigger verifications[i]} | 0 <= i < |verifications| :: |verifications[i].environmentRef| <= MAX_REF
  }

  /** The texts that the commands do not bound are short enough for their columns. */
  predicate Fits(d: Value) { |d.businessNo| <= MAX_NUMBER && FixesFit(d.fixes) && VerificationsFit(d.verifications) }

  predicate HasNumber(h: Head, project: Uuid, businessNo: string) { h.project == project && h.businessNo == businessNo }

  // Another defect of the project has the number.
  ghost predicate NumberTaken(heads: map<Uuid, Head>, id: Uuid, project: Uuid, businessNo: string) {
    exists other {:trigger heads[other]} | other in heads && other != id :: HasNumber(heads[other], project, businessNo)
  }

  ghost predicate OwnNumbers(heads: map<Uuid, Head>) {
    forall id {:trigger heads[id]} | id in heads :: !NumberTaken(heads, id, heads[id].project, heads[id].businessNo)
  }

  ghost function HeadError(r: Rows, id: Uuid, d: Value): Option<string> {
    if |d.businessNo| > MAX_NUMBER then Some(TOO_LONG)
    else if NumberTaken(r.heads, id, d.project, d.businessNo) then Some(NUMBER_TAKEN)
    else None
  }

  lemma HeadKeepsNumbers(heads: map<Uuid, Head>, id: Uuid, h: Head)
    requires OwnNumbers(heads) && !NumberTaken(heads, id, h.project, h.businessNo)
    ensures OwnNumbers(heads[id := h])
  {
  }

  ghost function SaveRecords(r: Rows, id: Uuid, d: Value): Result<Rows> {
    var history := Append(ColumnOf(r.history, id), RowsOf(d.history), "DEFECT_HISTORY_APPEND_ONLY");
    var fixes := Append(ColumnOf(r.fixes, id), d.fixes, "FIX_EVIDENCE_APPEND_ONLY");
    var verifications := Append(ColumnOf(r.verifications, id), d.verifications, "VERIFICATION_EVIDENCE_APPEND_ONLY");
    if history.Err? then Err(history.code)
    else if fixes.Err? then Err(fixes.code)
    else if !FixesFit(d.fixes) then Err(TOO_LONG)
    else if verifications.Err? then Err(verifications.code)
    else if !VerificationsFit(d.verifications) then Err(TOO_LONG)
    else
      Ok(r.(history := r.history[id := history.value], fixes := r.fixes[id := fixes.value],
            verifications := r.verifications[id := verifications.value]))
  }

  ghost function SaveSla(r: Rows, id: Uuid, d: Value): Result<Rows> {
    if id in r.slas && !SamePolicy(r.slas[id], d.sla) then Err("SLA_POLICY_SNAPSHOT_IMMUTABLE")
    else Ok(r.(slas := r.slas[id := d.sla]))
  }

  /** A stored policy is fixed: its key, its version and both due dates. */
  lemma PolicyIsFixed(r: Rows, id: Uuid, d: Value)
    requires id in r.slas
    ensures SaveSla(r, id, d).Ok? <==>
            r.slas[id].policyKey == d.sla.policyKey && r.slas[id].policyVersion == d.sla.policyVersion
            && r.slas[id].responseDue == d.sla.responseDue && r.slas[id].resolutionDue == d.sla.resolutionDue
    ensures SaveSla(r, id, d).Err? ==> SaveSla(r, id, d).code == "SLA_POLICY_SNAPSHOT_IMMUTABLE"
  {
  }

  ghost function Save(r: Rows, id: Uuid, d: Value): Result<Rows> {
    var edge := SaveEdge(r.(heads := r.heads[id := HeadOf(d)]), id, d);
    if HeadError(r, id, d).Some? then Err(HeadError(r, id, d).value)
    else if edge.Err? then edge
    else SaveRest(edge.value, id, d)
  }

  ghost function SaveRest(r: Rows, id: Uuid, d: Value): Result<Rows> {
    var records := SaveRecords(r, id, d);
    if records.Err? then records else SaveSla(records.value, id, d)
  }

  /** The rows hold exactly this aggregate. */
  ghost predicate Stored(r: Rows, id: Uuid, d: Value) {
    && id in r.heads && r.heads[id] == HeadOf(d)
    && (id in r.dups <==> d.duplicateOf.Some?)
    && (id in r.dups ==> r.dups[id] == DupRow(d.project, d.duplicateOf.value))
    && ColumnOf(r.history, id) == Numbered(RowsOf(d.history))
    && ColumnOf(r.fixes, id) == Numbered(d.fixes)
    && ColumnOf(r.verifications, id) == Numbered(d.verifications)
    && id in r.slas && r.slas[id] == d.sla
  }

  ghost predicate Absent(r: Rows, id: Uuid) {
    id !in r.heads && id !in r.dups && id !in r.history && id !in r.fixes && id !in r.verifications && id !in r.slas
  }

  // The rows of other defects.
  ghost predicate SameRow(r: Rows, s: Rows, id: Uuid) {
    && (id in r.heads <==> id in s.heads) && (id in r.heads ==> r.heads[id] == s.heads[id])
    && (id in r.dups <==> id in s.dups) && (id in r.dups ==> r.dups[id] == s.dups[id])
    && (id in r.history <==> id in s.history) && ColumnOf(r.history, id) == ColumnOf(s.history, id)
    && (id in r.fixes <==> id in s.fixes) && ColumnOf(r.fixes, id) == ColumnOf(s.fixes, id)
    && (id in r.verifications <==> id in s.verifications) && ColumnOf(r.verifications, id) == ColumnOf(s.verifications, id)
    && (id in r.slas <==> id in s.slas) && (id in r.slas ==> r.slas[id] == s.slas[id])
  }

  lemma {:induction false} ChainedNumbers(h: seq<Entry>)
    requires Chained(h)
    ensures EntriesOf(RowsOf(h)) == h
  {
    forall i: nat | i < |h|
      ensures EntriesOf(RowsOf(h))[i] == h[i]
    {
      ChainedAt(h, i);
    }
  }

  /** Loading what is stored gives the aggregate back. */
  lemma LoadStored(r: Rows, id: Uuid, d: Value)
    requires Stored(r, id, d) && Chained(d.history)
    ensures Load(r, id) == d
  {
    ListedNumbered(RowsOf(d.history));
    ListedNumbered(d.fixes);
    ListedNumbered(d.verifications);
    ChainedNumbers(d.history);
  }

  // Records that are stored so far come first among those to be saved, and the policy is the same.
  ghost predicate Precedes(r: Rows, id: Uuid, e: Value, history: seq<HistoryRow>, fixes: seq<FixEvidence>,
                           verifications: seq<Verification>) {
    && history <= RowsOf(e.history) && ColumnOf(r.history, id) == Numbered(history)
    && fixes <= e.fixes && ColumnOf(r.fixes, id) == Numbered(fixes)
    && verifications <= e.verifications && ColumnOf(r.verifications, id) == Numbered(verifications)
    && (id in r.slas ==> SamePolicy(r.slas[id], e.sla))
  }

  lemma SaveRecordsOver(r: Rows, id: Uuid, e: Value, history: seq<HistoryRow>, fixes: seq<FixEvidence>,
                        verifications: seq<Verification>)
    requires Precedes(r, id, e, history, fixes, verifications)
    ensures SaveRecords(r, id, e) ==
            if !FixesFit(e.fixes) || !VerificationsFit(e.verifications) then Err(TOO_LONG)
            else Ok(r.(history := r.history[id := Numbered(RowsOf(e.history))], fixes := r.fixes[id := Numbered(e.fixes)],
                  verifications := r.verifications[id := Numbered(e.verifications)]))
  {
    AppendExtends(history, RowsOf(e.history), "DEFECT_HISTORY_APPEND_ONLY");
    AppendExtends(fixes, e.fixes, "FIX_EVIDENCE_APPEND_ONLY");
    AppendExtends(verifications, e.verifications, "VERIFICATION_EVIDENCE_APPEND_ONLY");
  }

  // All rows of an aggregate, written over whatever is there.
  ghost function Written(r: Rows, dups: map<Uuid, DupRow>, id: Uuid, e: Value): Rows {
    Rows(r.heads[id := HeadOf(e)], dups, r.history[id := Numbered(RowsOf(e.history))], r.fixes[id := Numbered(e.fixes)],
         r.verifications[id := Numbered(e.verifications)], r.slas[id := e.sla])
  }

  ghost function WithHead(r: Rows, id: Uuid, e: Value): Rows { r.(heads := r.heads[id := HeadOf(e)]) }

  /** What saving comes to when nothing recorded is in the way: refused by number, edge or width, or written. */
  ghost function Saving(r: Rows, id: Uuid, e: Value): Result<Rows> {
    var edge := SaveEdge(WithHead(r, id, e), id, e);
    if HeadError(r, id, e).Some? then Err(HeadError(r, id, e).value)
    else if edge.Err? then edge
    else if !FixesFit(e.fixes) || !VerificationsFit(e.verifications) then Err(TOO_LONG)
    else Ok(Written(r, edge.value.dups, id, e))
  }

  lemma SaveRestOver(r: Rows, id: Uuid, e: Value, history: seq<HistoryRow>, fixes: seq<FixEvidence>,
                     verifications: seq<Verification>)
    requires Precedes(r, id, e, history, fixes, verifications)
    ensures SaveRest(r, id, e) ==
            if !FixesFit(e.fixes) || !VerificationsFit(e.verifications) then Err(TOO_LONG)
            else Ok(Written(r, r.dups, id, e).(heads := r.heads))
  {
    SaveRecordsOver(r, id, e, history, fixes, verifications);
  }

  // The edge is checked and written without touching the records.
  lemma EdgeKeepsRecords(r: Rows, id: Uuid, e: Value, history: seq<HistoryRow>, fixes: seq<FixEvidence>,
                         verifications: seq<Verification>)
    requires Precedes(r, id, e, history, fixes, verifications)
    ensures var edge := SaveEdge(WithHead(r, id, e), id, e);
            edge.Ok? ==> edge.value == WithHead(r, id, e).(dups := edge.value.dups)
                         && Precedes(edge.value, id, e, history, fixes, verifications)
  {
  }

  lemma SaveOver(r: Rows, id: Uuid, e: Value, history: seq<HistoryRow>, fixes: seq<FixEvidence>,
                 verifications: seq<Verification>)
    requires Precedes(r, id, e, history, fixes, verifications)
    ensures Save(r, id, e) == Saving(r, id, e)
  {
    var edge := SaveEdge(WithHead(r, id, e), id, e);
    EdgeKeepsRecords(r, id, e, history, fixes, verifications);
    if edge.Ok? {
      SaveRestOver(edge.value, id, e, history, fixes, verifications);
      assert Written(edge.value, edge.value.dups, id, e).(heads := edge.value.heads) == Written(r, edge.value.dups, id, e);
    }
  }

  /** Saving an aggregate that extends the stored one is never refused for its records. */
  lemma SaveExtended(r: Rows, id: Uuid, d: Value, e: Value)
    requires Stored(r, id, d) && Extends(d, e)
    ensures Save(r, id, e) == Saving(r, id, e)
  {
    assert RowsOf(d.history) <= RowsOf(e.history);
    SaveOver(r, id, e, RowsOf(d.history), d.fixes, d.verifications);
  }

  /** The same for a defect that is not stored yet. */
  lemma SaveNew(r: Rows, id: Uuid, e: Value)
    requires Absent(r, id)
    ensures Save(r, id, e) == Saving(r, id, e)
  {
    SaveOver(r, id, e, [], [], []);
  }

  lemma WrittenIsStored(r: Rows, dups: map<Uuid, DupRow>, id: Uuid, e: Value)
    requires id in dups <==> e.duplicateOf.Some?
    requires id in dups ==> dups[id] == DupRow(e.project, e.duplicateOf.value)
    ensures Stored(Written(r, dups, id, e), id, e)
  {
  }

  // ---------------------------------------------------------------------
  // What the tables satisfy between units of work
  // ---------------------------------------------------------------------

  ghost predicate Good(r: Rows, id: Uuid) {
    id in r.heads && id in r.slas && Stored(r, id, Load(r, id)) && Inv(Load(r, id)) && Fits(Load(r, id))
  }

  // A master is a defect of the same project.
  ghost predicate MasterOk(r: Rows, id: Uuid)
    requires id in r.dups
  {
    r.dups[id].master in r.heads && r.heads[r.dups[id].master].project == r.dups[id].project
  }

  ghost predicate StoreInv(r: Rows) {
    && (forall id {:trigger Good(r, id)} | id in r.heads :: Good(r, id))
    && (forall id {:trigger Absent(r, id)} | id !in r.heads :: Absent(r, id))
    && (forall id {:trigger MasterOk(r, id)} | id in r.dups :: MasterOk(r, id))
    && (forall project {:trigger RowMasters(r.dups, project)} :: Forest(RowMasters(r.dups, project)))
    && OwnNumbers(r.heads)
  }

  /** A unit of work: every aggregate, as loaded. No commit leaves a defect without its service levels. */
  ghost function LoadAll(r: Rows): map<Uuid, Value> {
    map id | id in r.heads && id in r.slas :: Load(r, id)
  }

  /** The commit saves the aggregates one after the other; this is how far n of them get. */
  ghost function Commit(r: Rows, work: map<Uuid, Value>, order: seq<Uuid>, n: nat): Result<Rows>
    requires n <= |order|
    decreases n
  {
    if n == 0 then Ok(r)
    else
      var init := Commit(r, work, order, n - 1);
      if init.Err? || order[n - 1] !in work then init else Save(init.value, order[n - 1], work[order[n - 1]])
  }

  // The unit of work keeps what was stored and may add to it.
  ghost predicate Continues(r: Rows, work: map<Uuid, Value>, id: Uuid)
    requires id in work
  {
    Inv(work[id]) && (id in r.heads ==> id in r.slas && Extends(Load(r, id), work[id]))
  }

  ghost predicate Continuing(r: Rows, work: map<Uuid, Value>) {
    r.heads.Keys <= work.Keys && forall id {:trigger Continues(r, work, id)} | id in work :: Continues(r, work, id)
  }

  // The order of a dictionary: each aggregate once.
  ghost predicate Enumerates(order: seq<Uuid>, work: map<Uuid, Value>) {
    (forall id :: id in order <==> id in work) && forall i, j | 0 <= i < j < |order| :: order[i] != order[j]
  }

  ghost predicate Dictionary(r: Rows, work: map<Uuid, Value>, order: seq<Uuid>) {
    Enumerates(order, work) && Continuing(r, work)
  }

  ghost function Saved(order: seq<Uuid>, n: nat): set<Uuid>
    requires n <= |order|
  {
    if n == 0 then {} else Saved(order, n - 1) + {order[n - 1]}
  }

  lemma {:induction false} SavedIs(order: seq<Uuid>, n: nat)
    requires n <= |order|
    ensures forall id :: id in Saved(order, n) <==> exists i :: 0 <= i < n && order[i] == id
    decreases n
  {
    if n > 0 {
      SavedIs(order, n - 1);
    }
  }

  // During a commit: what is saved already, and what is still as it was.
  ghost predicate Partly(r: Rows, s: Rows, work: map<Uuid, Value>, saved: set<Uuid>, id: Uuid) {
    if id in saved then id in work && Stored(s, id, work[id]) && Fits(work[id])
    else if id in r.heads then id in r.slas && Stored(s, id, Load(r, id))
    else Absent(s, id)
  }

  ghost predicate Midway(r: Rows, s: Rows, work: map<Uuid, Value>, saved: set<Uuid>) {
    && (forall id {:trigger Partly(r, s, work, saved, id)} :: Partly(r, s, work, saved, id))
    && (forall id {:trigger MasterOk(s, id)} | id in s.dups :: MasterOk(s, id))
    && (forall project {:trigger RowMasters(s.dups, project)} :: Forest(RowMasters(s.dups, project)))
    && OwnNumbers(s.heads)
  }

  /** A checked edge keeps every project's relation free of cycles. */
  lemma EdgeKeepsForests(dups: map<Uuid, DupRow>, id: Uuid, project: Uuid, master: Uuid, other: Uuid)
    requires id !in dups && EdgeError(dups, true, project, id, master).None?
    requires forall p {:trigger RowMasters(dups, p)} :: Forest(RowMasters(dups, p))
    ensures Forest(RowMasters(dups[id := DupRow(project, master)], other))
  {
    if other == project {
      assert RowMasters(dups[id := DupRow(project, master)], other) == RowMasters(dups, project)[id := master];
      RelinkIff(RowMasters(dups, project), id, master);
    } else {
      assert RowMasters(dups[id := DupRow(project, master)], other) == RowMasters(dups, other);
    }
  }

  ghost predicate NewEdge(r: Rows, work: map<Uuid, Value>, id: Uuid) {
    id in work && work[id].duplicateOf.Some? && id !in r.dups
  }

  ghost predicate EdgeAdded(s: Rows, dups: map<Uuid, DupRow>, id: Uuid, e: Value) {
    && id !in s.dups && e.duplicateOf.Some? && dups == s.dups[id := DupRow(e.project, e.duplicateOf.value)]
    && EdgeError(s.dups, true, e.project, id, e.duplicateOf.value).None?
    && e.duplicateOf.value in s.heads && s.heads[e.duplicateOf.value].project == e.project
  }

  // What saving one aggregate comes to.
  ghost predicate Saves(s: Rows, id: Uuid, e: Value) {
    Save(s, id, e) == Saving(s, id, e) && (Saving(s, id, e).Ok? ==> Stored(Saving(s, id, e).value, id, e) && Fits(e))
  }

  // The reasons for which a commit can be refused; the append-only errors are not among them.
  predicate Refusal(code: string) { code in {TOO_LONG, NUMBER_TAKEN, "DUPLICATE_CYCLE", "RESOURCE_NOT_FOUND"} }

  lemma EdgeOutcome(s: Rows, id: Uuid, e: Value)
    ensures var edge := SaveEdge(WithHead(s, id, e), id, e);
            if edge.Err? then Refusal(edge.code)
            else edge.value.dups == s.dups || EdgeAdded(s, edge.value.dups, id, e)
  {
  }

  lemma SavesExtended(s: Rows, id: Uuid, d: Value, e: Value)
    requires Stored(s, id, d) && Extends(d, e)
    ensures Saves(s, id, e)
  {
    SaveExtended(s, id, d, e);
    var edge := SaveEdge(WithHead(s, id, e), id, e);
    if edge.Ok? {
      WrittenIsStored(s, edge.value.dups, id, e);
    }
  }

  lemma SavesNew(s: Rows, id: Uuid, e: Value)
    requires Absent(s, id)
    ensures Saves(s, id, e)
  {
    SaveNew(s, id, e);
    var edge := SaveEdge(WithHead(s, id, e), id, e);
    if edge.Ok? {
      WrittenIsStored(s, edge.value.dups, id, e);
    }
  }

  lemma SaveWrites(r: Rows, s: Rows, work: map<Uuid, Value>, saved: set<Uuid>, id: Uuid)
    requires Partly(r, s, work, saved, id) && id in work && id !in saved && Continues(r, work, id)
    ensures Saves(s, id, work[id])
  {
    if id in r.heads {
      SavesExtended(s, id, Load(r, id), work[id]);
    } else {
      SavesNew(s, id, work[id]);
    }
  }

  lemma WrittenElsewhere(s: Rows, dups: map<Uuid, DupRow>, id: Uuid, e: Value, j: Uuid)
    requires j != id && (dups == s.dups || EdgeAdded(s, dups, id, e))
    ensures SameRow(s, Written(s, dups, id, e), j)
  {
  }

  lemma SameRowStored(s: Rows, t: Rows, j: Uuid, d: Value)
    requires SameRow(s, t, j)
    ensures Stored(s, j, d) ==> Stored(t, j, d)
    ensures Absent(s, j) ==> Absent(t, j)
  {
  }

  lemma PartlyStep(r: Rows, s: Rows, work: map<Uuid, Value>, saved: set<Uuid>, id: Uuid, dups: map<Uuid, DupRow>, j: Uuid)
    requires id in work && id !in saved && Partly(r, s, work, saved, j)
    requires dups == s.dups || EdgeAdded(s, dups, id, work[id])
    requires Stored(Written(s, dups, id, work[id]), id, work[id]) && Fits(work[id])
    ensures Partly(r, Written(s, dups, id, work[id]), work, saved + {id}, j)
  {
    var t := Written(s, dups, id, work[id]);
    if j != id {
      WrittenElsewhere(s, dups, id, work[id], j);
      if j in saved {
        SameRowStored(s, t, j, work[j]);
      } else if j in r.heads {
        SameRowStored(s, t, j, Load(r, j));
      } else {
        SameRowStored(s, t, j, work[id]);
      }
    }
  }

  lemma MastersStep(s: Rows, id: Uuid, e: Value, dups: map<Uuid, DupRow>, j: Uuid)
    requires dups == s.dups || EdgeAdded(s, dups, id, e)
    requires id in s.heads ==> s.heads[id].project == e.project
    requires j in dups && (j in s.dups ==> MasterOk(s, j))
    ensures MasterOk(Written(s, dups, id, e), j)
  {
  }

  lemma ForestsStep(s: Rows, id: Uuid, e: Value, dups: map<Uuid, DupRow>)
    requires dups == s.dups || EdgeAdded(s, dups, id, e)
    requires forall project {:trigger RowMasters(s.dups, project)} :: Forest(RowMasters(s.dups, project))
    ensures forall project {:trigger RowMasters(dups, project)} :: Forest(RowMasters(dups, project))
  {
    forall project
      ensures Forest(RowMasters(dups, project))
    {
      if dups != s.dups {
        EdgeKeepsForests(s.dups, id, e.project, e.duplicateOf.value, project);
      }
    }
  }

  lemma WrittenKeepsPartly(r: Rows, s: Rows, work: map<Uuid, Value>, saved: set<Uuid>, id: Uuid, dups: map<Uuid, DupRow>)
    requires forall j {:trigger Partly(r, s, work, saved, j)} :: Partly(r, s, work, saved, j)
    requires id in work && id !in saved && (dups == s.dups || EdgeAdded(s, dups, id, work[id]))
    requires Stored(Written(s, dups, id, work[id]), id, work[id]) && Fits(work[id])
    ensures var t := Written(s, dups, id, work[id]);
            forall j {:trigger Partly(r, t, work, saved + {id}, j)} :: Partly(r, t, work, saved + {id}, j)
  {
    forall j
      ensures Partly(r, Written(s, dups, id, work[id]), work, saved + {id}, j)
    {
      assert Partly(r, s, work, saved, j);
      PartlyStep(r, s, work, saved, id, dups, j);
    }
  }

  lemma WrittenKeepsMasters(s: Rows, id: Uuid, e: Value, dups: map<Uuid, DupRow>)
    requires dups == s.dups || EdgeAdded(s, dups, id, e)
    requires id in s.heads ==> s.heads[id].project == e.project
    requires forall j {:trigger MasterOk(s, j)} | j in s.dups :: MasterOk(s, j)
    ensures var t := Written(s, dups, id, e); forall j {:trigger MasterOk(t, j)} | j in t.dups :: MasterOk(t, j)
  {
    forall j | j in dups
      ensures MasterOk(Written(s, dups, id, e), j)
    {
      if j in s.dups {
        assert MasterOk(s, j);
      }
      MastersStep(s, id, e, dups, j);
    }
  }

  /** One save in the middle of a commit: refused for its number, edge or width, or done. */
  lemma SaveKeepsMidway(r: Rows, s: Rows, work: map<Uuid, Value>, saved: set<Uuid>, id: Uuid)
    requires Midway(r, s, work, saved) && id in work && id !in saved && Continues(r, work, id)
    ensures var c := Save(s, id, work[id]);
            if c.Ok? then Midway(r, c.value, work, saved + {id}) else Refusal(c.code)
  {
    var e := work[id];
    assert Saves(s, id, e) by {
      assert Partly(r, s, work, saved, id);
      SaveWrites(r, s, work, saved, id);
    }
    EdgeOutcome(s, id, e);
    HeadsKeepProjects(r, s, work, saved, id);
    if Saving(s, id, e).Ok? {
      var dups := SaveEdge(WithHead(s, id, e), id, e).value.dups;
      WrittenKeepsPartly(r, s, work, saved, id, dups);
      WrittenKeepsMasters(s, id, e, dups);
      ForestsStep(s, id, e, dups);
      HeadKeepsNumbers(s.heads, id, HeadOf(e));
    }
  }

  lemma StartMidway(r: Rows, work: map<Uuid, Value>)
    requires StoreInv(r)
    ensures Midway(r, r, work, {}) && Under(r, Ok(r), work, {})
  {
    forall id
      ensures Partly(r, r, work, {}, id)
    {
      if id in r.heads {
        assert Good(r, id);
      } else {
        assert Absent(r, id);
      }
    }
  }

  lemma HeadsKeepProjects(r: Rows, s: Rows, work: map<Uuid, Value>, saved: set<Uuid>, id: Uuid)
    requires Midway(r, s, work, saved) && id in work && id !in saved && Continues(r, work, id)
    ensures id in s.heads ==> s.heads[id].project == work[id].project
  {
    assert Partly(r, s, work, saved, id);
  }

  // The n-th aggregate is due: it is in the unit of work, and not saved before.
  ghost predicate Ready(r: Rows, work: map<Uuid, Value>, order: seq<Uuid>, n: nat) {
    n < |order| && order[n] in work && Continues(r, work, order[n]) && order[n] !in Saved(order, n)
  }

  ghost predicate AllReady(r: Rows, work: map<Uuid, Value>, order: seq<Uuid>) {
    forall n: nat {:trigger Ready(r, work, order, n)} | n < |order| :: Ready(r, work, order, n)
  }

  lemma DictionaryReady(r: Rows, work: map<Uuid, Value>, order: seq<Uuid>)
    requires Dictionary(r, work, order)
    ensures AllReady(r, work, order)
  {
    forall n: nat | n < |order|
      ensures Ready(r, work, order, n)
    {
      NotYetSaved(order, n);
      assert Continues(r, work, order[n]);
    }
  }

  // A commit so far: refused for an edge, or midway.
  ghost predicate Under(r: Rows, c: Result<Rows>, work: map<Uuid, Value>, saved: set<Uuid>) {
    if c.Ok? then Midway(r, c.value, work, saved) else Refusal(c.code)
  }

  lemma NextSave(r: Rows, c: Result<Rows>, work: map<Uuid, Value>, order: seq<Uuid>, n: nat)
    requires Ready(r, work, order, n) && c.Ok? && Under(r, c, work, Saved(order, n))
    ensures Under(r, Save(c.value, order[n], work[order[n]]), work, Saved(order, n + 1))
  {
    SaveKeepsMidway(r, c.value, work, Saved(order, n), order[n]);
  }

  /** However far a commit gets, it is refused only for an edge, and it has saved what it reached. */
  lemma {:induction false} CommitMidway(r: Rows, work: map<Uuid, Value>, order: seq<Uuid>, n: nat)
    requires Under(r, Ok(r), work, {}) && AllReady(r, work, order) && n <= |order|
    ensures Under(r, Commit(r, work, order, n), work, Saved(order, n))
    decreases n
  {
    if n > 0 {
      CommitMidway(r, work, order, n - 1);
      assert Ready(r, work, order, n - 1);
      if Commit(r, work, order, n - 1).Ok? {
        NextSave(r, Commit(r, work, order, n - 1), work, order, n - 1);
      }
    }
  }

  lemma NotYetSaved(order: seq<Uuid>, n: nat)
    requires n < |order| && forall i, j | 0 <= i < j < |order| :: order[i] != order[j]
    ensures order[n] !in Saved(order, n)
  {
    SavedIs(order, n);
  }

  // Loading the defect gives the unit of work's aggregate back.
  ghost predicate Reloads(s: Rows, work: map<Uuid, Value>, id: Uuid) {
    if id in work then Good(s, id) && Load(s, id) == work[id] else Absent(s, id)
  }

  lemma AllSaved(r: Rows, s: Rows, work: map<Uuid, Value>, id: Uuid)
    requires Partly(r, s, work, work.Keys, id) && r.heads.Keys <= work.Keys
    requires id in work ==> Inv(work[id])
    ensures Reloads(s, work, id)
  {
    if id in work {
      LoadStored(s, id, work[id]);
    }
  }

  lemma ReloadedOne(s: Rows, work: map<Uuid, Value>, id: Uuid)
    requires Reloads(s, work, id)
    ensures id in s.heads <==> id in work
    ensures id in work ==> Good(s, id) && id in s.slas && Load(s, id) == work[id]
    ensures id !in work ==> Absent(s, id)
  {
  }

  lemma Reloaded(s: Rows, work: map<Uuid, Value>)
    requires forall id {:trigger Reloads(s, work, id)} :: Reloads(s, work, id)
    ensures LoadAll(s) == work
    ensures forall id {:trigger Good(s, id)} | id in s.heads :: Good(s, id)
    ensures forall id {:trigger Absent(s, id)} | id !in s.heads :: Absent(s, id)
  {
    forall id
      ensures id in s.heads <==> id in work
      ensures id in work ==> Good(s, id) && id in s.slas && Load(s, id) == work[id]
      ensures id !in work ==> Absent(s, id)
    {
      assert Reloads(s, work, id);
      ReloadedOne(s, work, id);
    }
  }

  lemma SavedAll(r: Rows, work: map<Uuid, Value>, order: seq<Uuid>)
    requires Dictionary(r, work, order)
    ensures Saved(order, |order|) == work.Keys
  {
    SavedIs(order, |order|);
  }

  lemma MidwayDone(r: Rows, s: Rows, work: map<Uuid, Value>)
    requires Midway(r, s, work, work.Keys) && r.heads.Keys <= work.Keys
    requires forall id | id in work :: Inv(work[id])
    ensures StoreInv(s) && LoadAll(s) == work
  {
    forall id
      ensures Reloads(s, work, id)
    {
      assert Partly(r, s, work, work.Keys, id);
      AllSaved(r, s, work, id);
    }
    Reloaded(s, work);
  }

  /** A whole commit leaves the tables consistent, and loading them gives the unit of work back. */
  lemma CommitLossless(r: Rows, work: map<Uuid, Value>, order: seq<Uuid>)
    requires StoreInv(r) && Dictionary(r, work, order) && Commit(r, work, order, |order|).Ok?
    ensures var s := Commit(r, work, order, |order|).value;
            StoreInv(s) && LoadAll(s) == work
  {
    StartMidway(r, work);
    DictionaryReady(r, work, order);
    CommitMidway(r, work, order, |order|);
    SavedAll(r, work, order);
    forall id | id in work
      ensures Inv(work[id])
    {
      assert Continues(r, work, id);
    }
    MidwayDone(r, Commit(r, work, order, |order|).value, work);
  }

  /** A commit changes no record that was there before. */
  lemma CommitKeepsRecords(r: Rows, work: map<Uuid, Value>, order: seq<Uuid>, id: Uuid)
    requires StoreInv(r) && Dictionary(r, work, order) && Commit(r, work, order, |order|).Ok? && id in r.heads
    ensures var s := Commit(r, work, order, |order|).value;
            && RecordsKept(ColumnOf(r.history, id), ColumnOf(s.history, id))
            && RecordsKept(ColumnOf(r.fixes, id), ColumnOf(s.fixes, id))
            && RecordsKept(ColumnOf(r.verifications, id), ColumnOf(s.verifications, id))
            && id in s.heads && id in r.slas && id in s.slas && SamePolicy(r.slas[id], s.slas[id])
  {
    StartMidway(r, work);
    DictionaryReady(r, work, order);
    CommitMidway(r, work, order, |order|);
    var s := Commit(r, work, order, |order|).value;
    SavedIs(order, |order|);
    assert Good(r, id) && Continues(r, work, id);
    assert Partly(r, s, work, Saved(order, |order|), id);
    var d, e := Load(r, id), work[id];
    NumberedPrefix(RowsOf(d.history), RowsOf(e.history));
    NumberedPrefix(d.fixes, e.fixes);
    NumberedPrefix(d.verifications, e.verifications);
  }

  // Every row of the first column is a row of the second.
  predicate RecordsKept<T(==)>(a: Column<T>, b: Column<T>) { forall i | i in a :: i in b && b[i] == a[i] }

  lemma NumberedPrefix<T>(a: seq<T>, b: seq<T>)
    requires a <= b
    ensures RecordsKept(Numbered(a), Numbered(b))
  {
  }

  // ---------------------------------------------------------------------
  // When a unit of work is committed
  // ---------------------------------------------------------------------

  ghost predicate Visible(r: Rows, project: Uuid, id: Uuid) { id in r.heads && r.heads[id].project == project }

  ghost predicate InWork(work: map<Uuid, Value>, project: Uuid, id: Uuid) { id in work && work[id].project == project }

  // The master of a new edge is in the project, and was stored before or is saved earlier.
  ghost predicate MasterFirst(r: Rows, work: map<Uuid, Value>, order: seq<Uuid>, n: nat)
    requires n < |order|
  {
    NewEdge(r, work, order[n]) ==>
      var d := work[order[n]];
      InWork(work, d.project, d.duplicateOf.value)
      && (d.duplicateOf.value in r.heads || d.duplicateOf.value in Saved(order, n))
  }

  ghost predicate MastersFirst(r: Rows, work: map<Uuid, Value>, order: seq<Uuid>, n: nat)
    requires n <= |order|
  {
    forall i: nat {:trigger MasterFirst(r, work, order, i)} | i < n :: MasterFirst(r, work, order, i)
  }

  ghost predicate Acyclic(work: map<Uuid, Value>) {
    forall project {:trigger Masters(work, project)} :: Forest(Masters(work, project))
  }

  predicate SameNumber(d: Value, e: Value) { d.project == e.project && d.businessNo == e.businessNo }

  /** No two defects of a project have one business number. */
  ghost predicate DistinctNumbers(work: map<Uuid, Value>) {
    forall x, y {:trigger work[x], work[y]} | x in work && y in work && SameNumber(work[x], work[y]) :: x == y
  }

  ghost predicate AllFit(work: map<Uuid, Value>) { forall id {:trigger work[id]} | id in work :: Fits(work[id]) }

  /** What the tables can hold. */
  ghost predicate Acceptable(work: map<Uuid, Value>) { Acyclic(work) && DistinctNumbers(work) && AllFit(work) }

  // The heads that are there in the middle of a commit have the numbers of the unit of work.
  lemma NumberFreeMidway(r: Rows, s: Rows, work: map<Uuid, Value>, saved: set<Uuid>, id: Uuid)
    requires Midway(r, s, work, saved) && Continuing(r, work) && DistinctNumbers(work) && id in work
    ensures !NumberTaken(s.heads, id, work[id].project, work[id].businessNo)
  {
    forall other | other in s.heads && other != id
      ensures !HasNumber(s.heads[other], work[id].project, work[id].businessNo)
    {
      assert Partly(r, s, work, saved, other);
      assert other in work && Continues(r, work, other);
      assert HasNumber(s.heads[other], work[other].project, work[other].businessNo);
    }
  }

  // In the middle of a commit a defect is visible when it was stored or has been saved.
  lemma VisibleMidway(r: Rows, s: Rows, work: map<Uuid, Value>, saved: set<Uuid>, project: Uuid, id: Uuid)
    requires Midway(r, s, work, saved) && Continuing(r, work)
    ensures Visible(s, project, id) <==> InWork(work, project, id) && (id in r.heads || id in saved)
  {
    assert Partly(r, s, work, saved, id);
    assert id in work ==> Continues(r, work, id);
  }

  // The edges saved so far are edges of the unit of work.
  lemma EdgesMidway(r: Rows, s: Rows, work: map<Uuid, Value>, saved: set<Uuid>, project: Uuid, id: Uuid)
    requires Midway(r, s, work, saved) && Continuing(r, work) && id in RowMasters(s.dups, project)
    ensures id in Masters(work, project) && Masters(work, project)[id] == RowMasters(s.dups, project)[id]
  {
    assert Partly(r, s, work, saved, id);
    assert id in work ==> Continues(r, work, id);
  }

  // So an edge that would close a cycle among them would close one in the unit of work.
  lemma NoCycleMidway(r: Rows, s: Rows, work: map<Uuid, Value>, saved: set<Uuid>, id: Uuid)
    requires Midway(r, s, work, saved) && Continuing(r, work) && Acyclic(work)
    requires id in work && work[id].duplicateOf.Some?
    ensures var master := work[id].duplicateOf.value;
            master != id && !IsAncestor(RowMasters(s.dups, work[id].project), id, master)
  {
    var project, master := work[id].project, work[id].duplicateOf.value;
    var p := Masters(work, project);
    forall x | x in RowMasters(s.dups, project)
      ensures x in p && p[x] == RowMasters(s.dups, project)[x]
    {
      EdgesMidway(r, s, work, saved, project, x);
    }
    NotAboveItself(p, id);
    ParentIsAbove(p, id, id);
    if IsAncestor(RowMasters(s.dups, project), id, master) {
      AncestorInMore(RowMasters(s.dups, project), p, id, master);
    }
  }

  // When the edge of the next aggregate is accepted.
  lemma EdgeMidway(r: Rows, s: Rows, work: map<Uuid, Value>, saved: set<Uuid>, id: Uuid)
    requires StoreInv(r) && Midway(r, s, work, saved) && Continuing(r, work) && id in work && id !in saved
    ensures SaveEdge(WithHead(s, id, work[id]), id, work[id]).Ok? <==>
            (NewEdge(r, work, id) ==>
               var project, master := work[id].project, work[id].duplicateOf.value;
               master != id && Visible(s, project, master) && !IsAncestor(RowMasters(s.dups, project), id, master))
  {
    assert Partly(r, s, work, saved, id);
    if id in r.heads {
      assert Good(r, id);
    } else {
      assert Absent(r, id);
    }
    assert id in r.dups <==> id in s.dups;
  }

  lemma NextAccepted(r: Rows, s: Rows, work: map<Uuid, Value>, order: seq<Uuid>, n: nat)
    requires StoreInv(r) && Ready(r, work, order, n) && Continuing(r, work) && Midway(r, s, work, Saved(order, n))
    ensures Save(s, order[n], work[order[n]]).Ok? ==> MasterFirst(r, work, order, n)
    ensures MasterFirst(r, work, order, n) && Acceptable(work) ==> Save(s, order[n], work[order[n]]).Ok?
  {
    var id := order[n];
    assert Saves(s, id, work[id]) by {
      assert Partly(r, s, work, Saved(order, n), id);
      SaveWrites(r, s, work, Saved(order, n), id);
    }
    EdgeMidway(r, s, work, Saved(order, n), id);
    if NewEdge(r, work, id) {
      VisibleMidway(r, s, work, Saved(order, n), work[id].project, work[id].duplicateOf.value);
    }
    if Acceptable(work) {
      NumberFreeMidway(r, s, work, Saved(order, n), id);
      assert Fits(work[id]);
      if NewEdge(r, work, id) {
        NoCycleMidway(r, s, work, Saved(order, n), id);
      }
    }
  }

  // What decides the n-th save of a commit.
  ghost predicate Decided(r: Rows, work: map<Uuid, Value>, order: seq<Uuid>, n: nat)
    requires n < |order|
  {
    var c, d := Commit(r, work, order, n), Commit(r, work, order, n + 1);
    && (d.Ok? ==> c.Ok? && MasterFirst(r, work, order, n))
    && (c.Ok? && MasterFirst(r, work, order, n) && Acceptable(work) ==> d.Ok?)
  }

  lemma SaveDecided(r: Rows, work: map<Uuid, Value>, order: seq<Uuid>, n: nat)
    requires StoreInv(r) && Dictionary(r, work, order) && n < |order|
    ensures Decided(r, work, order, n)
  {
    StartMidway(r, work);
    DictionaryReady(r, work, order);
    CommitMidway(r, work, order, n);
    CommitNext(r, work, order, n);
    var c := Commit(r, work, order, n);
    if c.Ok? {
      assert Ready(r, work, order, n);
      NextAccepted(r, c.value, work, order, n);
    }
  }

  predicate GoesOn(passed: seq<bool>, conditions: seq<bool>, acceptable: bool, i: nat)
    requires i < |conditions| < |passed|
  {
    (passed[i + 1] ==> passed[i] && conditions[i]) && (passed[i] && conditions[i] && acceptable ==> passed[i + 1])
  }

  // Steps that go on exactly under their own condition get through exactly when all conditions hold.
  lemma {:induction false} AllStepsPass(passed: seq<bool>, conditions: seq<bool>, acceptable: bool, n: nat)
    requires n <= |conditions| < |passed| && passed[0]
    requires forall i: nat {:trigger GoesOn(passed, conditions, acceptable, i)} | i < |conditions| ::
               GoesOn(passed, conditions, acceptable, i)
    ensures passed[n] ==> forall i {:trigger conditions[i]} | 0 <= i < n :: conditions[i]
    ensures (forall i {:trigger conditions[i]} | 0 <= i < n :: conditions[i]) && acceptable ==> passed[n]
    decreases n
  {
    if n > 0 {
      AllStepsPass(passed, conditions, acceptable, n - 1);
      assert GoesOn(passed, conditions, acceptable, n - 1);
    }
  }

  lemma CommitFollows(r: Rows, work: map<Uuid, Value>, order: seq<Uuid>)
    requires forall i: nat {:trigger Decided(r, work, order, i)} | i < |order| :: Decided(r, work, order, i)
    ensures Commit(r, work, order, |order|).Ok? ==> MastersFirst(r, work, order, |order|)
    ensures MastersFirst(r, work, order, |order|) && Acceptable(work) ==> Commit(r, work, order, |order|).Ok?
  {
    var passed := seq(|order| + 1, i requires 0 <= i <= |order| => Commit(r, work, order, i).Ok?);
    var conditions := seq(|order|, i requires 0 <= i < |order| => MasterFirst(r, work, order, i));
    forall i: nat | i < |order|
      ensures GoesOn(passed, conditions, Acceptable(work), i)
    {
      assert Decided(r, work, order, i);
    }
    AllStepsPass(passed, conditions, Acceptable(work), |order|);
    assert forall i: nat {:trigger MasterFirst(r, work, order, i)} | i < |order| :: conditions[i] == MasterFirst(r, work, order, i);
  }

  lemma CommitNext(r: Rows, work: map<Uuid, Value>, order: seq<Uuid>, n: nat)
    requires n < |order| && order[n] in work
    ensures var c := Commit(r, work, order, n);
            Commit(r, work, order, n + 1) == if c.Err? then c else Save(c.value, order[n], work[order[n]])
  {
  }

  /** In consistent tables the aggregates' own references are the relation of the rows. */
  lemma LoadedMasters(s: Rows, project: Uuid)
    requires StoreInv(s)
    ensures Masters(LoadAll(s), project) == RowMasters(s.dups, project)
  {
    forall id
      ensures id in Masters(LoadAll(s), project) <==> id in RowMasters(s.dups, project)
      ensures id in RowMasters(s.dups, project) ==> Masters(LoadAll(s), project)[id] == RowMasters(s.dups, project)[id]
    {
      if id in s.heads {
        assert Good(s, id);
      } else {
        assert Absent(s, id);
      }
    }
  }

  // What consistent tables hold is acceptable.
  lemma LoadedAcceptable(s: Rows)
    requires StoreInv(s)
    ensures Acceptable(LoadAll(s))
  {
    forall project
      ensures Forest(Masters(LoadAll(s), project))
    {
      LoadedMasters(s, project);
      assert Forest(RowMasters(s.dups, project));
    }
    forall x, y | x in LoadAll(s) && y in LoadAll(s) && SameNumber(LoadAll(s)[x], LoadAll(s)[y])
      ensures x == y
    {
      assert HasNumber(s.heads[y], s.heads[x].project, s.heads[x].businessNo);
    }
    forall id | id in LoadAll(s)
      ensures Fits(LoadAll(s)[id])
    {
      assert Good(s, id);
    }
  }

  /**
   When a unit of work is committed: if and only if its duplicates have no cycle, its business numbers are
   distinct in each project, its texts fit, and no duplicate comes before a master that it has itself created.
   */
  lemma CommitIff(r: Rows, work: map<Uuid, Value>, order: seq<Uuid>)
    requires StoreInv(r) && Dictionary(r, work, order)
    ensures Commit(r, work, order, |order|).Ok? <==>
            MastersFirst(r, work, order, |order|) && Acyclic(work) && DistinctNumbers(work) && AllFit(work)
  {
    forall n: nat | n < |order|
      ensures Decided(r, work, order, n)
    {
      SaveDecided(r, work, order, n);
    }
    CommitFollows(r, work, order);
    if Commit(r, work, order, |order|).Ok? {
      CommitLossless(r, work, order);
      LoadedAcceptable(Commit(r, work, order, |order|).value);
    }
  }

  // The only new edge of the unit of work, if there is one, passes the check on the stored rows.
  ghost predicate OneEdge(r: Rows, work: map<Uuid, Value>, id0: Uuid) {
    && (forall id {:trigger NewEdge(r, work, id)} | id != id0 :: !NewEdge(r, work, id))
    && (NewEdge(r, work, id0) ==>
          var master := work[id0].duplicateOf.value;
          master in r.heads && r.heads[master].project == work[id0].project
          && EdgeError(r.dups, true, work[id0].project, id0, master).None?)
  }

  ghost function DupsWith(r: Rows, work: map<Uuid, Value>, id0: Uuid): map<Uuid, DupRow> {
    if NewEdge(r, work, id0) then r.dups[id0 := DupRow(work[id0].project, work[id0].duplicateOf.value)] else r.dups
  }

  // An edge of the unit of work is a stored one or the new one.
  lemma WorkMaster(r: Rows, work: map<Uuid, Value>, id0: Uuid, id: Uuid)
    requires StoreInv(r) && Continuing(r, work) && OneEdge(r, work, id0)
    ensures id in DupsWith(r, work, id0) <==> id in work && work[id].duplicateOf.Some?
    ensures id in DupsWith(r, work, id0) ==> DupsWith(r, work, id0)[id] == DupRow(work[id].project, work[id].duplicateOf.value)
  {
    assert id != id0 ==> !NewEdge(r, work, id);
    if id in r.heads {
      assert Good(r, id) && Continues(r, work, id);
    } else {
      assert Absent(r, id);
    }
  }

  lemma WorkMasters(r: Rows, work: map<Uuid, Value>, id0: Uuid, project: Uuid)
    requires StoreInv(r) && Continuing(r, work) && OneEdge(r, work, id0)
    ensures Masters(work, project) == RowMasters(DupsWith(r, work, id0), project)
  {
    forall id
      ensures id in Masters(work, project) <==> id in RowMasters(DupsWith(r, work, id0), project)
      ensures id in Masters(work, project) ==>
                Masters(work, project)[id] == RowMasters(DupsWith(r, work, id0), project)[id]
    {
      WorkMaster(r, work, id0, id);
    }
  }

  /** A unit of work with at most one new, checked edge is refused for numbers and widths alone. */
  lemma CommitAccepts(r: Rows, work: map<Uuid, Value>, order: seq<Uuid>, id0: Uuid)
    requires StoreInv(r) && Dictionary(r, work, order) && OneEdge(r, work, id0)
    ensures Commit(r, work, order, |order|).Ok? <==> DistinctNumbers(work) && AllFit(work)
  {
    forall project
      ensures Forest(Masters(work, project))
    {
      WorkMasters(r, work, id0, project);
      if NewEdge(r, work, id0) {
        EdgeKeepsForests(r.dups, id0, work[id0].project, work[id0].duplicateOf.value, project);
      }
    }
    forall n: nat | n < |order|
      ensures MasterFirst(r, work, order, n)
    {
      if NewEdge(r, work, order[n]) {
        assert order[n] == id0 && Continues(r, work, work[id0].duplicateOf.value);
      }
    }
    CommitIff(r, work, order);
  }

  // ---------------------------------------------------------------------
  // Commands in a unit of work
  // ---------------------------------------------------------------------

  datatype Request =
    | CreateDefect(project: Uuid, newId: Uuid, businessNo: string, reporter: Uuid, content: Content, now: int)
    | Act(project: Uuid, id: Uuid, action: Action)
    | PatchDefect(project: Uuid, id: Uuid, actor: Uuid, changes: Changes)

  // The ancestors that the walk over the rows finds for a proposed master.
  ghost function ChainSet(dups: map<Uuid, DupRow>, project: Uuid, master: Uuid): set<Uuid> {
    set x | x in RowMasters(dups, project).Values + {master} && InChain(RowMasters(dups, project), master, x)
  }

  /** The aggregate that the command leaves behind in the unit of work, or its refusal. */
  ghost function Execute(r: Rows, work: map<Uuid, Value>, q: Request): Result<(Uuid, Value)> {
    match q
    case CreateDefect(project, newId, businessNo, reporter, content, now) =>
      var d := Create(project, businessNo, reporter, content, now);
      if d.Err? then Err(d.code) else Ok((newId, d.value))
    case Act(project, id, action) =>
      if !InWork(work, project, id) then Err("RESOURCE_NOT_FOUND")
      else if action.duplicateOf.Some? && !InWork(work, project, action.duplicateOf.value) then Err("RESOURCE_NOT_FOUND")
      else
        var ancestors := if action.duplicateOf.Some? then ChainSet(r.dups, project, action.duplicateOf.value) else {};
        var d := Transition(work[id], id, action.(ancestors := ancestors));
        if d.Err? then Err(d.code) else Ok((id, d.value))
    case PatchDefect(project, id, actor, changes) =>
      if !InWork(work, project, id) then Err("RESOURCE_NOT_FOUND")
      else
        var d := Patch(work[id], actor, changes);
        if d.Err? then Err(d.code) else Ok((id, d.value))
  }

  ghost predicate FreshRequest(work: map<Uuid, Value>, q: Request) { q.CreateDefect? ==> q.newId !in work }

  /** An accepted command leaves an aggregate that extends the one it found. */
  lemma ExecuteKeeps(r: Rows, work: map<Uuid, Value>, q: Request)
    requires Continuing(r, work) && FreshRequest(work, q) && Execute(r, work, q).Ok?
    ensures var (id, e) := Execute(r, work, q).value;
            Inv(e) && (id in work ==> Extends(work[id], e))
  {
    match q
    case CreateDefect(project, _, businessNo, reporter, content, now) =>
      CreateInv(project, businessNo, reporter, content, now);
    case Act(project, id, action) =>
      assert Continues(r, work, id);
      var ancestors := if action.duplicateOf.Some? then ChainSet(r.dups, project, action.duplicateOf.value) else {};
      TransitionKeepsInv(work[id], id, action.(ancestors := ancestors));
    case PatchDefect(_, id, actor, changes) =>
      assert Continues(r, work, id);
      PatchKeepsInv(work[id], actor, changes);
  }

  /** So the unit of work goes on continuing what is stored. */
  lemma ExecuteContinues(r: Rows, work: map<Uuid, Value>, q: Request)
    requires Continuing(r, work) && FreshRequest(work, q) && Execute(r, work, q).Ok?
    ensures var (id, e) := Execute(r, work, q).value; Continuing(r, work[id := e])
  {
    ExecuteKeeps(r, work, q);
    var (id, e) := Execute(r, work, q).value;
    var more := work[id := e];
    forall x | x in more
      ensures Continues(r, more, x)
    {
      if x in work {
        assert Continues(r, work, x);
      }
      if x == id && x in r.heads {
        ExtendsTransitive(Load(r, id), work[id], e);
      }
    }
  }

  /** The unit of work after n commands; a refused command leaves it as it was. */
  ghost function WorkAfter(r: Rows, qs: seq<Request>, n: nat): map<Uuid, Value>
    requires n <= |qs|
    decreases n
  {
    if n == 0 then LoadAll(r)
    else
      var work := WorkAfter(r, qs, n - 1);
      var x := Execute(r, work, qs[n - 1]);
      if x.Ok? then work[x.value.0 := x.value.1] else work
  }

  ghost predicate FreshRequests(r: Rows, qs: seq<Request>) {
    forall i: nat {:trigger WorkAfter(r, qs, i)} | i < |qs| :: FreshRequest(WorkAfter(r, qs, i), qs[i])
  }

  ghost predicate AllAccepted(r: Rows, qs: seq<Request>) {
    forall i: nat {:trigger WorkAfter(r, qs, i)} | i < |qs| :: Execute(r, WorkAfter(r, qs, i), qs[i]).Ok?
  }

  lemma ExtendsItself(d: Value)
    ensures Extends(d, d)
  {
  }

  lemma LoadContinues(r: Rows)
    requires StoreInv(r)
    ensures Continuing(r, LoadAll(r)) && LoadAll(r).Keys == r.heads.Keys
  {
    forall x | x in r.heads
      ensures x in LoadAll(r) && Continues(r, LoadAll(r), x)
    {
      assert Good(r, x);
      ExtendsItself(Load(r, x));
    }
  }

  /** Any number of commands in one unit of work continue what is stored. */
  lemma {:induction false} WorkContinues(r: Rows, qs: seq<Request>, n: nat)
    requires StoreInv(r) && FreshRequests(r, qs) && n <= |qs|
    ensures Continuing(r, WorkAfter(r, qs, n))
    decreases n
  {
    if n == 0 {
      LoadContinues(r);
    } else {
      WorkContinues(r, qs, n - 1);
      var work := WorkAfter(r, qs, n - 1);
      assert FreshRequest(work, qs[n - 1]);
      if Execute(r, work, qs[n - 1]).Ok? {
        ExecuteContinues(r, work, qs[n - 1]);
      }
    }
  }

  /**
   After any commands in one unit of work no append-only check fires at the commit: it is refused exactly for what
   the tables cannot hold, and otherwise the next unit of work loads what this one left.
   */
  lemma UnitOfWorkCommits(r: Rows, qs: seq<Request>, order: seq<Uuid>)
    requires StoreInv(r) && FreshRequests(r, qs) && Enumerates(order, WorkAfter(r, qs, |qs|))
    ensures Dictionary(r, WorkAfter(r, qs, |qs|), order)
    ensures var work := WorkAfter(r, qs, |qs|);
            var c := Commit(r, work, order, |order|);
            && (c.Ok? <==>
                MastersFirst(r, work, order, |order|) && Acyclic(work) && DistinctNumbers(work) && AllFit(work))
            && if c.Ok? then StoreInv(c.value) && LoadAll(c.value) == work
               else Refusal(c.code)
  {
    var work := WorkAfter(r, qs, |qs|);
    WorkContinues(r, qs, |qs|);
    CommitIff(r, work, order);
    StartMidway(r, work);
    DictionaryReady(r, work, order);
    CommitMidway(r, work, order, |order|);
    if Commit(r, work, order, |order|).Ok? {
      CommitLossless(r, work, order);
    }
  }

  /** An accepted command proposes at most its own edge, which the stored rows accept. */
  lemma ExecuteProposesOneEdge(r: Rows, q: Request)
    requires StoreInv(r) && FreshRequest(LoadAll(r), q) && Execute(r, LoadAll(r), q).Ok?
    ensures var (id0, e) := Execute(r, LoadAll(r), q).value; OneEdge(r, LoadAll(r)[id0 := e], id0)
  {
    var (id0, e) := Execute(r, LoadAll(r), q).value;
    var work := LoadAll(r)[id0 := e];
    LoadContinues(r);
    ExecuteContinues(r, LoadAll(r), q);
    forall x | x != id0
      ensures !NewEdge(r, work, x)
    {
      if x in r.heads {
        assert Good(r, x);
      }
    }
    if NewEdge(r, work, id0) {
      EdgeIsChecked(r, q);
    }
  }

  lemma EdgeIsChecked(r: Rows, q: Request)
    requires StoreInv(r) && FreshRequest(LoadAll(r), q) && Execute(r, LoadAll(r), q).Ok?
    requires Execute(r, LoadAll(r), q).value.1.duplicateOf.Some? && Execute(r, LoadAll(r), q).value.0 !in r.dups
    ensures var (id, e) := Execute(r, LoadAll(r), q).value;
            Visible(r, e.project, e.duplicateOf.value)
            && EdgeError(r.dups, true, e.project, id, e.duplicateOf.value).None?
  {
    match q
    case CreateDefect(_, _, _, _, _, _) =>
    case PatchDefect(_, _, _, _) =>
    case Act(project, id, action) =>
      assert Good(r, id);
      var d := Load(r, id);
      var ancestors := if action.duplicateOf.Some? then ChainSet(r.dups, project, action.duplicateOf.value) else {};
      MarksDuplicate(d, id, action.(ancestors := ancestors));
      ChainSetIs(r.dups, project, action.duplicateOf.value, id);
      InChainIff(RowMasters(r.dups, project), action.duplicateOf.value, id);
  }

  lemma MarksDuplicate(d: Value, id: Uuid, a: Action)
    requires d.duplicateOf.None? && Transition(d, id, a).Ok? && Transition(d, id, a).value.duplicateOf.Some?
    ensures a.duplicateOf == Transition(d, id, a).value.duplicateOf
    ensures a.duplicateOf.value != id && id !in a.ancestors && Transition(d, id, a).value.project == d.project
  {
  }

  lemma ChainSetIs(dups: map<Uuid, DupRow>, project: Uuid, master: Uuid, x: Uuid)
    ensures x in ChainSet(dups, project, master) <==> InChain(RowMasters(dups, project), master, x)
  {
    var p := RowMasters(dups, project);
    if InChain(p, master, x) && x != master {
      var k: nat :| Up(p, master, k) == Some(x);
      UpPrefix(p, master, k - 1, k);
      UpSucc(p, master, k - 1);
    }
  }

  /** What a caller can check of a command beforehand: the number is free, and the new texts fit. */
  ghost predicate RequestFits(r: Rows, q: Request) {
    match q
    case CreateDefect(project, newId, businessNo, _, _, _) =>
      |businessNo| <= 64 && !NumberTaken(r.heads, newId, project, businessNo)
    case Act(_, _, action) =>
      && (action.name.MarkFixed? && action.fixEvidence.Some? ==> |action.fixEvidence.value.externalRef| <= 500)
      && (action.name.VerifyClose? || action.name.VerifyFail? ==>
            action.verification.Some? ==> |action.verification.value.environmentRef| <= 500)
    case PatchDefect(_, _, _, _) => true
  }

  // The evidence that an accepted action adds is the request's.
  lemma TransitionFits(d: Value, id: Uuid, a: Action)
    requires Fits(d) && Transition(d, id, a).Ok?
    ensures Fits(Transition(d, id, a).value) <==>
            (a.name.MarkFixed? ==> |a.fixEvidence.value.externalRef| <= MAX_REF)
            && (a.name.VerifyClose? || a.name.VerifyFail? ==> |a.verification.value.environmentRef| <= MAX_REF)
    ensures a.name.MarkFixed? ==> a.fixEvidence.Some?
    ensures a.name.VerifyClose? || a.name.VerifyFail? ==> a.verification.Some?
    ensures SameNumber(d, Transition(d, id, a).value)
  {
    var e := Transition(d, id, a).value;
    if a.name.MarkFixed? {
      assert e.fixes[|d.fixes|] == a.fixEvidence.value;
    }
    if a.name.VerifyClose? || a.name.VerifyFail? {
      assert e.verifications[|d.verifications|] == a.verification.value;
    }
  }

  // A stored defect has its number to itself, and its texts fit.
  lemma StoredFits(r: Rows, id: Uuid, e: Value)
    requires StoreInv(r) && id in r.heads && id in r.slas && SameNumber(Load(r, id), e)
    ensures Fits(Load(r, id)) && !NumberTaken(r.heads, id, e.project, e.businessNo)
  {
    assert Good(r, id);
  }

  ghost predicate ResultFits(r: Rows, q: Request, id: Uuid, e: Value) {
    && (id in r.heads ==> id in r.slas && SameNumber(Load(r, id), e))
    && (Fits(e) && !NumberTaken(r.heads, id, e.project, e.businessNo) <==> RequestFits(r, q))
  }

  lemma ActFits(r: Rows, q: Request, a: Action)
    requires StoreInv(r) && q.Act? && q.id in r.heads && q.id in r.slas && a == q.action.(ancestors := a.ancestors)
    requires Transition(Load(r, q.id), q.id, a).Ok?
    ensures ResultFits(r, q, q.id, Transition(Load(r, q.id), q.id, a).value)
  {
    var d := Load(r, q.id);
    StoredFits(r, q.id, d);
    TransitionFits(d, q.id, a);
    StoredFits(r, q.id, Transition(d, q.id, a).value);
  }

  lemma PatchFits(r: Rows, q: Request)
    requires StoreInv(r) && q.PatchDefect? && q.id in r.heads && q.id in r.slas
    requires Patch(Load(r, q.id), q.actor, q.changes).Ok?
    ensures ResultFits(r, q, q.id, Patch(Load(r, q.id), q.actor, q.changes).value)
  {
    StoredFits(r, q.id, Patch(Load(r, q.id), q.actor, q.changes).value);
  }

  // Only the command's own aggregate can have a number that is taken or texts that do not fit.
  lemma ExecuteFits(r: Rows, q: Request)
    requires StoreInv(r) && FreshRequest(LoadAll(r), q) && Execute(r, LoadAll(r), q).Ok?
    ensures var (id, e) := Execute(r, LoadAll(r), q).value; ResultFits(r, q, id, e)
  {
    if q.CreateDefect? {
      LoadContinues(r);
    } else if q.PatchDefect? {
      PatchFits(r, q);
    } else {
      var action := q.action;
      var ancestors := if action.duplicateOf.Some? then ChainSet(r.dups, q.project, action.duplicateOf.value) else {};
      ActFits(r, q, action.(ancestors := ancestors));
    }
  }

  lemma OneMoreAcceptable(r: Rows, id: Uuid, e: Value)
    requires StoreInv(r) && (id in r.heads ==> id in r.slas && SameNumber(Load(r, id), e))
    ensures var work := LoadAll(r)[id := e];
            DistinctNumbers(work) && AllFit(work) <==> Fits(e) && !NumberTaken(r.heads, id, e.project, e.businessNo)
  {
    LoadContinues(r);
    LoadedAcceptable(r);
    OneMoreNumber(r, id, e);
    var work := LoadAll(r)[id := e];
    assert work[id] == e;
    assert AllFit(work) <==> Fits(e);
  }

  lemma OneMoreNumber(r: Rows, id: Uuid, e: Value)
    requires DistinctNumbers(LoadAll(r)) && LoadAll(r).Keys == r.heads.Keys
    requires id in LoadAll(r) ==> SameNumber(LoadAll(r)[id], e)
    ensures DistinctNumbers(LoadAll(r)[id := e]) <==> !NumberTaken(r.heads, id, e.project, e.businessNo)
  {
    var work := LoadAll(r)[id := e];
    assert work[id] == e;
    forall other | other in r.heads && other != id
      ensures HasNumber(r.heads[other], e.project, e.businessNo) <==> SameNumber(work[other], work[id])
    {
      assert other in LoadAll(r);
    }
  }

  /**
   A request is one command in its own unit of work. Once the command is accepted, the commit is as well, if and
   only if a created defect's number is free in its project and short enough, and new evidence references fit.
   */
  lemma RequestCommits(r: Rows, q: Request, order: seq<Uuid>)
    requires StoreInv(r) && FreshRequest(LoadAll(r), q) && Execute(r, LoadAll(r), q).Ok?
    requires Enumerates(order, WorkAfter(r, [q], 1))
    ensures Commit(r, WorkAfter(r, [q], 1), order, |order|).Ok? <==> RequestFits(r, q)
  {
    var (id0, e) := Execute(r, LoadAll(r), q).value;
    var work := LoadAll(r)[id0 := e];
    assert WorkAfter(r, [q], 0) == LoadAll(r) && WorkAfter(r, [q], 1) == work;
    LoadContinues(r);
    ExecuteContinues(r, LoadAll(r), q);
    ExecuteProposesOneEdge(r, q);
    CommitAccepts(r, work, order, id0);
    ExecuteKeeps(r, LoadAll(r), q);
    ExecuteFits(r, q);
    OneMoreAcceptable(r, id0, e);
  }

  const EMPTY := Rows(map[], map[], map[], map[], map[], map[])

  lemma EmptyStoreInv()
    ensures StoreInv(EMPTY)
  {
  }

  /** Creating a defect with a number that is taken is accepted by the command and refused at the commit. */
  lemma TakenNumberIsRefused(r: Rows, id: Uuid, q: Request, order: seq<Uuid>)
    requires StoreInv(r) && id in r.heads && q.CreateDefect? && q.newId !in LoadAll(r) && ContentError(q.content).None?
    requires HasNumber(r.heads[id], q.project, q.businessNo)
    requires Enumerates(order, WorkAfter(r, [q], 1))
    ensures Execute(r, LoadAll(r), q).Ok? && Commit(r, WorkAfter(r, [q], 1), order, |order|).Err?
  {
    LoadContinues(r);
    assert NumberTaken(r.heads, q.newId, q.project, q.businessNo);
    RequestCommits(r, q, order);
  }

  lemma FirstCreate(q: Request)
    requires q.CreateDefect? && |q.businessNo| <= MAX_NUMBER && ContentError(q.content).None?
    ensures var c := Commit(EMPTY, WorkAfter(EMPTY, [q], 1), [q.newId], 1);
            && c.Ok? && StoreInv(c.value) && LoadAll(c.value).Keys == {q.newId}
            && q.newId in c.value.heads && HasNumber(c.value.heads[q.newId], q.project, q.businessNo)
  {
    EmptyStoreInv();
    var d := Execute(EMPTY, LoadAll(EMPTY), q).value.1;
    var work := WorkAfter(EMPTY, [q], 1);
    assert WorkAfter(EMPTY, [q], 0) == map[] && work == map[q.newId := d];
    RequestCommits(EMPTY, q, [q.newId]);
    WorkContinues(EMPTY, [q], 1);
    CommitLossless(EMPTY, work, [q.newId]);
    var s := Commit(EMPTY, work, [q.newId], 1).value;
    assert q.newId in LoadAll(s) && LoadAll(s)[q.newId] == d;
  }

  /** Two requests that create defects of one project with one number: the first is served, the second refused. */
  lemma TwoCreates(q: Request, q': Request, order: seq<Uuid>)
    requires q.CreateDefect? && q'.CreateDefect? && q.newId != q'.newId && q.project == q'.project
    requires q.businessNo == q'.businessNo && |q.businessNo| <= MAX_NUMBER
    requires ContentError(q.content).None? && ContentError(q'.content).None?
    ensures var c := Commit(EMPTY, WorkAfter(EMPTY, [q], 1), [q.newId], 1);
            && c.Ok? && StoreInv(c.value) && Execute(c.value, LoadAll(c.value), q').Ok?
            && (Enumerates(order, WorkAfter(c.value, [q'], 1)) ==>
                  Commit(c.value, WorkAfter(c.value, [q'], 1), order, |order|).Err?)
  {
    FirstCreate(q);
    var s := Commit(EMPTY, WorkAfter(EMPTY, [q], 1), [q.newId], 1).value;
    assert Execute(s, LoadAll(s), q').Ok?;
    if Enumerates(order, WorkAfter(s, [q'], 1)) {
      TakenNumberIsRefused(s, q.newId, q', order);
    }
  }

  // What a request asks for, by the aggregates that it finds and the aggregate that it leaves.
  ghost predicate Done(work: map<Uuid, Value>, q: Request, id: Uuid, e: Value) {
    match q
    case CreateDefect(project, newId, businessNo, reporter, content, now) =>
      && id == newId && e.project == project && e.businessNo == businessNo && e.reporter == reporter && e.content == content
      && e.status == New && e.history == [] && e.sla.policyKey == content.severity
    case Act(project, did, action) =>
      && id == did && id in work && work[id].project == project
      && e.history == work[id].history + [Entry(|work[id].history| + 1, action.name, action.actor, work[id].status, e.status,
                                                action.reason)]
      && Target(work[id].status, action.name) == Some(e.status) && e.content == work[id].content
    case PatchDefect(project, did, actor, changes) =>
      && id == did && id in work && work[id].project == project
      && Patched(work[id], e, PatchEntry(work[id], actor)) && e.content == Amend(work[id].content, changes)
  }

  /** An accepted command leaves what was asked for, and one on a defect or a master of another project is refused. */
  lemma ExecuteEffect(r: Rows, work: map<Uuid, Value>, q: Request)
    ensures Execute(r, work, q).Ok? ==> Done(work, q, Execute(r, work, q).value.0, Execute(r, work, q).value.1)
    ensures !q.CreateDefect? && !(q.id in work && work[q.id].project == q.project) ==>
              Execute(r, work, q) == Err("RESOURCE_NOT_FOUND")
    ensures q.Act? && q.action.duplicateOf.Some?
            && !(q.action.duplicateOf.value in work && work[q.action.duplicateOf.value].project == q.project) ==>
              Execute(r, work, q) == Err("RESOURCE_NOT_FOUND")
    ensures q.CreateDefect? && Execute(r, work, q).Err? ==> ContentError(q.content) == Some(Execute(r, work, q).code)
    ensures q.PatchDefect? && Execute(r, work, q).Err? && q.id in work && work[q.id].project == q.project ==>
              Patch(work[q.id], q.actor, q.changes) == Err(Execute(r, work, q).code)
  {
    match q
    case CreateDefect(project, _, businessNo, reporter, content, now) =>
      CreateEffect(project, businessNo, reporter, content, now);
    case Act(project, id, action) =>
      if Execute(r, work, q).Ok? {
        var ancestors := if action.duplicateOf.Some? then ChainSet(r.dups, project, action.duplicateOf.value) else {};
        TransitionFollowsTable(work[id], id, action.(ancestors := ancestors));
      }
    case PatchDefect(_, id, actor, changes) =>
      if Execute(r, work, q).Ok? {
        PatchEffect(work[id], actor, changes, Amend(work[id].content, changes));
      }
  }

  /**
   One request from the tables and back: either nothing is stored, or exactly the one aggregate is, as asked for, and
   every other defect is loaded as before.
   */
  lemma ServedRequest(r: Rows, q: Request, s: Rows)
    requires StoreInv(r) && Serves(r, [q], s)
    ensures if Execute(r, LoadAll(r), q).Err? || !RequestFits(r, q) then s == r
            else
              var (id, e) := Execute(r, LoadAll(r), q).value;
              StoreInv(s) && LoadAll(s) == LoadAll(r)[id := e] && Done(LoadAll(r), q, id, e)
  {
    var x := Execute(r, LoadAll(r), q);
    assert WorkAfter(r, [q], 0) == LoadAll(r);
    assert AllAccepted(r, [q]) <==> x.Ok?;
    if x.Ok? {
      var work := LoadAll(r)[x.value.0 := x.value.1];
      assert WorkAfter(r, [q], 1) == work;
      assert FreshRequest(LoadAll(r), q);
      var order :| Enumerates(order, WorkAfter(r, [q], |[q]|)) && s == Committed(r, WorkAfter(r, [q], |[q]|), order);
      RequestCommits(r, q, order);
      ExecuteEffect(r, LoadAll(r), q);
      if RequestFits(r, q) {
        WorkContinues(r, [q], 1);
        CommitLossless(r, work, order);
      }
    }
  }

  // ---------------------------------------------------------------------
  // Runs
  // ---------------------------------------------------------------------

  // What a commit leaves, in an order of the dictionary: everything saved, or a rollback.
  ghost function Committed(r: Rows, work: map<Uuid, Value>, order: seq<Uuid>): Rows {
    var c := Commit(r, work, order, |order|);
    if c.Ok? then c.value else r
  }

  /** The tables after a unit of work; one with a refused command is not committed. */
  ghost predicate Serves(r: Rows, qs: seq<Request>, s: Rows) {
    FreshRequests(r, qs)
    && if AllAccepted(r, qs) then
         exists order {:trigger Enumerates(order, WorkAfter(r, qs, |qs|))} | Enumerates(order, WorkAfter(r, qs, |qs|)) ::
           s == Committed(r, WorkAfter(r, qs, |qs|), order)
       else s == r
  }

  lemma ServesKeepsStore(r: Rows, qs: seq<Request>, s: Rows)
    requires StoreInv(r) && Serves(r, qs, s)
    ensures StoreInv(s)
  {
    if AllAccepted(r, qs) {
      var order :| Enumerates(order, WorkAfter(r, qs, |qs|)) && s == Committed(r, WorkAfter(r, qs, |qs|), order);
      UnitOfWorkCommits(r, qs, order);
    }
  }

  lemma ServesKeeps(r: Rows, qs: seq<Request>, s: Rows, id: Uuid)
    requires StoreInv(r) && Serves(r, qs, s) && id in r.heads
    ensures id in s.heads && Kept(r, s, id)
  {
    assert Good(r, id);
    if AllAccepted(r, qs) {
      var work := WorkAfter(r, qs, |qs|);
      var order :| Enumerates(order, work) && s == Committed(r, work, order);
      UnitOfWorkCommits(r, qs, order);
      if Commit(r, work, order, |order|).Ok? {
        CommitKeepsRecords(r, work, order, id);
      }
    }
  }

  /** A defect's history, evidence and service levels as they were. */
  ghost predicate Kept(r: Rows, s: Rows, id: Uuid) {
    && RecordsKept(ColumnOf(r.history, id), ColumnOf(s.history, id))
    && RecordsKept(ColumnOf(r.fixes, id), ColumnOf(s.fixes, id))
    && RecordsKept(ColumnOf(r.verifications, id), ColumnOf(s.verifications, id))
    && id in r.slas && id in s.slas && SamePolicy(r.slas[id], s.slas[id])
  }

  ghost predicate IsRun(run: seq<Rows>, units: seq<seq<Request>>) {
    |run| == |units| + 1 && run[0] == EMPTY
    && forall i {:trigger units[i]} | 0 <= i < |units| :: Serves(run[i], units[i], run[i + 1])
  }

  /** Over every run the tables stay consistent: replayable, evidenced, acyclic, and they reload. */
  lemma {:induction false} RunKeepsStore(run: seq<Rows>, units: seq<seq<Request>>, n: nat)
    requires IsRun(run, units) && n <= |units|
    ensures StoreInv(run[n])
    decreases n
  {
    if n == 0 {
      EmptyStoreInv();
    } else {
      RunKeepsStore(run, units, n - 1);
      ServesKeepsStore(run[n - 1], units[n - 1], run[n]);
    }
  }

  /** Nothing recorded is ever changed or lost, and due dates stay those of the creation. */
  lemma {:induction false} RunKeepsRecords(run: seq<Rows>, units: seq<seq<Request>>, m: nat, n: nat, id: Uuid)
    requires IsRun(run, units) && m <= n <= |units| && id in run[m].heads
    ensures id in run[n].heads && Kept(run[m], run[n], id)
    decreases n - m
  {
    RunKeepsStore(run, units, m);
    if m == n {
      assert Good(run[m], id);
    } else {
      RunKeepsRecords(run, units, m, n - 1, id);
      RunKeepsStore(run, units, n - 1);
      ServesKeeps(run[n - 1], units[n - 1], run[n], id);
    }
  }

  // A closed defect was fixed, verified and explained.
  predicate Accounted(d: Value) {
    && d.verifier.Some? && d.fixVersion.Some? && d.fixes != [] && !Blank(d.rootCause)
    && d.verifications != [] && d.verifications[|d.verifications| - 1].conclusion == Passed
  }

  /** What every reachable store says about a defect, in the terms of the workflow. */
  lemma LoadedDefect(run: seq<Rows>, units: seq<seq<Request>>, n: nat, id: Uuid)
    requires IsRun(run, units) && n <= |units| && id in run[n].heads
    ensures id in run[n].slas
    ensures var d := Load(run[n], id);
            && Replay(d.history) == Some(d.status) && d.version == 1 + |d.history|
            && (d.status == Closed ==> Accounted(d))
            && !IsAncestor(RowMasters(run[n].dups, d.project), id, id)
            && forall other {:trigger run[n].heads[other]} | other in run[n].heads && other != id ::
                 !HasNumber(run[n].heads[other], d.project, d.businessNo)
  {
    RunKeepsStore(run, units, n);
    assert Good(run[n], id);
    NotAboveItself(RowMasters(run[n].dups, Load(run[n], id).project), id);
  }

  lemma NotAboveItself(p: map<Uuid, Uuid>, id: Uuid)
    requires Forest(p)
    ensures !IsAncestor(p, id, id)
  {
    ForestIffNoCycle(p);
    assert forall k: nat {:trigger Up(p, id, k)} | k > 0 && id !in p :: Up(p, id, k) == None;
  }

  /**
   When a new edge can be saved. The master has to be stored already, so a unit of work that
   reaches a duplicate before a master it has just created itself is refused as a whole.
   */
  lemma NewEdgeSavedIff(r: Rows, id: Uuid, e: Value)
    requires e.duplicateOf.Some? && id !in r.dups && Forest(RowMasters(r.dups, e.project))
    ensures SaveEdge(WithHead(r, id, e), id, e).Ok? <==>
            e.duplicateOf.value != id && Visible(r, e.project, e.duplicateOf.value)
            && Forest(RowMasters(r.dups, e.project)[id := e.duplicateOf.value])
  {
    RelinkIff(RowMasters(r.dups, e.project), id, e.duplicateOf.value);
  }
}
