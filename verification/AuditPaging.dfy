/**
 Audit records in audit-service: an append-only store, read page by page from a cursor while
 records are still being appended. Records are listed by their time, and continued after a cursor
 that holds the text of a time.
 */
module AuditPaging {
  import opened Options
  import opened Timestamps

  datatype Record = Record(id: string, eventId: string, occurredAt: Time, actor: string, project: Option<string>,
                           resourceType: string, action: string, result: string)

  datatype Cursor = Cursor(stamp: string, id: string)

  // A request; a malformed cursor is an absent one.
  datatype Query = Query(start: Time, end: Time, actor: Option<string>, project: Option<string>,
                         resourceType: Option<string>, action: Option<string>, result: Option<string>)

  datatype Page = Page(records: seq<Record>, next: Option<Cursor>)

  // ---------------------------------------------------------------------
  // The two orders
  // ---------------------------------------------------------------------

  /** The order of the listing, newest first: by instant, then by identifier. */
  predicate Newer(a: Record, b: Record) {
    b.occurredAt.instant < a.occurredAt.instant
    || (b.occurredAt.instant == a.occurredAt.instant && StrLess(b.id, a.id))
  }

  function CursorOf(r: Record): Cursor { Cursor(r.occurredAt.text, r.id) }

  /** The order of the cursors: by text, then by identifier. */
  predicate CursorLess(a: Cursor, b: Cursor) {
    StrLess(a.stamp, b.stamp) || (a.stamp == b.stamp && StrLess(a.id, b.id))
  }

  lemma NewerIsStrict(a: Record, b: Record)
    ensures !(Newer(a, b) && Newer(b, a))
    ensures a.id == b.id || Newer(a, b) || Newer(b, a)
  {
    if StrLess(a.id, b.id) && StrLess(b.id, a.id) {
      StrTransitive(a.id, b.id, a.id);
    }
    StrIrreflexive(a.id);
    StrTotal(a.id, b.id);
  }

  lemma NewerTransitive(a: Record, b: Record, c: Record)
    requires Newer(a, b) && Newer(b, c)
    ensures Newer(a, c)
  {
    if StrLess(b.id, a.id) && StrLess(c.id, b.id) {
      StrTransitive(c.id, b.id, a.id);
    }
  }

  lemma CursorStrict(a: Cursor, b: Cursor)
    ensures !(CursorLess(a, b) && CursorLess(b, a))
  {
    if StrLess(a.stamp, b.stamp) && StrLess(b.stamp, a.stamp) {
      StrTransitive(a.stamp, b.stamp, a.stamp);
    }
    if StrLess(a.id, b.id) && StrLess(b.id, a.id) {
      StrTransitive(a.id, b.id, a.id);
    }
    StrIrreflexive(a.stamp);
    StrIrreflexive(a.id);
  }

  lemma CursorTransitive(a: Cursor, b: Cursor, c: Cursor)
    requires CursorLess(a, b) && CursorLess(b, c)
    ensures CursorLess(a, c)
  {
    if StrLess(a.stamp, b.stamp) && StrLess(b.stamp, c.stamp) {
      StrTransitive(a.stamp, b.stamp, c.stamp);
    }
    if StrLess(a.id, b.id) && StrLess(b.id, c.id) {
      StrTransitive(a.id, b.id, c.id);
    }
  }

  /** The two orders agree on some records. */
  ghost predicate Agree(rs: set<Record>) {
    forall a, b {:trigger Newer(a, b)} {:trigger CursorLess(CursorOf(b), CursorOf(a))} | a in rs && b in rs ::
      CursorLess(CursorOf(b), CursorOf(a)) <==> Newer(a, b)
  }

  /** They agree on records whose times share one UTC offset. */
  lemma OneOffsetAgrees(rs: set<Record>, offset: int)
    requires forall r | r in rs :: HasOffset(r.occurredAt, offset)
    ensures Agree(rs)
  {
    forall a, b | a in rs && b in rs
      ensures CursorLess(CursorOf(b), CursorOf(a)) <==> Newer(a, b)
    {
      OneOffsetOrder(b.occurredAt, a.occurredAt, offset);
    }
  }

  // ---------------------------------------------------------------------
  // The store
  // ---------------------------------------------------------------------

  ghost predicate DistinctIds(rs: set<Record>) {
    forall a, b | a in rs && b in rs && a.id == b.id :: a == b
  }

  ghost predicate OncePerEvent(rs: set<Record>) {
    forall a, b | a in rs && b in rs && a.eventId == b.eventId :: a == b
  }

  /** Append a record, unless its event was recorded before. */
  ghost function Appended(rs: set<Record>, r: Record): set<Record> {
    if exists x :: x in rs && x.eventId == r.eventId then rs else rs + {r}
  }

  ghost function Store(rs: seq<Record>, n: nat): set<Record>
    requires n <= |rs|
    decreases n
  {
    if n == 0 then {} else Appended(Store(rs, n - 1), rs[n - 1])
  }

  // New records come with new identifiers.
  ghost predicate NewIds(rs: seq<Record>) {
    forall i, j | 0 <= i < j < |rs| :: rs[i].id != rs[j].id
  }

  predicate FirstOfEvent(rs: seq<Record>, i: nat)
    requires i < |rs|
  {
    forall j | 0 <= j < i :: rs[j].eventId != rs[i].eventId
  }

  /** The store holds, for each event, the record it was first appended with. */
  lemma {:induction false} StoreHoldsFirst(rs: seq<Record>, n: nat)
    requires n <= |rs|
    ensures forall r :: r in Store(rs, n) <==> exists i: nat {:trigger FirstOfEvent(rs, i)} :: i < n && FirstOfEvent(rs, i) && rs[i] == r
    decreases n
  {
    if n > 0 {
      StoreHoldsFirst(rs, n - 1);
      var s, last := Store(rs, n - 1), rs[n - 1];
      if x :| x in s && x.eventId == last.eventId {
        assert !FirstOfEvent(rs, n - 1);
      } else {
        NoneBefore(rs, n - 1);
        assert FirstOfEvent(rs, n - 1);
      }
    }
  }

  // An event that is not in the store was not appended.
  lemma NoneBefore(rs: seq<Record>, n: nat)
    requires n < |rs| && forall x | x in Store(rs, n) :: x.eventId != rs[n].eventId
    requires forall r :: r in Store(rs, n) <==> exists i: nat {:trigger FirstOfEvent(rs, i)} :: i < n && FirstOfEvent(rs, i) && rs[i] == r
    ensures FirstOfEvent(rs, n)
  {
    forall j | 0 <= j < n
      ensures rs[j].eventId != rs[n].eventId
    {
      SomeFirst(rs, j);
      var i: nat :| i <= j && rs[i].eventId == rs[j].eventId && FirstOfEvent(rs, i);
      assert rs[i] in Store(rs, n);
    }
  }

  // Every event has a first record.
  lemma {:induction false} SomeFirst(rs: seq<Record>, k: nat)
    requires k < |rs|
    ensures exists i: nat {:trigger FirstOfEvent(rs, i)} :: i <= k && rs[i].eventId == rs[k].eventId && FirstOfEvent(rs, i)
    decreases k
  {
    if j: nat :| j < k && rs[j].eventId == rs[k].eventId {
      SomeFirst(rs, j);
    } else {
      assert FirstOfEvent(rs, k);
    }
  }

  lemma StoreIsDistinct(rs: seq<Record>, n: nat)
    requires NewIds(rs) && n <= |rs|
    ensures DistinctIds(Store(rs, n)) && OncePerEvent(Store(rs, n))
  {
    StoreHoldsFirst(rs, n);
    forall a, b | a in Store(rs, n) && b in Store(rs, n) && (a.id == b.id || a.eventId == b.eventId)
      ensures a == b
    {
      var i: nat :| i < n && FirstOfEvent(rs, i) && rs[i] == a;
      var j: nat :| j < n && FirstOfEvent(rs, j) && rs[j] == b;
    }
  }

  lemma {:induction false} StoreGrows(rs: seq<Record>, m: nat, n: nat)
    requires m <= n <= |rs|
    ensures Store(rs, m) <= Store(rs, n)
    decreases n
  {
    if m < n {
      StoreGrows(rs, m, n - 1);
    }
  }

  // ---------------------------------------------------------------------
  // One page
  // ---------------------------------------------------------------------

  ghost predicate Descending(s: seq<Record>) {
    forall i, j {:trigger s[i], s[j]} | 0 <= i < j < |s| :: Newer(s[i], s[j])
  }

  function Insert(r: Record, s: seq<Record>): seq<Record> {
    if s == [] then [r] else if Newer(r, s[0]) then [r] + s else [s[0]] + Insert(r, s[1..])
  }

  lemma {:induction false} InsertKeepsOrder(r: Record, s: seq<Record>)
    requires Descending(s) && forall x | x in s :: x.id != r.id
    ensures Descending(Insert(r, s)) && forall x :: x in Insert(r, s) <==> x == r || x in s
  {
    if s != [] {
      NewerIsStrict(r, s[0]);
      if Newer(r, s[0]) {
        forall j | 0 <= j < |s|
          ensures Newer(r, s[j])
        {
          if j > 0 {
            NewerTransitive(r, s[0], s[j]);
          }
        }
      } else {
        InsertKeepsOrder(r, s[1..]);
        forall x | x in Insert(r, s[1..])
          ensures Newer(s[0], x)
        {
        }
      }
    }
  }

  /** A listing of a set: newest first. */
  ghost predicate Lists(s: seq<Record>, rs: set<Record>) {
    Descending(s) && forall x :: x in s <==> x in rs
  }

  function Shown(project: Option<string>): string { if project.Some? then project.value else "None" }

  predicate Is(wanted: Option<string>, value: string) { wanted.Some? ==> wanted.value == value }

  predicate AllAsked(q: Query, r: Record) {
    Is(q.actor, r.actor) && Is(q.project, Shown(r.project)) && Is(q.resourceType, r.resourceType)
    && Is(q.action, r.action) && Is(q.result, r.result)
  }

  predicate Matches(r: Record, q: Query) {
    q.start.instant <= r.occurredAt.instant <= q.end.instant && AllAsked(q, r)
  }

  predicate After(r: Record, cursor: Option<Cursor>) { cursor.Some? ==> CursorLess(CursorOf(r), cursor.value) }

  predicate Wanted(r: Record, q: Query, cursor: Option<Cursor>) { Matches(r, q) && After(r, cursor) }

  ghost function WantedOf(rs: set<Record>, q: Query, cursor: Option<Cursor>): set<Record> {
    set r | r in rs && Wanted(r, q, cursor)
  }

  function Clamp(limit: int): nat {
    if limit < 1 then 1 else if limit > 100 then 100 else limit
  }

  // Insertion of the members one by one, in any order.
  lemma {:induction false} ListingExists(rs: set<Record>)
    requires DistinctIds(rs)
    ensures exists s :: Lists(s, rs)
  {
    if rs == {} {
      assert Lists([], rs);
    } else {
      var r :| r in rs;
      ListingExists(rs - {r});
      var s :| Lists(s, rs - {r});
      InsertKeepsOrder(r, s);
      assert Lists(Insert(r, s), rs);
    }
  }

  ghost function Listing(rs: set<Record>): (s: seq<Record>)
    requires DistinctIds(rs)
    ensures Lists(s, rs)
  {
    ListingExists(rs);
    var s :| Lists(s, rs);
    s
  }

  /** There is one listing only. */
  lemma {:induction false} OneListing(s: seq<Record>, t: seq<Record>)
    requires Descending(s) && Descending(t) && forall x :: x in s <==> x in t
    ensures s == t
    decreases |s|
  {
    SameEmpty(s, t);
    if s != [] {
      SameHead(s, t);
      TailMembers(s);
      TailMembers(t);
      OneListing(s[1..], t[1..]);
      assert s == [s[0]] + s[1..] && t == [t[0]] + t[1..];
    }
  }

  lemma SameHead(s: seq<Record>, t: seq<Record>)
    requires Descending(s) && Descending(t) && s != [] && t != [] && forall x :: x in s <==> x in t
    ensures s[0] == t[0]
  {
    assert s[0] in t && t[0] in s;
    var k :| 0 <= k < |t| && t[k] == s[0];
    var l :| 0 <= l < |s| && s[l] == t[0];
    assert k == 0 || Newer(t[0], t[k]);
    assert l == 0 || Newer(s[0], s[l]);
    NewerIsStrict(s[0], t[0]);
  }

  lemma TailMembers(s: seq<Record>)
    requires Descending(s) && s != []
    ensures forall x :: x in s[1..] <==> x in s && x != s[0]
  {
    forall i | 1 <= i < |s|
      ensures s[i] != s[0]
    {
      NewerIsStrict(s[0], s[i]);
      assert Newer(s[0], s[i]);
    }
  }

  /** A page of a store: the newest wanted records, and a cursor if there are more of them. */
  ghost function PageOf(rs: set<Record>, q: Query, cursor: Option<Cursor>, limit: int): Page
    requires DistinctIds(rs)
  {
    Cut(Listing(WantedOf(rs, q, cursor)), Clamp(limit))
  }

  function Cut(s: seq<Record>, limit: nat): Page
    requires limit > 0
  {
    if |s| > limit then Page(s[..limit], Some(CursorOf(s[limit - 1]))) else Page(s, None)
  }

  /** What a query asks of a record, one filter at a time; a record without a project is filtered as "None". */
  lemma MatchesIff(r: Record, q: Query)
    ensures Matches(r, q) <==>
            && q.start.instant <= r.occurredAt.instant && r.occurredAt.instant <= q.end.instant
            && (q.actor == None || q.actor == Some(r.actor))
            && (q.project == None || q.project == (if r.project == None then Some("None") else r.project))
            && (q.resourceType == None || q.resourceType == Some(r.resourceType))
            && (q.action == None || q.action == Some(r.action))
            && (q.result == None || q.result == Some(r.result))
  {
  }

  /**
   A page: between one and a hundred records as the limit says, all of them asked for and after the cursor, newest
   first; and every other such record is older than the last one, from which the page says how to go on.
   */
  lemma PageIs(rs: set<Record>, q: Query, cursor: Option<Cursor>, limit: int)
    requires DistinctIds(rs)
    ensures var p, size := PageOf(rs, q, cursor, limit), if limit <= 0 then 1 else if limit >= 100 then 100 else limit;
            && |p.records| <= size && (p.next.Some? ==> |p.records| == size)
            && (forall r | r in p.records :: r in rs && Matches(r, q) && (cursor.Some? ==> CursorLess(CursorOf(r), cursor.value)))
            && (forall i, j | 0 <= i < j < |p.records| :: Newer(p.records[i], p.records[j]))
            && (p.next.Some? ==>
                  p.records != []
                  && p.next.value == Cursor(p.records[|p.records| - 1].occurredAt.text, p.records[|p.records| - 1].id))
            && (forall r | r in rs && Matches(r, q) && (cursor.Some? ==> CursorLess(CursorOf(r), cursor.value)) ::
                  r in p.records || (p.next.Some? && Newer(p.records[|p.records| - 1], r)))
  {
    var s := Listing(WantedOf(rs, q, cursor));
    CutRecords(s, Clamp(limit));
    assert forall r | r in s :: r in WantedOf(rs, q, cursor);
    assert forall r | r in WantedOf(rs, q, cursor) :: r in s;
  }

  // ---------------------------------------------------------------------
  // Reading page by page
  // ---------------------------------------------------------------------

  // What a reader has received, and where it continues.
  datatype Reader = Reader(delivered: seq<Record>, cursor: Option<Cursor>, finished: bool)

  // A page request: the store it meets, and the limit it asks for.
  datatype Request = Request(store: set<Record>, limit: int)

  // The reader after one more page.
  ghost function Fetched(rd: Reader, q: Query, now: set<Record>, limit: int): Reader
    requires DistinctIds(now)
  {
    var p := PageOf(now, q, rd.cursor, limit);
    Reader(rd.delivered + p.records, p.next, p.next.None?)
  }

  // The reader after one more request, if there is still something to ask for.
  ghost function Next(rd: Reader, q: Query, req: Request): Reader
    requires DistinctIds(req.store)
  {
    if rd.finished then rd else Fetched(rd, q, req.store, req.limit)
  }

  ghost predicate AllDistinct(reqs: seq<Request>) {
    forall i {:trigger reqs[i]} | 0 <= i < |reqs| :: DistinctIds(reqs[i].store)
  }

  /** The reader after n requests, each from the cursor of the one before. */
  ghost function Reading(q: Query, reqs: seq<Request>, n: nat): Reader
    requires n <= |reqs| && AllDistinct(reqs)
    decreases n
  {
    if n == 0 then Reader([], None, false)
    else
      Next(Reading(q, reqs, n - 1), q, reqs[n - 1])
  }

  ghost predicate Growing(reqs: seq<Request>) {
    && AllDistinct(reqs)
    && forall i, j {:trigger reqs[i], reqs[j]} | 0 <= i <= j < |reqs| :: reqs[i].store <= reqs[j].store
  }

  function LastCursor(s: seq<Record>): Option<Cursor> { if s == [] then None else Some(CursorOf(s[|s| - 1])) }

  // Where a reader stands between two requests: `first` is the store it began with, `all` the last it will meet.
  ghost predicate Standing(rd: Reader, q: Query, first: set<Record>, all: set<Record>) {
    && Descending(rd.delivered) && (forall r | r in rd.delivered :: r in all && Matches(r, q))
    && (!rd.finished ==> rd.cursor == LastCursor(rd.delivered))
    && forall r | r in first && Matches(r, q) :: r in rd.delivered || (!rd.finished && After(r, rd.cursor))
  }

  // The matching records of a store.
  ghost function Matching(rs: set<Record>, q: Query): set<Record> {
    set r | r in rs && Matches(r, q)
  }

  // Cutting a listing: what is left comes after the last record of the page.
  lemma CutRecords(s: seq<Record>, n: nat)
    requires Descending(s) && n > 0
    ensures var p := Cut(s, n);
            && Descending(p.records) && (forall r | r in p.records :: r in s)
            && (p.next.Some? ==> p.records != [] && p.next.value == CursorOf(p.records[|p.records| - 1]))
            && forall r | r in s :: r in p.records || (p.next.Some? && Newer(p.records[|p.records| - 1], r))
  {
  }

  // The records a page brings.
  lemma PageRecords(now: set<Record>, q: Query, cursor: Option<Cursor>, limit: int)
    requires DistinctIds(now)
    ensures var p := PageOf(now, q, cursor, limit);
            && Descending(p.records) && (forall r | r in p.records :: r in now && Wanted(r, q, cursor))
            && (p.next.Some? ==> p.records != [] && p.next.value == CursorOf(p.records[|p.records| - 1]))
            && forall r | r in now && Wanted(r, q, cursor) ::
                 r in p.records || (p.next.Some? && Newer(p.records[|p.records| - 1], r))
  {
    CutRecords(Listing(WantedOf(now, q, cursor)), Clamp(limit));
  }

  // What is still wanted after a page is what comes after its last record.
  lemma FetchCovers(rd: Reader, q: Query, first: set<Record>, now: set<Record>, all: set<Record>, limit: int, r: Record)
    requires Standing(rd, q, first, all) && !rd.finished && first <= now <= all && DistinctIds(now)
    requires Agree(Matching(all, q)) && r in first && Matches(r, q)
    ensures var p := PageOf(now, q, rd.cursor, limit); r in rd.delivered || r in p.records || (p.next.Some? && After(r, p.next))
  {
    PageRecords(now, q, rd.cursor, limit);
    var p := PageOf(now, q, rd.cursor, limit);
    if r !in rd.delivered && r !in p.records {
      var last := p.records[|p.records| - 1];
      assert last in Matching(all, q) && r in Matching(all, q);
      assert Newer(last, r);
    }
  }

  // A page continues the descending order.
  lemma PageDescends(rd: Reader, q: Query, first: set<Record>, now: set<Record>, all: set<Record>, limit: int)
    requires Standing(rd, q, first, all) && !rd.finished && now <= all && DistinctIds(now)
    requires Agree(Matching(all, q))
    ensures Descending(rd.delivered + PageOf(now, q, rd.cursor, limit).records)
  {
    PageRecords(now, q, rd.cursor, limit);
    var p := PageOf(now, q, rd.cursor, limit);
    forall r | r in p.records && rd.delivered != []
      ensures Newer(rd.delivered[|rd.delivered| - 1], r)
    {
      var last := rd.delivered[|rd.delivered| - 1];
      assert last in Matching(all, q) && r in Matching(all, q);
      assert CursorLess(CursorOf(r), CursorOf(last));
    }
    Joined(rd.delivered, p.records);
  }

  lemma Joined(s: seq<Record>, t: seq<Record>)
    requires Descending(s) && Descending(t) && (s != [] ==> forall r | r in t :: Newer(s[|s| - 1], r))
    ensures Descending(s + t)
  {
    forall i, j | 0 <= i < |s| && 0 <= j < |t|
      ensures Newer(s[i], t[j])
    {
      assert t[j] in t;
      if i < |s| - 1 {
        NewerTransitive(s[i], s[|s| - 1], t[j]);
      }
    }
  }

  lemma FetchKeeps(rd: Reader, q: Query, first: set<Record>, req: Request, all: set<Record>)
    requires Standing(rd, q, first, all) && first <= req.store <= all && DistinctIds(req.store)
    requires Agree(Matching(all, q))
    ensures Standing(Next(rd, q, req), q, first, all)
  {
    if !rd.finished {
      PageDescends(rd, q, first, req.store, all, req.limit);
      PageRecords(req.store, q, rd.cursor, req.limit);
      forall r | r in first && Matches(r, q)
        ensures var next := Next(rd, q, req); r in next.delivered || (!next.finished && After(r, next.cursor))
      {
        FetchCovers(rd, q, first, req.store, all, req.limit, r);
      }
    }
  }

  lemma {:induction false} ReadingStands(q: Query, reqs: seq<Request>, n: nat, first: set<Record>, all: set<Record>)
    requires AllDistinct(reqs) && n <= |reqs| && Agree(Matching(all, q)) && first <= all
    requires forall i {:trigger reqs[i]} | 0 <= i < |reqs| :: first <= reqs[i].store <= all
    ensures Standing(Reading(q, reqs, n), q, first, all)
    decreases n
  {
    if n > 0 {
      ReadingStands(q, reqs, n - 1, first, all);
      FetchKeeps(Reading(q, reqs, n - 1), q, first, reqs[n - 1], all);
    }
  }

  // A page that is not the last one has at least one record.
  lemma {:induction false} ReadingProgress(q: Query, reqs: seq<Request>, n: nat)
    requires AllDistinct(reqs) && n <= |reqs|
    ensures !Reading(q, reqs, n).finished ==> |Reading(q, reqs, n).delivered| >= n
    decreases n
  {
    if n > 0 {
      ReadingProgress(q, reqs, n - 1);
      PageRecords(reqs[n - 1].store, q, Reading(q, reqs, n - 1).cursor, reqs[n - 1].limit);
    }
  }

  lemma {:induction false} DescendingOnce(s: seq<Record>, r: Record)
    requires Descending(s)
    ensures multiset(s)[r] == if r in s then 1 else 0
    decreases |s|
  {
    if s != [] {
      TailMembers(s);
      DescendingOnce(s[1..], r);
      assert s == [s[0]] + s[1..];
    }
  }

  /**
   A reader that has finished received every matching record that was there at its first request exactly once, and
   nothing twice, whatever was appended between the requests and whatever limits they had.
   */
  lemma ReadsExactlyOnce(q: Query, reqs: seq<Request>, n: nat)
    requires Growing(reqs) && n <= |reqs| && reqs != [] && Agree(Matching(reqs[|reqs| - 1].store, q))
    requires Reading(q, reqs, n).finished
    ensures forall r | r in reqs[0].store && Matches(r, q) :: multiset(Reading(q, reqs, n).delivered)[r] == 1
    ensures forall r :: multiset(Reading(q, reqs, n).delivered)[r] <= 1
    ensures forall r | r in Reading(q, reqs, n).delivered :: r in reqs[|reqs| - 1].store && Matches(r, q)
    ensures Descending(Reading(q, reqs, n).delivered)
  {
    ReadingStands(q, reqs, n, reqs[0].store, reqs[|reqs| - 1].store);
    forall r: Record
      ensures multiset(Reading(q, reqs, n).delivered)[r] == if r in Reading(q, reqs, n).delivered then 1 else 0
    {
      DescendingOnce(Reading(q, reqs, n).delivered, r);
    }
  }

  lemma {:induction false} DescendingSize(s: seq<Record>, rs: set<Record>)
    requires Descending(s) && forall r | r in s :: r in rs
    ensures |s| <= |rs|
    decreases |s|
  {
    if s != [] {
      TailMembers(s);
      DescendingSize(s[1..], rs - {s[0]});
    }
  }

  /** A reader finishes within one request more than there are matching records. */
  lemma ReadingFinishes(q: Query, reqs: seq<Request>, n: nat)
    requires Growing(reqs) && n <= |reqs| && reqs != [] && Agree(Matching(reqs[|reqs| - 1].store, q))
    requires n > |Matching(reqs[|reqs| - 1].store, q)|
    ensures Reading(q, reqs, n).finished
  {
    ReadingStands(q, reqs, n, reqs[0].store, reqs[|reqs| - 1].store);
    ReadingProgress(q, reqs, n);
    DescendingSize(Reading(q, reqs, n).delivered, Matching(reqs[|reqs| - 1].store, q));
  }

  // The requests made at some moments of a run of appends.
  ghost function RequestsAt(rs: seq<Record>, times: seq<nat>, limits: seq<int>): seq<Request>
    requires |times| == |limits| && forall k | 0 <= k < |times| :: times[k] <= |rs|
  {
    seq(|times|, k requires 0 <= k < |times| => Request(Store(rs, times[k]), limits[k]))
  }

  /** Reading while records of one UTC offset are appended is exact. */
  lemma ReadsDuringAppends(q: Query, rs: seq<Record>, offset: int, times: seq<nat>, limits: seq<int>, n: nat)
    requires NewIds(rs) && forall i | 0 <= i < |rs| :: HasOffset(rs[i].occurredAt, offset)
    requires |times| == |limits| && n <= |times| && times != [] && forall k | 0 <= k < |times| :: times[k] <= |rs|
    requires forall k, l | 0 <= k <= l < |times| :: times[k] <= times[l]
    ensures Growing(RequestsAt(rs, times, limits))
    ensures var rd := Reading(q, RequestsAt(rs, times, limits), n);
            rd.finished ==>
              (forall r | r in Store(rs, times[0]) && Matches(r, q) :: multiset(rd.delivered)[r] == 1)
              && forall r :: multiset(rd.delivered)[r] <= 1
  {
    var reqs := RequestsAt(rs, times, limits);
    forall k | 0 <= k < |reqs|
      ensures DistinctIds(reqs[k].store)
    {
      StoreIsDistinct(rs, times[k]);
    }
    forall k, l | 0 <= k <= l < |reqs|
      ensures reqs[k].store <= reqs[l].store
    {
      StoreGrows(rs, times[k], times[l]);
    }
    var last := reqs[|reqs| - 1].store;
    StoreHoldsFirst(rs, times[|times| - 1]);
    OneOffsetAgrees(Matching(last, q), offset);
    if Reading(q, reqs, n).finished {
      ReadsExactlyOnce(q, reqs, n);
    }
  }

  // ---------------------------------------------------------------------
  // When the two orders disagree
  // ---------------------------------------------------------------------

  // n requests with one limit while nothing is appended.
  ghost function Still(rs: set<Record>, limit: int, n: nat): seq<Request> { seq(n, _ => Request(rs, limit)) }

  /** Reading a store that does not change, with some number of pages of one size, is exact. */
  ghost predicate Exact(rs: set<Record>, q: Query, limit: int)
    requires DistinctIds(rs)
  {
    exists n: nat {:trigger Still(rs, limit, n)} ::
      Reading(q, Still(rs, limit, n), n).finished
      && forall r | r in rs && Matches(r, q) :: multiset(Reading(q, Still(rs, limit, n), n).delivered)[r] == 1
  }

  ghost predicate CursorsDescend(s: seq<Record>) {
    forall i, j {:trigger s[i], s[j]} | 0 <= i < j < |s| :: CursorLess(CursorOf(s[j]), CursorOf(s[i]))
  }

  ghost predicate AllNewest(s: seq<Record>, rs: set<Record>, q: Query) {
    forall i: nat {:trigger NewestAfter(s, i, rs, q)} | i < |s| :: NewestAfter(s, i, rs, q)
  }

  // Read one record at a time, the cursors descend, and each record is the newest of those after the cursor.
  ghost predicate OneByOne(s: seq<Record>, rs: set<Record>, q: Query) {
    (forall r | r in s :: r in rs && Matches(r, q)) && CursorsDescend(s) && AllNewest(s, rs, q)
  }

  ghost predicate NewestAfter(s: seq<Record>, i: nat, rs: set<Record>, q: Query)
    requires i < |s|
  {
    Newest(s[i], rs, q, LastCursor(s[..i]))
  }

  // The newest of the records that are wanted after a cursor.
  ghost predicate Newest(r: Record, rs: set<Record>, q: Query, cursor: Option<Cursor>) {
    forall x | x in rs && Wanted(x, q, cursor) && x != r :: Newer(r, x)
  }

  lemma OneMoreDescends(s: seq<Record>, r: Record)
    requires CursorsDescend(s) && After(r, LastCursor(s))
    ensures CursorsDescend(s + [r])
  {
    forall i | 0 <= i < |s|
      ensures CursorLess(CursorOf(r), CursorOf(s[i]))
    {
      if i < |s| - 1 {
        CursorTransitive(CursorOf(r), CursorOf(s[|s| - 1]), CursorOf(s[i]));
      }
    }
  }

  lemma OneMoreNewest(s: seq<Record>, r: Record, rs: set<Record>, q: Query)
    requires AllNewest(s, rs, q) && Newest(r, rs, q, LastCursor(s))
    ensures AllNewest(s + [r], rs, q)
  {
    var more := s + [r];
    forall i: nat | i < |more|
      ensures NewestAfter(more, i, rs, q)
    {
      assert more[..i] == s[..i];
      if i < |s| {
        assert NewestAfter(s, i, rs, q);
      } else {
        assert s[..i] == s;
      }
    }
  }

  // A page of one record has the newest wanted one.
  lemma PageOfOne(rs: set<Record>, q: Query, cursor: Option<Cursor>)
    requires DistinctIds(rs)
    ensures var p := PageOf(rs, q, cursor, 1);
            if p.records == [] then p.next.None?
            else |p.records| == 1 && p.records[0] in rs && Wanted(p.records[0], q, cursor) && Newest(p.records[0], rs, q, cursor)
                 && (p.next.Some? ==> p.next.value == CursorOf(p.records[0]))
  {
    var s := Listing(WantedOf(rs, q, cursor));
    if s != [] {
      assert s[0] in s && PageOf(rs, q, cursor, 1).records[0] == s[0];
      forall r | r in rs && Wanted(r, q, cursor) && r != s[0]
        ensures Newer(s[0], r)
      {
        assert r in s;
      }
    }
  }

  ghost predicate ByOneSoFar(rd: Reader, rs: set<Record>, q: Query) {
    OneByOne(rd.delivered, rs, q) && (!rd.finished ==> rd.cursor == LastCursor(rd.delivered))
  }

  lemma OneMoreByOne(rd: Reader, rs: set<Record>, q: Query)
    requires DistinctIds(rs) && ByOneSoFar(rd, rs, q)
    ensures ByOneSoFar(Next(rd, q, Request(rs, 1)), rs, q)
  {
    if rd.finished {
      return;
    }
    PageOfOne(rs, q, rd.cursor);
    var p := PageOf(rs, q, rd.cursor, 1);
    if p.records == [] {
      assert rd.delivered + p.records == rd.delivered;
    } else {
      assert p.records == [p.records[0]];
      OneMoreDescends(rd.delivered, p.records[0]);
      OneMoreNewest(rd.delivered, p.records[0], rs, q);
    }
  }

  lemma {:induction false} StillByOne(reqs: seq<Request>, rs: set<Record>, q: Query, n: nat)
    requires DistinctIds(rs) && n <= |reqs| && AllDistinct(reqs) && forall i | 0 <= i < |reqs| :: reqs[i] == Request(rs, 1)
    ensures ByOneSoFar(Reading(q, reqs, n), rs, q)
    decreases n
  {
    if n > 0 {
      StillByOne(reqs, rs, q, n - 1);
      OneMoreByOne(Reading(q, reqs, n - 1), rs, q);
    }
  }

  // A complete reading one by one is in both orders at once.
  lemma ByOneIsNewestFirst(s: seq<Record>, rs: set<Record>, q: Query, i: nat, j: nat)
    requires OneByOne(s, rs, q) && i < j < |s|
    ensures Newer(s[i], s[j]) && CursorLess(CursorOf(s[j]), CursorOf(s[i]))
  {
    assert NewestAfter(s, i, rs, q);
    CursorStrict(CursorOf(s[i]), CursorOf(s[j]));
    assert s[j] in s;
    if i > 0 {
      assert CursorLess(CursorOf(s[j]), CursorOf(s[i - 1]));
    }
  }

  lemma ByOneInBothOrders(s: seq<Record>, rs: set<Record>, q: Query, a: Record, b: Record)
    requires OneByOne(s, rs, q) && a in s && b in s
    ensures CursorLess(CursorOf(b), CursorOf(a)) <==> Newer(a, b)
  {
    var i :| 0 <= i < |s| && s[i] == a;
    var j :| 0 <= j < |s| && s[j] == b;
    NewerIsStrict(a, b);
    CursorStrict(CursorOf(a), CursorOf(b));
    if i < j {
      ByOneIsNewestFirst(s, rs, q, i, j);
    } else if j < i {
      ByOneIsNewestFirst(s, rs, q, j, i);
    }
  }

  lemma ExactByOneAgrees(rs: set<Record>, q: Query)
    requires DistinctIds(rs) && Exact(rs, q, 1)
    ensures Agree(Matching(rs, q))
  {
    var n: nat :| Reading(q, Still(rs, 1, n), n).finished
                  && forall r | r in rs && Matches(r, q) :: multiset(Reading(q, Still(rs, 1, n), n).delivered)[r] == 1;
    StillByOne(Still(rs, 1, n), rs, q, n);
    var s := Reading(q, Still(rs, 1, n), n).delivered;
    forall a, b | a in Matching(rs, q) && b in Matching(rs, q)
      ensures CursorLess(CursorOf(b), CursorOf(a)) <==> Newer(a, b)
    {
      assert multiset(s)[a] == 1 && multiset(s)[b] == 1;
      ByOneInBothOrders(s, rs, q, a, b);
    }
  }

  /** Reading is exact for every page size if and only if the two orders agree on the matching records. */
  lemma ExactIff(rs: set<Record>, q: Query)
    requires DistinctIds(rs)
    ensures (forall limit {:trigger Exact(rs, q, limit)} :: Exact(rs, q, limit)) <==> Agree(Matching(rs, q))
  {
    if Agree(Matching(rs, q)) {
      forall limit
        ensures Exact(rs, q, limit)
      {
        var n := |Matching(rs, q)| + 1;
        var reqs := Still(rs, limit, n);
        assert Growing(reqs) && reqs[n - 1].store == rs;
        ReadingFinishes(q, reqs, n);
        ReadsExactlyOnce(q, reqs, n);
      }
    }
    if forall limit {:trigger Exact(rs, q, limit)} :: Exact(rs, q, limit) {
      assert Exact(rs, q, 1);
      ExactByOneAgrees(rs, q);
    }
  }

  /** Two matching records, the earlier one with the greater text: some page size loses one of them. */
  lemma DisagreementLosesRecords(rs: set<Record>, q: Query, a: Record, b: Record)
    requires DistinctIds(rs) && a in rs && b in rs && Matches(a, q) && Matches(b, q)
    requires a.occurredAt.instant < b.occurredAt.instant && StrLess(b.occurredAt.text, a.occurredAt.text)
    ensures exists limit :: !Exact(rs, q, limit)
  {
    assert a in Matching(rs, q) && b in Matching(rs, q);
    assert Newer(b, a) && CursorLess(CursorOf(b), CursorOf(a));
    NewerIsStrict(a, b);
    ExactIff(rs, q);
  }

  // ---------------------------------------------------------------------
  // The repository and the query
  // ---------------------------------------------------------------------

  datatype Filter = ByActor | ByProject | ByResourceType | ByAction | ByResult

  const FILTERS := [ByActor, ByProject, ByResourceType, ByAction, ByResult]

  function Asked(q: Query, f: Filter): Option<string> {
    match f
    case ByActor => q.actor
    case ByProject => q.project
    case ByResourceType => q.resourceType
    case ByAction => q.action
    case ByResult => q.result
  }

  function Attribute(r: Record, f: Filter): string {
    match f
    case ByActor => r.actor
    case ByProject => Shown(r.project)
    case ByResourceType => r.resourceType
    case ByAction => r.action
    case ByResult => r.result
  }

  ghost function ValuesOf(m: map<string, Record>): set<Record> {
    set id | id in m :: m[id]
  }

  lemma ValuesMore(m: map<string, Record>, r: Record)
    requires r.id !in m
    ensures ValuesOf(m[r.id := r]) == ValuesOf(m) + {r}
  {
    var n := m[r.id := r];
    assert n[r.id] == r;
    assert forall id | id in m :: n[id] == m[id];
  }

  class AuditRepository {
    var records: map<string, Record>
    var events: set<string>

    ghost predicate Valid()
      reads this
    {
      OfEvents(records, events)
    }

    // The stored records.
    ghost function Contents(): set<Record>
      reads this
    {
      ValuesOf(records)
    }

    constructor ()
      ensures Valid() && Contents() == {}
    {
      records, events := map[], {};
    }

    /** Append a record, or give back the one its event is already recorded with. */
    method Append(record: Record) returns (stored: Record)
      requires Valid() && record.id !in records
      modifies this
      ensures Valid() && Contents() == Appended(old(Contents()), record)
      ensures stored in Contents() && stored.eventId == record.eventId
      ensures forall r | r in Contents() && r.eventId == record.eventId :: r == stored
    {
      if record.eventId in events {
        var id :| id in records && records[id].eventId == record.eventId;
        assert records[id] in Contents();
        return records[id];
      }
      ValuesMore(records, record);
      AddKeepsValid(record);
      records := records[record.id := record];
      events := events + {record.eventId};
      return record;
    }

    // Each event has one record, kept under its identifier.
    static ghost predicate OfEvents(m: map<string, Record>, es: set<string>) {
      (forall id {:trigger m[id]} | id in m :: m[id].id == id && m[id].eventId in es)
      && (forall e | e in es :: exists id {:trigger m[id]} :: id in m && m[id].eventId == e)
      && forall i, j {:trigger m[i], m[j]} | i in m && j in m && m[i].eventId == m[j].eventId :: i == j
    }

    lemma AddKeepsValid(record: Record)
      requires Valid() && record.id !in records && record.eventId !in events
      ensures OfEvents(records[record.id := record], events + {record.eventId})
      ensures forall r | r in Contents() :: r.eventId != record.eventId
    {
      var more := records[record.id := record];
      forall e | e in events + {record.eventId}
        ensures exists id {:trigger more[id]} :: id in more && more[id].eventId == e
      {
        if e == record.eventId {
          assert more[record.id].eventId == e;
        } else {
          var id :| id in records && records[id].eventId == e;
          assert more[id] == records[id];
        }
      }
    }

    /** All records, newest first. */
    method List() returns (s: seq<Record>)
      requires Valid()
      ensures Lists(s, Contents())
    {
      s := [];
      var todo := records.Keys;
      while todo != {}
        invariant todo <= records.Keys && Descending(s)
        invariant forall r :: r in s <==> exists id {:trigger records[id]} :: id in records && id !in todo && records[id] == r
        decreases todo
      {
        var id :| id in todo;
        InsertKeepsOrder(records[id], s);
        s := Insert(records[id], s);
        todo := todo - {id};
      }
    }

    // The records that satisfy a condition, in the same order.
    static method Keep(s: seq<Record>, keep: Record -> bool) returns (kept: seq<Record>)
      requires Descending(s)
      ensures Descending(kept) && forall r :: r in kept <==> r in s && keep(r)
    {
      kept := [];
      for i := 0 to |s|
        invariant Descending(kept) && forall r :: r in kept <==> r in s[..i] && keep(r)
      {
        if keep(s[i]) {
          forall r | r in kept
            ensures Newer(r, s[i])
          {
            var k :| 0 <= k < i && s[k] == r;
          }
          kept := kept + [s[i]];
        }
      }
    }

    /** One page of the records in a time range: filtered, continued after the cursor, and cut. */
    method QueryRecords(q: Query, cursor: Option<Cursor>, limit: int) returns (r: Result<Page>)
      requires Valid()
      ensures r.Err? <==> q.start.instant >= q.end.instant
      ensures r.Err? ==> r.code == "INVALID_TIME_RANGE"
      ensures r.Ok? ==> DistinctIds(Contents()) && r.value == PageOf(Contents(), q, cursor, limit)
    {
      if q.start.instant >= q.end.instant {
        return Err("INVALID_TIME_RANGE");
      }
      var all := List();
      var filtered := Keep(all, (x: Record) => q.start.instant <= x.occurredAt.instant <= q.end.instant);
      filtered := KeepAsked(q, filtered);
      if cursor.Some? {
        filtered := Keep(filtered, (x: Record) => CursorLess(CursorOf(x), cursor.value));
      }
      OneListing(filtered, Listing(WantedOf(Contents(), q, cursor)));
      return Ok(Cut(filtered, Clamp(limit)));
    }

    // The filters of the query, one after the other.
    static method KeepAsked(q: Query, s: seq<Record>) returns (filtered: seq<Record>)
      requires Descending(s)
      ensures Descending(filtered) && forall x :: x in filtered <==> x in s && AllAsked(q, x)
    {
      filtered := s;
      for i := 0 to |FILTERS|
        invariant Descending(filtered)
        invariant forall x :: x in filtered <==> x in s && forall k | 0 <= k < i :: Is(Asked(q, FILTERS[k]), Attribute(x, FILTERS[k]))
      {
        var f := FILTERS[i];
        if Asked(q, f).Some? {
          filtered := Keep(filtered, (x: Record) => Attribute(x, f) == Asked(q, f).value);
        }
      }
      forall x
        ensures (forall k | 0 <= k < |FILTERS| :: Is(Asked(q, FILTERS[k]), Attribute(x, FILTERS[k]))) <==> AllAsked(q, x)
      {
        FiltersAsk(q, x);
      }
    }

    static lemma FiltersAsk(q: Query, x: Record)
      ensures (forall k | 0 <= k < |FILTERS| :: Is(Asked(q, FILTERS[k]), Attribute(x, FILTERS[k]))) <==> AllAsked(q, x)
    {
      if forall k | 0 <= k < |FILTERS| :: Is(Asked(q, FILTERS[k]), Attribute(x, FILTERS[k])) {
        assert Is(Asked(q, FILTERS[0]), Attribute(x, FILTERS[0])) && Is(Asked(q, FILTERS[1]), Attribute(x, FILTERS[1]));
        assert Is(Asked(q, FILTERS[2]), Attribute(x, FILTERS[2])) && Is(Asked(q, FILTERS[3]), Attribute(x, FILTERS[3]));
        assert Is(Asked(q, FILTERS[4]), Attribute(x, FILTERS[4]));
      }
    }
  }
}
