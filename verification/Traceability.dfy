/**
 The traceability projection of tp-service: link events consumed at most once, and graph
 queries bounded in depth and in number of nodes.
 */
module Traceability {
  import opened Options

  const MAX_DEPTH := 8
  const MAX_LIMIT := 500

  datatype Endpoint = Endpoint(project: Uuid, domain: string, resourceType: string, resourceId: Uuid, revision: int)

  datatype Link = Link(id: Uuid, source: Endpoint, target: Endpoint, linkType: string, eventId: Uuid,
                       occurredAt: int, status: string)

  // An incoming event with its optional fields already filled in.
  datatype Event = Event(eventId: Uuid, projectId: Uuid,
                         sourceDomain: string, sourceType: string, sourceId: Uuid, sourceRevision: int,
                         targetDomain: string, targetType: string, targetId: Uuid, targetRevision: int,
                         linkType: string, linkId: Uuid, occurredAt: int, status: string)

  datatype Direction = Forward | Reverse | Both

  datatype Graph = Graph(nodes: map<Uuid, Endpoint>, links: seq<Link>, truncated: bool, stale: bool, broken: bool,
                         completeness: string)

  // ---------------------------------------------------------------------
  // Consuming events
  // ---------------------------------------------------------------------

  /** The projection: a dictionary of links in insertion order, and what was consumed. */
  datatype Projection = Projection(links: seq<Link>, consumed: set<Uuid>, last: Option<int>)

  const EMPTY := Projection([], {}, None)

  function LinkOf(e: Event): Link {
    Link(e.linkId,
         Endpoint(e.projectId, e.sourceDomain, e.sourceType, e.sourceId, e.sourceRevision),
         Endpoint(e.projectId, e.targetDomain, e.targetType, e.targetId, e.targetRevision),
         e.linkType, e.eventId, e.occurredAt, e.status)
  }

  predicate SelfLink(e: Event) { e.sourceDomain == e.targetDomain && e.sourceId == e.targetId }

  predicate KnownStatus(e: Event) { e.status in ["active", "superseded", "broken"] }

  predicate WellFormed(e: Event) { !SelfLink(e) && KnownStatus(e) }

  predicate UniqueIds(links: seq<Link>) {
    forall i, j | 0 <= i < j < |links| :: links[i].id != links[j].id
  }

  // Writing links[link.id] = link: an existing key keeps its place.
  function Put(links: seq<Link>, link: Link): seq<Link> {
    if links == [] then [link]
    else if links[0].id == link.id then [link] + links[1..]
    else [links[0]] + Put(links[1..], link)
  }

  predicate HasId(links: seq<Link>, id: Uuid) { exists i :: 0 <= i < |links| && links[i].id == id }

  /** Put appends a link with a new id and otherwise replaces the one that has its id. */
  lemma {:induction false} PutShape(links: seq<Link>, link: Link) returns (i: nat)
    ensures i <= |links|
    ensures i == |links| ==> Put(links, link) == links + [link] && !HasId(links, link.id)
    ensures i < |links| ==> links[i].id == link.id && Put(links, link) == links[i := link]
  {
    if links == [] || links[0].id == link.id {
      i := 0;
    } else {
      var j := PutShape(links[1..], link);
      i := j + 1;
      assert links == [links[0]] + links[1..];
      if HasId(links, link.id) {
        var k :| 0 <= k < |links| && links[k].id == link.id;
        assert links[1..][k - 1].id == link.id;
      }
    }
  }

  lemma PutKeepsUnique(links: seq<Link>, link: Link)
    requires UniqueIds(links)
    ensures UniqueIds(Put(links, link))
  {
    var i := PutShape(links, link);
  }

  function FirstOfEvent(links: seq<Link>, eventId: Uuid): (r: Option<Link>)
    ensures r.Some? ==> r.value in links && r.value.eventId == eventId
    ensures r.None? ==> forall l | l in links :: l.eventId != eventId
  {
    if links == [] then None
    else if links[0].eventId == eventId then Some(links[0])
    else FirstOfEvent(links[1..], eventId)
  }

  function Latest(last: Option<int>, t: int): int {
    if last.Some? && last.value > t then last.value else t
  }

  function ConsumeEvent(s: Projection, e: Event): (Projection, Result<Link>) {
    if e.eventId in s.consumed then
      var known := FirstOfEvent(s.links, e.eventId);
      (s, if known.Some? then Ok(known.value) else Err("StopIteration"))
    else if SelfLink(e) then (s, Err("INVALID_TRACE_LINK"))
    else if !KnownStatus(e) then (s, Err("INVALID_TRACE_STATUS"))
    else
      (Projection(Put(s.links, LinkOf(e)), s.consumed + {e.eventId}, Some(Latest(s.last, e.occurredAt))), Ok(LinkOf(e)))
  }

  function ConsumeAll(es: seq<Event>): Projection {
    if es == [] then EMPTY else ConsumeEvent(ConsumeAll(es[..|es| - 1]), es[|es| - 1]).0
  }

  ghost function Accepted(es: set<Event>): set<Event> { set e | e in es && WellFormed(e) }

  ghost function Elements(es: seq<Event>): set<Event> { set e | e in es }

  ghost predicate IsLatest(es: set<Event>, last: Option<int>) {
    (last.None? <==> es == {}) &&
    (last.Some? ==> (exists e | e in es :: e.occurredAt == last.value)
                    && forall e | e in es :: e.occurredAt <= last.value)
  }

  ghost function LinkSet(links: seq<Link>): set<Link> { set l | l in links }

  /** The projection as it follows from the set of accepted events alone. */
  ghost predicate Summarizes(s: Projection, accepted: set<Event>) {
    && LinkSet(s.links) == (set e | e in accepted :: LinkOf(e))
    && s.consumed == (set e | e in accepted :: e.eventId)
    && IsLatest(accepted, s.last)
  }

  /** The events that can be recorded have their own event ids and their own link ids. */
  ghost predicate Coherent(es: set<Event>) {
    forall d, e | d in Accepted(es) && e in Accepted(es) && (d.eventId == e.eventId || d.linkId == e.linkId) :: d == e
  }

  lemma NewEvent(s: Projection, accepted: set<Event>, e: Event)
    requires Summarizes(s, accepted) && WellFormed(e)
    requires forall d | d in accepted :: d.eventId != e.eventId && d.linkId != e.linkId
    ensures Summarizes(ConsumeEvent(s, e).0, accepted + {e})
  {
    var t := ConsumeEvent(s, e).0;
    var i := PutShape(s.links, LinkOf(e));
    assert forall k | 0 <= k < |s.links| :: s.links[k] in LinkSet(s.links);
    forall l
      ensures l in LinkSet(t.links) <==> l in LinkSet(s.links) || l == LinkOf(e)
    {
    }
  }

  lemma {:induction false} ConsumeAllSummarizes(es: seq<Event>)
    requires Coherent(Elements(es))
    ensures Summarizes(ConsumeAll(es), Accepted(Elements(es)))
  {
    if es != [] {
      var init, e := es[..|es| - 1], es[|es| - 1];
      assert Elements(es) == Elements(init) + {e};
      ConsumeAllSummarizes(init);
      var accepted := Accepted(Elements(init));
      if e.eventId in ConsumeAll(init).consumed || !WellFormed(e) {
        assert Accepted(Elements(es)) == accepted;
      } else {
        assert Accepted(Elements(es)) == accepted + {e};
        assert e !in accepted;
        NewEvent(ConsumeAll(init), accepted, e);
      }
    }
  }

  /** Any order and any repetition of the same events gives the same projection. */
  lemma Converges(es: seq<Event>, ds: seq<Event>)
    requires Elements(es) == Elements(ds) && Coherent(Elements(es))
    ensures LinkSet(ConsumeAll(es).links) == LinkSet(ConsumeAll(ds).links)
    ensures ConsumeAll(es).consumed == ConsumeAll(ds).consumed
    ensures ConsumeAll(es).last == ConsumeAll(ds).last
  {
    ConsumeAllSummarizes(es);
    ConsumeAllSummarizes(ds);
  }

  /** Every sequence of the events of a set gives the same links, consumed ids and last time. */
  ghost predicate OrderFree(s: set<Event>) {
    forall es, ds {:trigger Elements(es), Elements(ds)} | Elements(es) == s && Elements(ds) == s ::
      LinkSet(ConsumeAll(es).links) == LinkSet(ConsumeAll(ds).links)
      && ConsumeAll(es).consumed == ConsumeAll(ds).consumed && ConsumeAll(es).last == ConsumeAll(ds).last
  }

  // One link per link id and per event id, and every recorded event id is an event's.
  ghost predicate OneLinkEach(s: Projection) {
    UniqueIds(s.links) && UniqueEvents(s.links) && forall i | 0 <= i < |s.links| :: s.links[i].eventId in s.consumed
  }

  predicate UniqueEvents(links: seq<Link>) { forall i, j | 0 <= i < j < |links| :: links[i].eventId != links[j].eventId }

  lemma PutKeepsEvents(links: seq<Link>, link: Link)
    requires UniqueEvents(links) && forall i | 0 <= i < |links| :: links[i].eventId != link.eventId
    ensures UniqueEvents(Put(links, link))
  {
    var i := PutShape(links, link);
  }

  lemma PutHolds(links: seq<Link>, link: Link, events: set<Uuid>)
    requires forall i | 0 <= i < |links| :: links[i].eventId in events
    ensures var more := Put(links, link); forall i | 0 <= i < |more| :: more[i].eventId in events + {link.eventId}
  {
    var i := PutShape(links, link);
  }

  lemma StepOneLinkEach(s: Projection, e: Event)
    requires OneLinkEach(s)
    ensures OneLinkEach(ConsumeEvent(s, e).0)
  {
    if e.eventId !in s.consumed && WellFormed(e) {
      PutKeepsUnique(s.links, LinkOf(e));
      PutKeepsEvents(s.links, LinkOf(e));
      PutHolds(s.links, LinkOf(e), s.consumed);
      assert ConsumeEvent(s, e).0.links == Put(s.links, LinkOf(e));
      assert ConsumeEvent(s, e).0.consumed == s.consumed + {LinkOf(e).eventId};
    }
  }

  lemma {:induction false} ConsumeAllOneLinkEach(es: seq<Event>)
    ensures OneLinkEach(ConsumeAll(es))
    ensures forall id | id in ConsumeAll(es).consumed :: exists e :: e in es && e.eventId == id
  {
    if es != [] {
      var init, e := es[..|es| - 1], es[|es| - 1];
      ConsumeAllOneLinkEach(init);
      StepOneLinkEach(ConsumeAll(init), e);
      forall id | id in ConsumeAll(es).consumed
        ensures exists d :: d in es && d.eventId == id
      {
        if id in ConsumeAll(init).consumed {
          var d :| d in init && d.eventId == id;
          assert d in es;
        } else {
          assert e in es && e.eventId == id;
        }
      }
    }
  }

  lemma ElementsConcat(a: seq<Event>, b: seq<Event>)
    ensures Elements(a + b) == Elements(a) + Elements(b)
  {
    forall e
      ensures e in a + b <==> e in a || e in b
    {
    }
  }

  lemma {:induction false} Enumeration(s: set<Event>)
    ensures exists es :: Elements(es) == s
  {
    if s == {} {
      assert Elements([]) == s;
    } else {
      var e :| e in s;
      Enumeration(s - {e});
      var es :| Elements(es) == s - {e};
      ElementsConcat(es, [e]);
    }
  }

  lemma PutKeepsOthers(links: seq<Link>, link: Link, l: Link)
    requires l in links && l.id != link.id
    ensures l in Put(links, link)
  {
    var k :| 0 <= k < |links| && links[k] == l;
    var i := PutShape(links, link);
    assert Put(links, link)[k] == l;
  }

  lemma StepKeepsLink(s: Projection, d: Event, e: Event)
    requires LinkOf(d) in s.links && d.eventId in s.consumed && (e.linkId == d.linkId ==> e.eventId == d.eventId)
    ensures LinkOf(d) in ConsumeEvent(s, e).0.links && d.eventId in ConsumeEvent(s, e).0.consumed
  {
    if e.linkId != d.linkId {
      PutKeepsOthers(s.links, LinkOf(e), LinkOf(d));
    }
  }

  // A link stays while no other event is recorded under its id.
  lemma {:induction false} LinkStays(before: seq<Event>, after: seq<Event>, d: Event)
    requires LinkOf(d) in ConsumeAll(before).links && d.eventId in ConsumeAll(before).consumed
    requires forall e | e in after :: e.linkId == d.linkId ==> e.eventId == d.eventId
    ensures LinkOf(d) in ConsumeAll(before + after).links && d.eventId in ConsumeAll(before + after).consumed
    decreases |after|
  {
    if after == [] {
      assert before + after == before;
    } else {
      var init, e := after[..|after| - 1], after[|after| - 1];
      LinkStays(before, init, d);
      assert (before + after)[..|before + after| - 1] == before + init;
      StepKeepsLink(ConsumeAll(before + init), d, e);
    }
  }

  // A recorded event puts its link.
  lemma LinkIsPut(before: seq<Event>, d: Event)
    requires WellFormed(d) && d.eventId !in ConsumeAll(before).consumed
    ensures LinkOf(d) in ConsumeAll(before + [d]).links && d.eventId in ConsumeAll(before + [d]).consumed
  {
    assert (before + [d])[..|before + [d]| - 1] == before;
    var links := ConsumeAll(before).links;
    var i := PutShape(links, LinkOf(d));
    assert Put(links, LinkOf(d))[i] == LinkOf(d);
  }

  /** Each event that can be recorded survives some order: after those that share its link id, before all others. */
  lemma SurvivingOrder(s: set<Event>, d: Event)
    requires d in Accepted(s)
    ensures exists es :: Elements(es) == s && LinkOf(d) in ConsumeAll(es).links
  {
    var rivals := set e | e in s && e.linkId == d.linkId && e.eventId != d.eventId;
    Enumeration(rivals);
    Enumeration(s - rivals - {d});
    var before :| Elements(before) == rivals;
    var after :| Elements(after) == s - rivals - {d};
    forall e: Event | e in before
      ensures e.eventId != d.eventId
    {
      assert e in Elements(before);
    }
    ConsumeAllOneLinkEach(before);
    LinkIsPut(before, d);
    forall e: Event | e in after
      ensures e.linkId == d.linkId ==> e.eventId == d.eventId
    {
      assert e in Elements(after);
    }
    LinkStays(before + [d], after, d);
    ElementsConcat(before, [d]);
    ElementsConcat(before + [d], after);
    assert Elements(before + [d] + after) == s;
  }

  /** Two events that share an id cannot both keep their links. */
  lemma RivalsExclude(es: seq<Event>, d: Event, e: Event)
    requires d != e && (d.eventId == e.eventId || d.linkId == e.linkId)
    ensures LinkOf(d) !in ConsumeAll(es).links || LinkOf(e) !in ConsumeAll(es).links
  {
    ConsumeAllOneLinkEach(es);
  }

  /** Delivery order does not matter if and only if the events that can be recorded have their own ids. */
  lemma ConvergesIff(s: set<Event>)
    ensures OrderFree(s) <==> Coherent(s)
  {
    if Coherent(s) {
      forall es, ds | Elements(es) == s && Elements(ds) == s
        ensures LinkSet(ConsumeAll(es).links) == LinkSet(ConsumeAll(ds).links)
        ensures ConsumeAll(es).consumed == ConsumeAll(ds).consumed && ConsumeAll(es).last == ConsumeAll(ds).last
      {
        Converges(es, ds);
      }
    }
    forall d, e | OrderFree(s) && d in Accepted(s) && e in Accepted(s) && (d.eventId == e.eventId || d.linkId == e.linkId)
      ensures d == e
    {
      SurvivingOrder(s, d);
      SurvivingOrder(s, e);
      var es :| Elements(es) == s && LinkOf(d) in ConsumeAll(es).links;
      var ds :| Elements(ds) == s && LinkOf(e) in ConsumeAll(ds).links;
      assert LinkOf(e) in LinkSet(ConsumeAll(ds).links);
      assert LinkOf(e) in LinkSet(ConsumeAll(es).links);
      if d != e {
        RivalsExclude(es, d, e);
      }
    }
  }

  lemma LaterWins(d: Event, e: Event)
    requires WellFormed(d) && WellFormed(e) && d.eventId != e.eventId && d.linkId == e.linkId
    ensures ConsumeAll([d, e]).links == [LinkOf(e)] && ConsumeAll([d, e]).consumed == {d.eventId, e.eventId}
  {
    assert [d, e][..1] == [d] && [d][..0] == [];
    assert ConsumeAll([d]) == ConsumeEvent(EMPTY, d).0;
    assert ConsumeAll([d]).links == [LinkOf(d)];
  }

  ghost predicate Linked(s: Projection, eventId: Uuid) { exists l :: l in s.links && l.eventId == eventId }

  lemma StepLinksOnlyNew(s: Projection, e: Event, eventId: Uuid)
    requires eventId in s.consumed && !Linked(s, eventId)
    ensures eventId in ConsumeEvent(s, e).0.consumed && !Linked(ConsumeEvent(s, e).0, eventId)
  {
    var i := PutShape(s.links, LinkOf(e));
    forall l | l in Put(s.links, LinkOf(e))
      ensures l in s.links || l == LinkOf(e)
    {
    }
  }

  // A consumed event is not recorded again, so its link never comes back.
  lemma {:induction false} LinkNeverReturns(before: seq<Event>, after: seq<Event>, eventId: Uuid)
    requires eventId in ConsumeAll(before).consumed && !Linked(ConsumeAll(before), eventId)
    ensures eventId in ConsumeAll(before + after).consumed && !Linked(ConsumeAll(before + after), eventId)
    decreases |after|
  {
    if after == [] {
      assert before + after == before;
    } else {
      var init, e := after[..|after| - 1], after[|after| - 1];
      LinkNeverReturns(before, init, eventId);
      assert (before + after)[..|before + after| - 1] == before + init;
      StepLinksOnlyNew(ConsumeAll(before + init), e, eventId);
    }
  }

  /** An event whose link was overwritten is consumed, but every later delivery of it raises. */
  lemma OverwrittenRedeliveryRaises(d: Event, e: Event, after: seq<Event>)
    requires WellFormed(d) && WellFormed(e) && d.eventId != e.eventId && d.linkId == e.linkId
    ensures d.eventId in ConsumeAll([d, e] + after).consumed
    ensures ConsumeEvent(ConsumeAll([d, e] + after), d).1 == Err("StopIteration")
  {
    LaterWins(d, e);
    LinkNeverReturns([d, e], after, d.eventId);
    var s := ConsumeAll([d, e] + after);
    assert FirstOfEvent(s.links, d.eventId).Some? ==> Linked(s, d.eventId);
  }

  /** The events that can be recorded share a link id only with events of their own event id. */
  ghost predicate OwnLinkIds(s: set<Event>) {
    forall d, e | d in Accepted(s) && e in Accepted(s) && d.linkId == e.linkId :: d.eventId == e.eventId
  }

  /** Every event that was consumed is answered with a link when it is delivered again. */
  ghost predicate RepeatsAnswered(es: seq<Event>) {
    forall e: Event | e.eventId in ConsumeAll(es).consumed :: ConsumeEvent(ConsumeAll(es), e).1.Ok?
  }

  // Recording an event takes away only a link of its own event id.
  lemma StepKeepsLinked(s: Projection, e: Event, eventId: Uuid)
    requires e.eventId !in s.consumed && WellFormed(e)
    requires forall l | l in s.links && l.id == e.linkId :: l.eventId == e.eventId
    requires eventId == e.eventId || Linked(s, eventId)
    ensures Linked(ConsumeEvent(s, e).0, eventId)
  {
    var i := PutShape(s.links, LinkOf(e));
    assert Put(s.links, LinkOf(e))[i] == LinkOf(e);
    if eventId != e.eventId {
      var l :| l in s.links && l.eventId == eventId;
      PutKeepsOthers(s.links, LinkOf(e), l);
    }
  }

  lemma {:induction false} OwnLinkIdsStayLinked(es: seq<Event>)
    requires OwnLinkIds(Elements(es))
    ensures forall id | id in ConsumeAll(es).consumed :: Linked(ConsumeAll(es), id)
    ensures forall l | l in ConsumeAll(es).links :: exists d :: d in Accepted(Elements(es)) && LinkOf(d) == l
  {
    if es != [] {
      var init, e := es[..|es| - 1], es[|es| - 1];
      assert Elements(es) == Elements(init) + {e};
      OwnLinkIdsStayLinked(init);
      var s := ConsumeAll(init);
      if e.eventId !in s.consumed && WellFormed(e) {
        assert e in Accepted(Elements(es));
        var i := PutShape(s.links, LinkOf(e));
        forall l | l in Put(s.links, LinkOf(e))
          ensures exists d :: d in Accepted(Elements(es)) && LinkOf(d) == l
        {
          assert l == LinkOf(e) || l in s.links;
        }
        forall id | id in ConsumeAll(es).consumed
          ensures Linked(ConsumeAll(es), id)
        {
          StepKeepsLinked(s, e, id);
        }
      }
    }
  }

  /** Repeated deliveries are answered after every order if and only if no two event ids claim one link id. */
  lemma RepeatsAnsweredIff(s: set<Event>)
    ensures (forall es {:trigger Elements(es)} | Elements(es) == s :: RepeatsAnswered(es)) <==> OwnLinkIds(s)
  {
    forall es | OwnLinkIds(s) && Elements(es) == s
      ensures RepeatsAnswered(es)
    {
      OwnLinkIdsStayLinked(es);
      forall e: Event | e.eventId in ConsumeAll(es).consumed
        ensures ConsumeEvent(ConsumeAll(es), e).1.Ok?
      {
        assert Linked(ConsumeAll(es), e.eventId);
      }
    }
    forall d, e | d in Accepted(s) && e in Accepted(s) && d.linkId == e.linkId && d.eventId != e.eventId
      ensures exists es {:trigger Elements(es)} :: Elements(es) == s && !RepeatsAnswered(es)
    {
      Enumeration(s - {d, e});
      var after :| Elements(after) == s - {d, e};
      ElementsConcat([d, e], after);
      OverwrittenRedeliveryRaises(d, e, after);
      assert Elements([d, e]) == {d, e};
      assert Elements([d, e] + after) == s;
    }
  }

  // ---------------------------------------------------------------------
  // The neighbourhood of a resource
  // ---------------------------------------------------------------------

  predicate Ahead(d: Direction) { d.Forward? || d.Both? }

  predicate Back(d: Direction) { d.Reverse? || d.Both? }

  // The query may follow the link from this resource.
  predicate Touches(l: Link, d: Direction, u: Uuid) {
    (Ahead(d) && l.source.resourceId == u) || (Back(d) && l.target.resourceId == u)
  }

  predicate Eligible(l: Link, d: Direction, from: set<Uuid>) {
    (Ahead(d) && l.source.resourceId in from) || (Back(d) && l.target.resourceId in from)
  }

  // One link joins u to v in the direction of the query.
  predicate Joins(l: Link, d: Direction, u: Uuid, v: Uuid) {
    (Ahead(d) && l.source.resourceId == u && l.target.resourceId == v)
    || (Back(d) && l.target.resourceId == u && l.source.resourceId == v)
  }

  /** There is a walk of exactly k links from the root to v. */
  ghost predicate Walk(links: set<Link>, d: Direction, root: Uuid, v: Uuid, k: nat)
    decreases k
  {
    if k == 0 then v == root
    else exists u, l {:trigger Joins(l, d, u, v)} | l in links :: Joins(l, d, u, v) && Walk(links, d, root, u, k - 1)
  }

  /** Forward goes from source to target, reverse from target to source, and both either way. */
  lemma JoinsIff(l: Link, u: Uuid, v: Uuid)
    ensures Joins(l, Forward, u, v) <==> l.source.resourceId == u && l.target.resourceId == v
    ensures Joins(l, Reverse, u, v) <==> l.target.resourceId == u && l.source.resourceId == v
    ensures Joins(l, Both, u, v) <==> Joins(l, Forward, u, v) || Joins(l, Forward, v, u)
  {
  }

  /** The distance of v from the root is at most k. */
  ghost predicate Near(links: set<Link>, d: Direction, root: Uuid, v: Uuid, k: nat) {
    exists j: nat :: j <= k && Walk(links, d, root, v, j)
  }

  /** The link can be followed from a resource at distance at most k. */
  ghost predicate Reached(links: set<Link>, d: Direction, root: Uuid, l: Link, k: nat) {
    exists u :: Touches(l, d, u) && Near(links, d, root, u, k)
  }

  /** The whole neighbourhood: links that can be followed from a resource nearer than depth. */
  ghost function Neighbourhood(links: set<Link>, d: Direction, root: Uuid, depth: nat): set<Link>
    requires depth > 0
  {
    set l | l in links && Reached(links, d, root, l, depth - 1)
  }

  ghost function NodeIds(links: set<Link>): set<Uuid> {
    (set l | l in links :: l.source.resourceId) + (set l | l in links :: l.target.resourceId)
  }

  lemma NearSucc(links: set<Link>, d: Direction, root: Uuid, v: Uuid, k: nat)
    ensures Near(links, d, root, v, k + 1) <==>
            Near(links, d, root, v, k) || exists u, l {:trigger Joins(l, d, u, v)} | l in links ::
              Joins(l, d, u, v) && Near(links, d, root, u, k)
  {
    if Near(links, d, root, v, k + 1) {
      var j: nat :| j <= k + 1 && Walk(links, d, root, v, j);
      if j > k {
        var u, l :| l in links && Joins(l, d, u, v) && Walk(links, d, root, u, j - 1);
        assert Near(links, d, root, u, k);
      }
    }
    if u, l :| l in links && Joins(l, d, u, v) && Near(links, d, root, u, k) {
      var j: nat :| j <= k && Walk(links, d, root, u, j);
      assert Walk(links, d, root, v, j + 1);
    }
  }

  lemma NearZero(links: set<Link>, d: Direction, root: Uuid, v: Uuid)
    ensures Near(links, d, root, v, 0) <==> v == root
  {
    assert Walk(links, d, root, root, 0);
  }

  lemma NearMore(links: set<Link>, d: Direction, root: Uuid, v: Uuid, j: nat, k: nat)
    requires j <= k && Near(links, d, root, v, j)
    ensures Near(links, d, root, v, k)
  {
  }

  // ---------------------------------------------------------------------
  // One round of the traversal
  // ---------------------------------------------------------------------

  /**
   What the frontier of round k is worth. It may hold resources that are nearer than k, since
   nothing is marked as visited, but no resource at distance exactly k is missing.
   */
  ghost predicate Frontier(links: set<Link>, d: Direction, root: Uuid, k: nat, frontier: set<Uuid>) {
    && (forall v | v in frontier :: Near(links, d, root, v, k))
    && (forall v | Near(links, d, root, v, k) && (k == 0 || !Near(links, d, root, v, k - 1)) :: v in frontier)
  }

  // The one endpoint that the traversal steps to.
  function StepTo(l: Link, d: Direction, frontier: set<Uuid>): Uuid {
    if Ahead(d) && l.source.resourceId in frontier then l.target.resourceId else l.source.resourceId
  }

  ghost function NextFrontier(links: set<Link>, d: Direction, frontier: set<Uuid>): set<Uuid> {
    set l | l in links && Eligible(l, d, frontier) :: StepTo(l, d, frontier)
  }

  /** Stepping to one endpoint only never loses a resource at the next distance. */
  lemma NextIsFrontier(links: set<Link>, d: Direction, root: Uuid, k: nat, frontier: set<Uuid>)
    requires Frontier(links, d, root, k, frontier)
    ensures Frontier(links, d, root, k + 1, NextFrontier(links, d, frontier))
  {
    var next := NextFrontier(links, d, frontier);
    forall v | v in next
      ensures Near(links, d, root, v, k + 1)
    {
      var l :| l in links && Eligible(l, d, frontier) && StepTo(l, d, frontier) == v;
      var u := if Ahead(d) && l.source.resourceId in frontier then l.source.resourceId else l.target.resourceId;
      assert Joins(l, d, u, v);
      NearSucc(links, d, root, v, k);
    }
    forall v | Near(links, d, root, v, k + 1) && !Near(links, d, root, v, k)
      ensures v in next
    {
      NearSucc(links, d, root, v, k);
      var u, l :| l in links && Joins(l, d, u, v) && Near(links, d, root, u, k);
      if k > 0 && Near(links, d, root, u, k - 1) {
        NearSucc(links, d, root, v, k - 1);
      }
      // v itself is too far out to be in the frontier, so the step cannot go back to u
      assert u in frontier && v !in frontier;
      assert Eligible(l, d, frontier) && StepTo(l, d, frontier) == v;
    }
  }

  /** What a round can follow: what was followed before, and what its frontier touches. */
  lemma ReachedByRound(links: set<Link>, d: Direction, root: Uuid, k: nat, frontier: set<Uuid>, l: Link)
    requires Frontier(links, d, root, k, frontier)
    ensures Reached(links, d, root, l, k) <==>
            Eligible(l, d, frontier) || (k > 0 && Reached(links, d, root, l, k - 1))
  {
  }

  /** An empty next frontier means that nothing lies further out. */
  lemma {:induction false} NothingFurther(links: set<Link>, d: Direction, root: Uuid, k: nat, j: nat, frontier: set<Uuid>,
                                          l: Link)
    requires Frontier(links, d, root, k, frontier) && NextFrontier(links, d, frontier) == {} && k <= j
    ensures Reached(links, d, root, l, j) <==> Reached(links, d, root, l, k)
    decreases j - k
  {
    if k < j {
      NextIsFrontier(links, d, root, k, frontier);
      assert NextFrontier(links, d, {}) == {};
      NothingFurther(links, d, root, k + 1, j, {}, l);
      ReachedByRound(links, d, root, k + 1, {}, l);
    }
  }

  // ---------------------------------------------------------------------
  // The answer
  // ---------------------------------------------------------------------

  // The node map: a later link overwrites the endpoint recorded by an earlier one.
  function NodeMap(selected: seq<Link>): map<Uuid, Endpoint> {
    if selected == [] then map[]
    else AddNodes(NodeMap(selected[..|selected| - 1]), selected[|selected| - 1])
  }

  function AddNodes(nodes: map<Uuid, Endpoint>, l: Link): map<Uuid, Endpoint> {
    nodes[l.source.resourceId := l.source][l.target.resourceId := l.target]
  }

  lemma {:induction false} NodeMapKeys(selected: seq<Link>)
    ensures NodeMap(selected).Keys == NodeIds(LinkSet(selected))
  {
    if selected != [] {
      var init, l := selected[..|selected| - 1], selected[|selected| - 1];
      NodeMapKeys(init);
      assert LinkSet(selected) == LinkSet(init) + {l};
    }
  }

  predicate Distinct(ls: seq<Link>) { forall i, j | 0 <= i < j < |ls| :: ls[i] != ls[j] }

  // The first visible link that can be followed from the root.
  ghost predicate IsFirst(visible: seq<Link>, d: Direction, from: set<Uuid>, i: nat) {
    i < |visible| && Eligible(visible[i], d, from) && forall j | 0 <= j < i :: !Eligible(visible[j], d, from)
  }

  // The first link alone has more nodes than the limit allows.
  ghost predicate FirstTooBig(visible: seq<Link>, d: Direction, from: set<Uuid>, limit: nat) {
    exists i: nat :: IsFirst(visible, d, from, i)
                     && |{visible[i].source.resourceId, visible[i].target.resourceId}| > limit
  }

  ghost predicate Isolated(visible: seq<Link>, d: Direction, from: set<Uuid>) {
    forall l | l in visible :: !Eligible(l, d, from)
  }

  // LinkSet, one link at a time.
  ghost function Gathered(selected: seq<Link>): set<Link> {
    if selected == [] then {} else Gathered(selected[..|selected| - 1]) + {selected[|selected| - 1]}
  }

  lemma {:induction false} GatheredIsLinkSet(selected: seq<Link>)
    ensures Gathered(selected) == LinkSet(selected)
  {
    if selected != [] {
      GatheredIsLinkSet(selected[..|selected| - 1]);
    }
  }

  lemma GatherOne(selected: seq<Link>, l: Link)
    ensures Distinct(selected) && l !in selected ==> Distinct(selected + [l])
    ensures Gathered(selected + [l]) == Gathered(selected) + {l}
    ensures l in selected ==> Gathered(selected) == Gathered(selected) + {l}
    ensures NodeMap(selected + [l]) == AddNodes(NodeMap(selected), l)
  {
    assert (selected + [l])[..|selected|] == selected;
    GatheredIsLinkSet(selected);
  }

  // The links selected before a round and those it follows among the first i visible ones.
  ghost function Followed(before: set<Link>, visible: seq<Link>, d: Direction, from: set<Uuid>, i: nat): set<Link>
    requires i <= |visible|
    decreases i
  {
    if i == 0 then before
    else if Eligible(visible[i - 1], d, from) then Followed(before, visible, d, from, i - 1) + {visible[i - 1]}
    else Followed(before, visible, d, from, i - 1)
  }

  // The resources that it steps to.
  ghost function SteppedTo(visible: seq<Link>, d: Direction, from: set<Uuid>, i: nat): set<Uuid>
    requires i <= |visible|
  {
    if i == 0 then {}
    else if Eligible(visible[i - 1], d, from) then
      SteppedTo(visible, d, from, i - 1) + {StepTo(visible[i - 1], d, from)}
    else SteppedTo(visible, d, from, i - 1)
  }

  lemma RoundStep(before: set<Link>, visible: seq<Link>, d: Direction, from: set<Uuid>, i: nat)
    requires i < |visible|
    ensures Eligible(visible[i], d, from) ==>
              SteppedTo(visible, d, from, i + 1) == SteppedTo(visible, d, from, i) + {StepTo(visible[i], d, from)}
              && Followed(before, visible, d, from, i + 1) == Followed(before, visible, d, from, i) + {visible[i]}
    ensures !Eligible(visible[i], d, from) ==>
              SteppedTo(visible, d, from, i + 1) == SteppedTo(visible, d, from, i)
              && Followed(before, visible, d, from, i + 1) == Followed(before, visible, d, from, i)
  {
  }

  lemma {:induction false} FollowedMembers(before: set<Link>, visible: seq<Link>, d: Direction, from: set<Uuid>, i: nat)
    requires i <= |visible|
    ensures forall l :: l in Followed(before, visible, d, from, i) <==>
                        l in before || (l in visible[..i] && Eligible(l, d, from))
    decreases i
  {
    if i > 0 {
      FollowedMembers(before, visible, d, from, i - 1);
      assert visible[..i] == visible[..i - 1] + [visible[i - 1]];
    }
  }

  lemma {:induction false} SteppedToMembers(visible: seq<Link>, d: Direction, from: set<Uuid>, i: nat)
    requires i <= |visible|
    ensures forall u :: u in SteppedTo(visible, d, from, i) <==>
                        exists l | l in visible[..i] :: Eligible(l, d, from) && StepTo(l, d, from) == u
    decreases i
  {
    if i > 0 {
      SteppedToMembers(visible, d, from, i - 1);
      assert visible[..i] == visible[..i - 1] + [visible[i - 1]];
    }
  }

  lemma SteppedToAll(visible: seq<Link>, d: Direction, from: set<Uuid>)
    ensures SteppedTo(visible, d, from, |visible|) == NextFrontier(LinkSet(visible), d, from)
  {
    SteppedToMembers(visible, d, from, |visible|);
    assert visible[..|visible|] == visible;
  }

  lemma {:induction false} FollowedMonotone(before: set<Link>, visible: seq<Link>, d: Direction, from: set<Uuid>,
                                            i: nat, j: nat)
    requires i <= j <= |visible|
    ensures Followed(before, visible, d, from, i) <= Followed(before, visible, d, from, j)
    decreases j - i
  {
    if i < j {
      FollowedMonotone(before, visible, d, from, i, j - 1);
    }
  }

  ghost predicate Overflows(links: set<Link>, limit: nat) { |NodeIds(links)| > limit }

  lemma NodeMapAdd(selected: seq<Link>, l: Link)
    ensures LinkSet(selected + [l]) == LinkSet(selected) + {l}
    ensures NodeMap(selected + [l]) == AddNodes(NodeMap(selected), l)
    ensures NodeMap(selected + [l]).Keys == NodeIds(LinkSet(selected) + {l})
    ensures selected == [] ==> NodeMap(selected + [l]).Keys == {l.source.resourceId, l.target.resourceId}
  {
    assert (selected + [l])[..|selected|] == selected;
    NodeMapKeys(selected + [l]);
  }

  /** A refused link shows that the links followed in full would have too many nodes. */
  lemma TooMany(visible: seq<Link>, d: Direction, from: set<Uuid>, at: nat, before: set<Link>, selected: seq<Link>,
                limit: nat)
    requires at < |visible| && Eligible(visible[at], d, from)
    requires Gathered(selected) == Followed(before, visible, d, from, at)
    requires |NodeMap(selected + [visible[at]])| > limit
    ensures Overflows(Followed(before, visible, d, from, |visible|), limit)
    ensures Gathered(selected) <= Followed(before, visible, d, from, |visible|)
  {
    GatheredIsLinkSet(selected);
    NodeMapAdd(selected, visible[at]);
    FollowedMonotone(before, visible, d, from, at, at + 1);
    FollowedMonotone(before, visible, d, from, at + 1, |visible|);
    var m := NodeMap(selected + [visible[at]]);
    assert |m.Keys| == |m|;
    SubsetSize(m.Keys, NodeIds(Followed(before, visible, d, from, |visible|)));
  }

  /** The first round selects something exactly when the first link that can be followed fits. */
  lemma FirstRound(visible: seq<Link>, d: Direction, from: set<Uuid>, at: nat, selected: seq<Link>, limit: nat)
    requires at <= |visible| && Gathered(selected) == Followed({}, visible, d, from, at)
    requires |NodeMap(selected)| <= limit
    requires at < |visible| ==> Eligible(visible[at], d, from) && |NodeMap(selected + [visible[at]])| > limit
    ensures selected == [] <==> Isolated(visible, d, from) || FirstTooBig(visible, d, from, limit)
  {
    FollowedMembers({}, visible, d, from, at);
    GatheredIsLinkSet(selected);
    if selected == [] {
      forall j | 0 <= j < at
        ensures !Eligible(visible[j], d, from)
      {
        assert visible[..at][j] == visible[j];
      }
      if at < |visible| {
        NodeMapAdd(selected, visible[at]);
        var m := NodeMap(selected + [visible[at]]);
        assert |m.Keys| == |m|;
        assert IsFirst(visible, d, from, at);
      }
    } else {
      assert selected[0] in LinkSet(selected);
      forall i: nat | IsFirst(visible, d, from, i)
        ensures |{visible[i].source.resourceId, visible[i].target.resourceId}| <= limit
      {
        FirstFits(visible, d, from, at, selected, i);
      }
    }
  }

  lemma FirstFits(visible: seq<Link>, d: Direction, from: set<Uuid>, at: nat, selected: seq<Link>, i: nat)
    requires at <= |visible| && Gathered(selected) == Followed({}, visible, d, from, at) && selected != []
    requires IsFirst(visible, d, from, i)
    ensures |{visible[i].source.resourceId, visible[i].target.resourceId}| <= |NodeMap(selected)|
  {
    FollowedMembers({}, visible, d, from, at);
    GatheredIsLinkSet(selected);
    assert selected[0] in LinkSet(selected);
    var j :| 0 <= j < at && visible[j] == selected[0];
    assert visible[..at][i] == visible[i];
    assert visible[i] in LinkSet(selected);
    NodeMapKeys(selected);
    var m := NodeMap(selected);
    assert |m.Keys| == |m|;
    SubsetSize({visible[i].source.resourceId, visible[i].target.resourceId}, m.Keys);
  }

  /** Only a limit of one can refuse the first link, and only when it joins two resources. */
  lemma FirstTooBigMeansLimitOne(visible: seq<Link>, d: Direction, from: set<Uuid>, limit: nat, i: nat)
    requires IsFirst(visible, d, from, i) && limit >= 1
    ensures FirstTooBig(visible, d, from, limit) <==>
            limit == 1 && visible[i].source.resourceId != visible[i].target.resourceId
  {
  }

  function Completeness(nodes: map<Uuid, Endpoint>, broken: bool, truncated: bool): string {
    var requirement := exists u | u in nodes :: nodes[u].domain == "requirement";
    var test := exists u | u in nodes :: nodes[u].domain == "tp";
    var failure := exists u | u in nodes :: nodes[u].resourceType in ["case_run", "defect"];
    if broken || truncated then "unknown"
    else if !(requirement && test) then "fail"
    else if !failure then "pass"
    else "fail"
  }

  function Visible(links: seq<Link>, project: Uuid): (r: seq<Link>)
    ensures forall l :: l in r <==> l in links && l.source.project == project
  {
    if links == [] then []
    else if links[0].source.project == project then [links[0]] + Visible(links[1..], project)
    else Visible(links[1..], project)
  }

  lemma {:induction false} VisibleDistinct(links: seq<Link>, project: Uuid)
    requires UniqueIds(links)
    ensures Distinct(Visible(links, project))
  {
    if links != [] {
      VisibleDistinct(links[1..], project);
      assert forall l | l in links[1..] :: l.id != links[0].id;
    }
  }

  /** What a query with valid arguments answers, in terms of the neighbourhood alone. */
  ghost predicate Answers(visible: seq<Link>, d: Direction, root: Uuid, depth: nat, limit: nat, r: Result<Graph>)
    requires depth > 0
  {
    && (r.Err? <==> Isolated(visible, d, {root}) || FirstTooBig(visible, d, {root}, limit))
    && (r.Err? ==> r.code == "RESOURCE_NOT_FOUND")
    && (r.Ok? ==> Shows(visible, d, root, depth, limit, r.value))
  }

  // The graph that is answered.
  ghost predicate Shows(visible: seq<Link>, d: Direction, root: Uuid, depth: nat, limit: nat, g: Graph)
    requires depth > 0
  {
    var full := Neighbourhood(LinkSet(visible), d, root, depth);
    && (g.truncated <==> |NodeIds(full)| > limit)
    && (!g.truncated ==> LinkSet(g.links) == full)
    && LinkSet(g.links) <= full
    && Distinct(g.links)
    && |g.nodes| <= limit
    && g.nodes == NodeMap(g.links)
    && g.nodes.Keys == NodeIds(LinkSet(g.links))
    && (g.broken <==> exists l | l in g.links :: l.status == "broken")
    && g.completeness == Completeness(g.nodes, g.broken, g.truncated)
  }

  lemma FirstFrontier(links: set<Link>, d: Direction, root: Uuid)
    ensures Frontier(links, d, root, 0, {root})
  {
    forall v
      ensures Near(links, d, root, v, 0) <==> v == root
    {
      NearZero(links, d, root, v);
    }
  }

  // The neighbourhood that k rounds cover.
  ghost function Covered(links: set<Link>, d: Direction, root: Uuid, k: nat): set<Link> {
    if k == 0 then {} else Neighbourhood(links, d, root, k)
  }

  /** The links followed in a round complete the neighbourhood of the next depth. */
  lemma RoundCovers(visible: seq<Link>, d: Direction, root: Uuid, k: nat, frontier: set<Uuid>)
    requires Frontier(LinkSet(visible), d, root, k, frontier)
    ensures Covered(LinkSet(visible), d, root, k + 1) ==
            Followed(Covered(LinkSet(visible), d, root, k), visible, d, frontier, |visible|)
  {
    FollowedMembers(Covered(LinkSet(visible), d, root, k), visible, d, frontier, |visible|);
    assert visible[..|visible|] == visible;
    forall l | l in LinkSet(visible)
      ensures Reached(LinkSet(visible), d, root, l, k) <==>
              Eligible(l, d, frontier) || (k > 0 && Reached(LinkSet(visible), d, root, l, k - 1))
    {
      ReachedByRound(LinkSet(visible), d, root, k, frontier, l);
    }
  }

  /** Stopping early at an empty frontier leaves nothing out. */
  lemma StopEarly(links: set<Link>, d: Direction, root: Uuid, k: nat, depth: nat, frontier: set<Uuid>)
    requires Frontier(links, d, root, k, frontier) && NextFrontier(links, d, frontier) == {} && k < depth
    ensures Covered(links, d, root, k + 1) == Covered(links, d, root, depth)
  {
    forall l | l in links
      ensures Reached(links, d, root, l, k) <==> Reached(links, d, root, l, depth - 1)
    {
      NothingFurther(links, d, root, k, depth - 1, frontier, l);
    }
  }

  /** A shallower neighbourhood is part of a deeper one. */
  lemma CoveredGrows(links: set<Link>, d: Direction, root: Uuid, k: nat, depth: nat)
    requires 0 < k <= depth
    ensures Covered(links, d, root, k) <= Covered(links, d, root, depth)
  {
  }

  lemma OverflowGrows(a: set<Link>, b: set<Link>, limit: nat)
    requires a <= b && Overflows(a, limit)
    ensures Overflows(b, limit)
  {
    SubsetSize(NodeIds(a), NodeIds(b));
  }

  lemma NodeCount(selected: seq<Link>)
    ensures |NodeIds(LinkSet(selected))| == |NodeMap(selected)|
    ensures NodeMap(selected) == map[] <==> selected == []
  {
    NodeMapKeys(selected);
    var m := NodeMap(selected);
    assert |m.Keys| == |m|;
    if selected != [] {
      assert selected[0].source.resourceId in NodeIds(LinkSet(selected));
    }
  }

  ghost predicate FirstSettled(visible: seq<Link>, d: Direction, root: Uuid, limit: nat, selected: seq<Link>) {
    selected == [] <==> Isolated(visible, d, {root}) || FirstTooBig(visible, d, {root}, limit)
  }

  /** What the traversal is left with. */
  ghost predicate Traversed(visible: seq<Link>, d: Direction, root: Uuid, depth: nat, limit: nat, selected: seq<Link>,
                            truncated: bool)
    requires depth > 0
  {
    var full := Neighbourhood(LinkSet(visible), d, root, depth);
    && Distinct(selected) && |NodeMap(selected)| <= limit
    && (truncated <==> Overflows(full, limit))
    && (!truncated ==> LinkSet(selected) == full)
    && LinkSet(selected) <= full
    && FirstSettled(visible, d, root, limit, selected)
  }

  lemma ScanSettles(visible: seq<Link>, d: Direction, root: Uuid, k: nat, frontier: set<Uuid>, at: nat,
                    before: seq<Link>, selected: seq<Link>, limit: nat)
    requires at <= |visible| && Gathered(selected) == Followed(Gathered(before), visible, d, frontier, at)
    requires |NodeMap(selected)| <= limit
    requires at < |visible| ==> Eligible(visible[at], d, frontier) && |NodeMap(selected + [visible[at]])| > limit
    requires k == 0 ==> before == [] && frontier == {root}
    requires k > 0 ==> FirstSettled(visible, d, root, limit, before) && before != []
    ensures FirstSettled(visible, d, root, limit, selected)
    ensures k > 0 ==> selected != []
  {
    if k == 0 {
      FirstRound(visible, d, frontier, at, selected, limit);
    } else {
      FollowedMonotone(Gathered(before), visible, d, frontier, 0, at);
      GatheredIsLinkSet(before);
      assert before[0] in Gathered(selected);
    }
  }

  /** A round that steps anywhere has followed a link. */
  lemma {:induction false} SteppedMeansFollowed(before: set<Link>, visible: seq<Link>, d: Direction, from: set<Uuid>,
                                                i: nat)
    requires i <= |visible| && SteppedTo(visible, d, from, i) != {}
    ensures Followed(before, visible, d, from, i) != {}
    decreases i
  {
    if !Eligible(visible[i - 1], d, from) {
      SteppedMeansFollowed(before, visible, d, from, i - 1);
    }
  }

  lemma TruncatedEnds(visible: seq<Link>, d: Direction, root: Uuid, k: nat, depth: nat, frontier: set<Uuid>, at: nat,
                      before: seq<Link>, selected: seq<Link>, limit: nat)
    requires k < depth && Frontier(LinkSet(visible), d, root, k, frontier)
    requires Gathered(before) == Covered(LinkSet(visible), d, root, k)
    requires at < |visible| && Gathered(selected) == Followed(Gathered(before), visible, d, frontier, at)
    requires Distinct(selected) && |NodeMap(selected)| <= limit
    requires Eligible(visible[at], d, frontier) && |NodeMap(selected + [visible[at]])| > limit
    requires FirstSettled(visible, d, root, limit, selected)
    ensures Traversed(visible, d, root, depth, limit, selected, true)
  {
    TooMany(visible, d, frontier, at, Gathered(before), selected, limit);
    RoundCovers(visible, d, root, k, frontier);
    CoveredGrows(LinkSet(visible), d, root, k + 1, depth);
    OverflowGrows(Covered(LinkSet(visible), d, root, k + 1), Covered(LinkSet(visible), d, root, depth), limit);
    GatheredIsLinkSet(selected);
  }

  lemma CompleteEnds(visible: seq<Link>, d: Direction, root: Uuid, depth: nat, limit: nat, selected: seq<Link>)
    requires depth > 0 && Gathered(selected) == Covered(LinkSet(visible), d, root, depth)
    requires Distinct(selected) && |NodeMap(selected)| <= limit
    requires FirstSettled(visible, d, root, limit, selected)
    ensures Traversed(visible, d, root, depth, limit, selected, false)
  {
    GatheredIsLinkSet(selected);
    NodeCount(selected);
  }

  // ---------------------------------------------------------------------
  // An event, and the queries that find it
  // ---------------------------------------------------------------------

  predicate EndsAt(p: Endpoint, project: Uuid, domain: string, resourceType: string, resourceId: Uuid, revision: int) {
    p.project == project && p.domain == domain && p.resourceType == resourceType && p.resourceId == resourceId
    && p.revision == revision
  }

  /** The link says what the event says. */
  predicate Records(l: Link, e: Event) {
    && l.id == e.linkId && l.linkType == e.linkType && l.eventId == e.eventId && l.occurredAt == e.occurredAt
    && l.status == e.status
    && EndsAt(l.source, e.projectId, e.sourceDomain, e.sourceType, e.sourceId, e.sourceRevision)
    && EndsAt(l.target, e.projectId, e.targetDomain, e.targetType, e.targetId, e.targetRevision)
  }

  /** Consuming an event: refused for a link onto itself or an unknown status, and otherwise its link is stored. */
  lemma ConsumedIsStored(s: Projection, e: Event)
    requires e.eventId !in s.consumed
    ensures var (t, r) := ConsumeEvent(s, e);
            if e.sourceDomain == e.targetDomain && e.sourceId == e.targetId then t == s && r == Err("INVALID_TRACE_LINK")
            else if e.status != "active" && e.status != "superseded" && e.status != "broken" then
              t == s && r == Err("INVALID_TRACE_STATUS")
            else
              && r.Ok? && Records(r.value, e) && r.value in t.links && e.eventId in t.consumed
              && (forall l | l in s.links && l.id != e.linkId :: l in t.links)
              && (forall l | l in t.links :: l == r.value || (l in s.links && (UniqueIds(s.links) ==> l.id != e.linkId)))
  {
    var i := PutShape(s.links, LinkOf(e));
    forall l | l in s.links && l.id != e.linkId
      ensures l in Put(s.links, LinkOf(e))
    {
      PutKeepsOthers(s.links, LinkOf(e), l);
    }
    assert i < |s.links| ==> Put(s.links, LinkOf(e))[i] == LinkOf(e);
    assert i == |s.links| ==> Put(s.links, LinkOf(e))[i] == LinkOf(e);
  }

  /** A repeated event changes nothing, and is answered with a link that it is on record with, if there is one. */
  lemma RepeatIsAnswered(s: Projection, e: Event)
    requires e.eventId in s.consumed
    ensures var (t, r) := ConsumeEvent(s, e);
            && t == s
            && (r.Ok? ==> r.value in s.links && r.value.eventId == e.eventId)
            && (r.Err? ==> r.code == "StopIteration" && forall l | l in s.links :: l.eventId != e.eventId)
  {
  }

  /** A node of the answer is the end of the last selected link that touches it; of a link's two ends, the target. */
  lemma {:induction false} NodeOfLast(selected: seq<Link>, i: nat, u: Uuid)
    requires i < |selected| && (selected[i].source.resourceId == u || selected[i].target.resourceId == u)
    requires forall j | i < j < |selected| :: selected[j].source.resourceId != u && selected[j].target.resourceId != u
    ensures u in NodeMap(selected)
    ensures NodeMap(selected)[u] == if selected[i].target.resourceId == u then selected[i].target else selected[i].source
    decreases |selected|
  {
    if i < |selected| - 1 {
      NodeOfLast(selected[..|selected| - 1], i, u);
    }
  }

  lemma OneLinkVisible(l: Link, project: Uuid)
    ensures Visible([l], project) == if l.source.project == project then [l] else []
  {
    assert [l][1..] == [];
  }

  lemma OneLinkNeighbourhood(l: Link, d: Direction, root: Uuid, depth: nat)
    requires depth > 0 && Eligible(l, d, {root})
    ensures Neighbourhood({l}, d, root, depth) == {l}
  {
    FirstInNeighbourhood({l}, d, root, depth, l);
  }

  lemma OneNode(selected: seq<Link>, l: Link)
    requires LinkSet(selected) == {l} && Distinct(selected)
    ensures selected == [l] && NodeMap(selected) == map[l.source.resourceId := l.source][l.target.resourceId := l.target]
  {
    assert l in LinkSet(selected);
    assert forall k | 0 <= k < |selected| :: selected[k] in LinkSet(selected);
    if |selected| > 1 {
      Repeats(selected, l);
    }
    assert selected == [l] && selected[..0] == [];
  }

  lemma Repeats(selected: seq<Link>, l: Link)
    requires |selected| > 1 && forall k | 0 <= k < |selected| :: selected[k] == l
    ensures !Distinct(selected)
  {
    assert selected[0] == selected[1];
  }

  // The resource that a query in this direction starts from to find the event.
  predicate StartsAt(e: Event, d: Direction, root: Uuid) {
    match d
    case Forward => root == e.sourceId
    case Reverse => root == e.targetId
    case Both => root == e.sourceId || root == e.targetId
  }

  // The answer to a query when the event's link is all there is.
  predicate FindsEvent(e: Event, project: Uuid, d: Direction, root: Uuid, r: Result<Graph>) {
    && (r.Ok? <==> project == e.projectId && StartsAt(e, d, root))
    && (r.Err? ==> r.code == "RESOURCE_NOT_FOUND")
    && (r.Ok? ==> ShowsEvent(e, r.value))
  }

  predicate ShowsEvent(e: Event, g: Graph) {
    && |g.links| == 1 && Records(g.links[0], e) && !g.truncated && (g.broken <==> e.status == "broken")
    && g.nodes.Keys == {e.sourceId, e.targetId}
    && EndsAt(g.nodes[e.targetId], e.projectId, e.targetDomain, e.targetType, e.targetId, e.targetRevision)
    && (e.sourceId != e.targetId ==>
          EndsAt(g.nodes[e.sourceId], e.projectId, e.sourceDomain, e.sourceType, e.sourceId, e.sourceRevision))
  }

  /**
   From the empty projection, one event: a forward query finds its link from the source alone, a reverse query from
   the target alone, and both ends are answered as the event has them.
   */
  lemma OneEventAnswers(e: Event, project: Uuid, d: Direction, root: Uuid, depth: nat, limit: nat, r: Result<Graph>)
    requires e.sourceDomain != e.targetDomain || e.sourceId != e.targetId
    requires e.status in ["active", "superseded", "broken"] && depth > 0 && limit >= 2
    requires Answers(Visible(ConsumeAll([e]).links, project), d, root, depth, limit, r)
    ensures FindsEvent(e, project, d, root, r)
  {
    var l := OneEventLink(e);
    OneLinkVisible(l, project);
    OneLinkAnswers(Visible(ConsumeAll([e]).links, project), l, e, project, d, root, depth, limit, r);
  }

  lemma OneEventLink(e: Event) returns (l: Link)
    requires e.sourceDomain != e.targetDomain || e.sourceId != e.targetId
    requires e.status in ["active", "superseded", "broken"]
    ensures ConsumeAll([e]).links == [l] && Records(l, e)
  {
    assert [e][..0] == [];
    assert ConsumeAll([e]) == ConsumeEvent(EMPTY, e).0;
    ConsumedIsStored(EMPTY, e);
    l := ConsumeAll([e]).links[0];
  }

  lemma OneLinkAnswers(visible: seq<Link>, l: Link, e: Event, project: Uuid, d: Direction, root: Uuid, depth: nat, limit: nat,
                       r: Result<Graph>)
    requires Records(l, e) && visible == if project == e.projectId then [l] else []
    requires depth > 0 && limit >= 2 && Answers(visible, d, root, depth, limit, r)
    ensures FindsEvent(e, project, d, root, r)
  {
    if project == e.projectId && StartsAt(e, d, root) {
      OneLinkFound(visible, l, e, d, root, depth, limit, r);
    } else {
      OneLinkMissed(visible, l, e, project, d, root);
      NothingFollowed(visible, d, root, depth, limit, r);
    }
  }

  lemma OneLinkMissed(visible: seq<Link>, l: Link, e: Event, project: Uuid, d: Direction, root: Uuid)
    requires Records(l, e) && visible == if project == e.projectId then [l] else []
    requires project != e.projectId || !StartsAt(e, d, root)
    ensures Isolated(visible, d, {root})
  {
  }

  lemma OneLinkFound(visible: seq<Link>, l: Link, e: Event, d: Direction, root: Uuid, depth: nat, limit: nat, r: Result<Graph>)
    requires Records(l, e) && visible == [l] && StartsAt(e, d, root)
    requires depth > 0 && limit >= 2 && Answers(visible, d, root, depth, limit, r)
    ensures r.Ok? && ShowsEvent(e, r.value)
  {
    assert Eligible(l, d, {root});
    OneSelected(visible, l, d, root, depth, limit, r);
    FoundAsRecorded(l, e, r.value);
  }

  lemma FoundAsRecorded(l: Link, e: Event, g: Graph)
    requires Records(l, e) && !g.truncated && g.links == [l] && (g.broken <==> l.status == "broken")
    requires g.nodes == map[l.source.resourceId := l.source][l.target.resourceId := l.target]
    ensures ShowsEvent(e, g)
  {
  }

  lemma NothingFollowed(visible: seq<Link>, d: Direction, root: Uuid, depth: nat, limit: nat, r: Result<Graph>)
    requires depth > 0 && Answers(visible, d, root, depth, limit, r)
    requires Isolated(visible, d, {root})
    ensures r == Err("RESOURCE_NOT_FOUND")
  {
  }

  lemma FirstFitsTwo(l: Link, d: Direction, root: Uuid, limit: nat)
    requires limit >= 2
    ensures !FirstTooBig([l], d, {root}, limit)
  {
    assert |{l.source.resourceId, l.target.resourceId}| <= 2;
  }

  lemma OneSelected(visible: seq<Link>, l: Link, d: Direction, root: Uuid, depth: nat, limit: nat, r: Result<Graph>)
    requires visible == [l] && depth > 0 && limit >= 2 && Answers(visible, d, root, depth, limit, r) && Eligible(l, d, {root})
    ensures r.Ok? && !r.value.truncated && r.value.links == [l] && (r.value.broken <==> l.status == "broken")
    ensures r.value.nodes == map[l.source.resourceId := l.source][l.target.resourceId := l.target]
  {
    OneAnswered(visible, l, d, root, depth, limit, r);
    var g := r.value;
    OneNode(g.links, l);
    assert g.broken <==> l.status == "broken" by {
      assert l in g.links;
    }
  }

  lemma OneAnswered(visible: seq<Link>, l: Link, d: Direction, root: Uuid, depth: nat, limit: nat, r: Result<Graph>)
    requires visible == [l] && depth > 0 && limit >= 2 && Answers(visible, d, root, depth, limit, r) && Eligible(l, d, {root})
    ensures r.Ok? && !r.value.truncated && LinkSet(r.value.links) == {l} && Distinct(r.value.links)
    ensures r.value.nodes == NodeMap(r.value.links) && (r.value.broken <==> exists k | k in r.value.links :: k.status == "broken")
  {
    assert LinkSet(visible) == {l} by {
      assert visible[0] == l;
    }
    OneLinkNeighbourhood(l, d, root, depth);
    FirstFitsTwo(l, d, root, limit);
    assert !Isolated(visible, d, {root}) by {
      assert l in visible;
    }
    TwoNodes(l, limit);
    AnsweredInFull(visible, d, root, depth, limit, r);
  }

  lemma TwoNodes(l: Link, limit: nat)
    requires limit >= 2
    ensures |NodeIds({l})| <= limit
  {
    assert NodeIds({l}) == {l.source.resourceId, l.target.resourceId};
  }

  /** A neighbourhood that fits is answered in full. */
  lemma AnsweredInFull(visible: seq<Link>, d: Direction, root: Uuid, depth: nat, limit: nat, r: Result<Graph>)
    requires depth > 0 && Answers(visible, d, root, depth, limit, r)
    requires !Isolated(visible, d, {root}) && !FirstTooBig(visible, d, {root}, limit)
    requires |NodeIds(Neighbourhood(LinkSet(visible), d, root, depth))| <= limit
    ensures r.Ok? && !r.value.truncated && LinkSet(r.value.links) == Neighbourhood(LinkSet(visible), d, root, depth)
    ensures Distinct(r.value.links) && r.value.nodes == NodeMap(r.value.links)
    ensures r.value.broken <==> exists l | l in r.value.links :: l.status == "broken"
  {
  }

  /** What a query says of the coverage between requirements and tests. */
  lemma CompletenessIff(nodes: map<Uuid, Endpoint>, broken: bool, truncated: bool)
    ensures Completeness(nodes, broken, truncated) == "unknown" <==> broken || truncated
    ensures Completeness(nodes, broken, truncated) == "pass" <==>
            !broken && !truncated && (exists u | u in nodes :: nodes[u].domain == "requirement")
            && (exists u | u in nodes :: nodes[u].domain == "tp")
            && forall u | u in nodes :: nodes[u].resourceType != "case_run" && nodes[u].resourceType != "defect"
    ensures Completeness(nodes, broken, truncated) in {"unknown", "pass", "fail"}
  {
  }

  /** A query that one delivery order answers in full is answered in full, and alike, by every other. */
  lemma QueriesConverge(es: seq<Event>, ds: seq<Event>, project: Uuid, root: Uuid, d: Direction, depth: nat, limit: nat,
                        r: Result<Graph>, q: Result<Graph>)
    requires Elements(es) == Elements(ds) && Coherent(Elements(es)) && depth > 0
    requires Answers(Visible(ConsumeAll(es).links, project), d, root, depth, limit, r)
    requires Answers(Visible(ConsumeAll(ds).links, project), d, root, depth, limit, q)
    requires r.Ok? && !r.value.truncated
    ensures q.Ok? && !q.value.truncated
    ensures LinkSet(q.value.links) == LinkSet(r.value.links) && q.value.nodes.Keys == r.value.nodes.Keys
  {
    Converges(es, ds);
    var v, w := Visible(ConsumeAll(es).links, project), Visible(ConsumeAll(ds).links, project);
    assert LinkSet(v) == LinkSet(w) by {
      forall l
        ensures l in LinkSet(v) <==> l in LinkSet(w)
      {
        assert l in ConsumeAll(es).links <==> l in LinkSet(ConsumeAll(es).links);
        assert l in ConsumeAll(ds).links <==> l in LinkSet(ConsumeAll(ds).links);
      }
    }
    assert Isolated(v, d, {root}) <==> Isolated(w, d, {root}) by {
      assert forall l :: l in v <==> l in LinkSet(v);
      assert forall l :: l in w <==> l in LinkSet(w);
    }
    if FirstTooBig(w, d, {root}, limit) {
      var i: nat :| IsFirst(w, d, {root}, i) && |{w[i].source.resourceId, w[i].target.resourceId}| > limit;
      FirstInNeighbourhood(LinkSet(w), d, root, depth, w[i]);
      SubsetSize({w[i].source.resourceId, w[i].target.resourceId},
                          NodeIds(Neighbourhood(LinkSet(w), d, root, depth)));
    }
  }

  lemma FirstInNeighbourhood(links: set<Link>, d: Direction, root: Uuid, depth: nat, l: Link)
    requires depth > 0 && l in links && Eligible(l, d, {root})
    ensures l in Neighbourhood(links, d, root, depth)
  {
    NearZero(links, d, root, root);
    NearMore(links, d, root, root, 0, depth - 1);
    assert Touches(l, d, root);
  }

  /** A round that was not cut short either ends the traversal or hands over to the next round. */
  lemma RoundDone(visible: seq<Link>, d: Direction, root: Uuid, k: nat, depth: nat, limit: nat, frontier: set<Uuid>,
                  before: seq<Link>, selected: seq<Link>)
    requires k < depth && Frontier(LinkSet(visible), d, root, k, frontier)
    requires Gathered(before) == Covered(LinkSet(visible), d, root, k)
    requires Gathered(selected) == Followed(Gathered(before), visible, d, frontier, |visible|)
    requires Distinct(selected) && |NodeMap(selected)| <= limit
    requires FirstSettled(visible, d, root, limit, selected)
    ensures var next := SteppedTo(visible, d, frontier, |visible|);
            if next == {} then Traversed(visible, d, root, depth, limit, selected, false)
            else Gathered(selected) == Covered(LinkSet(visible), d, root, k + 1) && selected != []
                 && Frontier(LinkSet(visible), d, root, k + 1, next)
  {
    RoundCovers(visible, d, root, k, frontier);
    SteppedToAll(visible, d, frontier);
    if SteppedTo(visible, d, frontier, |visible|) == {} {
      StopEarly(LinkSet(visible), d, root, k, depth, frontier);
      CompleteEnds(visible, d, root, depth, limit, selected);
    } else {
      SteppedMeansFollowed(Gathered(before), visible, d, frontier, |visible|);
      NextIsFrontier(LinkSet(visible), d, root, k, frontier);
    }
  }

  class TraceProjectionService {
    var links: seq<Link>
    var consumedEvents: set<Uuid>
    var lastEventAt: Option<int>
    const staleAfter: int

    constructor (staleAfter: int)
      ensures View() == EMPTY && Valid() && this.staleAfter == staleAfter
    {
      this.staleAfter := staleAfter;
      links, consumedEvents, lastEventAt := [], {}, None;
    }

    ghost predicate Valid()
      reads this
    {
      UniqueIds(links)
    }

    function View(): Projection
      reads this
    {
      Projection(links, consumedEvents, lastEventAt)
    }

    /** Project one event; a second delivery answers with the link already projected. */
    method Consume(e: Event) returns (r: Result<Link>)
      requires Valid()
      modifies this
      ensures Valid()
      ensures View() == ConsumeEvent(old(View()), e).0
      ensures r == ConsumeEvent(old(View()), e).1
    {
      if e.eventId in consumedEvents {
        var known := FirstOfEvent(links, e.eventId);
        return if known.Some? then Ok(known.value) else Err("StopIteration");
      }
      if SelfLink(e) {
        return Err("INVALID_TRACE_LINK");
      }
      if !KnownStatus(e) {
        return Err("INVALID_TRACE_STATUS");
      }
      var link := LinkOf(e);
      PutKeepsUnique(links, link);
      links := Put(links, link);
      consumedEvents := consumedEvents + {e.eventId};
      lastEventAt := Some(Latest(lastEventAt, link.occurredAt));
      return Ok(link);
    }

    /** One round: follow every visible link that touches the frontier, until the limit is hit. */
    method Scan(visible: seq<Link>, d: Direction, limit: nat, frontier: set<Uuid>,
                nodes0: map<Uuid, Endpoint>, selected0: seq<Link>)
      returns (nodes: map<Uuid, Endpoint>, selected: seq<Link>, truncated: bool, next: set<Uuid>, at: nat)
      requires Distinct(selected0) && nodes0 == NodeMap(selected0) && |nodes0| <= limit
      ensures Distinct(selected) && nodes == NodeMap(selected) && |nodes| <= limit
      ensures at <= |visible| && (truncated <==> at < |visible|)
      ensures Gathered(selected) == Followed(Gathered(selected0), visible, d, frontier, at)
      ensures truncated ==> Eligible(visible[at], d, frontier) && |NodeMap(selected + [visible[at]])| > limit
      ensures !truncated ==> next == SteppedTo(visible, d, frontier, |visible|)
    {
      nodes, selected, truncated, next, at := nodes0, selected0, false, {}, 0;
      while at < |visible|
        invariant at <= |visible|
        invariant Distinct(selected) && nodes == NodeMap(selected) && |nodes| <= limit
        invariant Gathered(selected) == Followed(Gathered(selected0), visible, d, frontier, at)
        invariant next == SteppedTo(visible, d, frontier, at)
      {
        var step;
        nodes, selected, truncated, step := Follow(visible[at], d, limit, frontier, nodes, selected);
        if truncated {
          return;
        }
        RoundStep(Gathered(selected0), visible, d, frontier, at);
        if step.Some? {
          next := next + {step.value};
        }
        at := at + 1;
      }
    }

    // One link of a round: skipped, followed again, selected, or refused because of the limit.
    method Follow(link: Link, d: Direction, limit: nat, frontier: set<Uuid>, nodes0: map<Uuid, Endpoint>,
                  selected0: seq<Link>)
      returns (nodes: map<Uuid, Endpoint>, selected: seq<Link>, truncated: bool, step: Option<Uuid>)
      requires Distinct(selected0) && nodes0 == NodeMap(selected0) && |nodes0| <= limit
      ensures Distinct(selected) && nodes == NodeMap(selected) && |nodes| <= limit
      ensures truncated ==> selected == selected0 && Eligible(link, d, frontier) && |NodeMap(selected + [link])| > limit
      ensures !truncated ==>
                Gathered(selected) == if Eligible(link, d, frontier) then Gathered(selected0) + {link} else Gathered(selected0)
      ensures !truncated ==> step == if Eligible(link, d, frontier) then Some(StepTo(link, d, frontier)) else None
    {
      nodes, selected, truncated, step := nodes0, selected0, false, None;
      var forward := Ahead(d) && link.source.resourceId in frontier;
      var reverse := Back(d) && link.target.resourceId in frontier;
      if !forward && !reverse {
        return;
      }
      GatherOne(selected, link);
      if link !in selected {
        var grown := AddNodes(nodes, link);
        if |grown| > limit {
          truncated := true;
          return;
        }
        selected, nodes := selected + [link], grown;
      }
      step := Some(if forward then link.target.resourceId else link.source.resourceId);
    }

    /** Answer a bounded forward, reverse or two-way query from one resource. */
    method Query(project: Uuid, root: Uuid, d: Option<Direction>, depth: int, limit: int, now: int)
      returns (r: Result<Graph>)
      requires Valid()
      ensures (d.None? || !(1 <= depth <= MAX_DEPTH) || !(1 <= limit <= MAX_LIMIT)) <==> r == Err("INVALID_TRACE_QUERY")
      ensures r != Err("INVALID_TRACE_QUERY") ==> Answers(Visible(links, project), d.value, root, depth, limit, r)
      ensures r.Ok? ==> r.value.stale == (lastEventAt.None? || now - lastEventAt.value > staleAfter)
    {
      if d.None? || !(1 <= depth <= MAX_DEPTH) || !(1 <= limit <= MAX_LIMIT) {
        return Err("INVALID_TRACE_QUERY");
      }
      var visible := Visible(links, project);
      var nodes, selected, truncated := Traverse(visible, root, d.value, depth, limit);
      NodeCount(selected);
      NodeMapKeys(selected);
      if nodes == map[] {
        return Err("RESOURCE_NOT_FOUND");
      }
      var broken := exists l | l in selected :: l.status == "broken";
      var stale := lastEventAt.None? || now - lastEventAt.value > staleAfter;
      return Ok(Graph(nodes, selected, truncated, stale, broken, Completeness(nodes, broken, truncated)));
    }

    /** The rounds of the traversal. No resource is marked as visited. */
    method Traverse(visible: seq<Link>, root: Uuid, d: Direction, depth: nat, limit: nat)
      returns (nodes: map<Uuid, Endpoint>, selected: seq<Link>, truncated: bool)
      requires depth > 0 && limit > 0
      ensures Traversed(visible, d, root, depth, limit, selected, truncated)
      ensures nodes == NodeMap(selected)
    {
      ghost var all := LinkSet(visible);
      var frontier := {root};
      nodes, selected, truncated := map[], [], false;
      FirstFrontier(all, d, root);
      for round := 0 to depth
        invariant Distinct(selected) && nodes == NodeMap(selected) && |nodes| <= limit
        invariant Frontier(all, d, root, round, frontier)
        invariant Gathered(selected) == Covered(all, d, root, round)
        invariant round == 0 ==> selected == [] && frontier == {root}
        invariant round > 0 ==> FirstSettled(visible, d, root, limit, selected) && selected != []
      {
        ghost var before := selected;
        var next;
        var at;
        nodes, selected, truncated, next, at := Scan(visible, d, limit, frontier, nodes, selected);
        ScanSettles(visible, d, root, round, frontier, at, before, selected, limit);
        if truncated {
          TruncatedEnds(visible, d, root, round, depth, frontier, at, before, selected, limit);
          return;
        }
        RoundDone(visible, d, root, round, depth, limit, frontier, before, selected);
        if next == {} {
          return;
        }
        frontier := next;
      }
      CompleteEnds(visible, d, root, depth, limit, selected);
    }
  }
}
