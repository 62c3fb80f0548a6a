/**
 The revision table of requirement-service behind its mapping: reading gives the rows of one
 requirement in the order of their numbers, writing inserts the rows whose identifiers are new.
 */
module RevisionRows {
  import opened Options

  datatype Revision<C> = Revision(id: Uuid, revisionNo: nat, snapshot: C)

  datatype Row<C> = Row(requirement: Uuid, revisionNo: nat, snapshot: C)

  // Rows by identifier.
  type Table<C> = map<Uuid, Row<C>>

  function RowOf<C>(key: Uuid, r: Revision<C>): Row<C> { Row(key, r.revisionNo, r.snapshot) }

  function IdsOf<C>(rows: Table<C>, key: Uuid): set<Uuid> { set id | id in rows && rows[id].requirement == key }

  // ---------------------------------------------------------------------
  // Writing
  // ---------------------------------------------------------------------

  /** Insert the values whose identifiers are not among those of the requirement; pass over all others. */
  function Write<C>(rows: Table<C>, key: Uuid, values: seq<Revision<C>>): Table<C> {
    if values == [] then rows
    else
      var init, last := Write(rows, key, values[..|values| - 1]), values[|values| - 1];
      if last.id in IdsOf(rows, key) then init else init[last.id := RowOf(key, last)]
  }

  method WriteRows<C>(rows: Table<C>, key: Uuid, values: seq<Revision<C>>) returns (out: Table<C>)
    ensures out == Write(rows, key, values)
  {
    var known := IdsOf(rows, key);
    out := rows;
    for i := 0 to |values|
      invariant out == Write(rows, key, values[..i])
    {
      assert values[..i + 1][..i] == values[..i];
      if values[i].id !in known {
        out := out[values[i].id := RowOf(key, values[i])];
      }
    }
    assert values[..|values|] == values;
  }

  /** Whatever is written for a requirement, its rows stay as they are. */
  lemma {:induction false} WriteKeepsRows<C>(rows: Table<C>, key: Uuid, values: seq<Revision<C>>, id: Uuid)
    requires id in IdsOf(rows, key)
    ensures id in Write(rows, key, values) && Write(rows, key, values)[id] == rows[id]
  {
    if values != [] {
      WriteKeepsRows(rows, key, values[..|values| - 1], id);
    }
  }

  lemma {:induction false} WriteKnown<C>(rows: Table<C>, key: Uuid, values: seq<Revision<C>>)
    requires forall v | v in values :: v.id in IdsOf(rows, key)
    ensures Write(rows, key, values) == rows
  {
    if values != [] {
      var init := values[..|values| - 1];
      assert forall v | v in init :: v in values;
      WriteKnown(rows, key, init);
    }
  }

  lemma WriteNext<C>(rows: Table<C>, key: Uuid, earlier: seq<Revision<C>>, r: Revision<C>)
    requires (forall v | v in earlier :: v.id in IdsOf(rows, key)) && r.id !in rows
    ensures Write(rows, key, earlier + [r]) == rows[r.id := RowOf(key, r)]
  {
    assert (earlier + [r])[..|earlier + [r]| - 1] == earlier;
    WriteKnown(rows, key, earlier);
  }

  // ---------------------------------------------------------------------
  // Reading
  // ---------------------------------------------------------------------

  ghost predicate Ordered<C>(s: seq<Revision<C>>) {
    forall i, j {:trigger s[i], s[j]} | 0 <= i < j < |s| :: s[i].revisionNo <= s[j].revisionNo && s[i].id != s[j].id
  }

  /** The rows with these identifiers, each once, in the order of their numbers. */
  ghost predicate Reads<C>(s: seq<Revision<C>>, rows: Table<C>, key: Uuid, ids: set<Uuid>) {
    && Ordered(s)
    && (forall x | x in s :: x.id in ids && x.id in rows && rows[x.id] == RowOf(key, x))
    && forall id {:trigger Held(s, id)} | id in ids :: Held(s, id)
  }

  ghost predicate Held<C>(s: seq<Revision<C>>, id: Uuid) { exists x :: x in s && x.id == id }

  ghost predicate IsReading<C>(s: seq<Revision<C>>, rows: Table<C>, key: Uuid) { Reads(s, rows, key, IdsOf(rows, key)) }

  function Insert<C>(r: Revision<C>, s: seq<Revision<C>>): seq<Revision<C>> {
    if s == [] then [r] else if r.revisionNo < s[0].revisionNo then [r] + s else [s[0]] + Insert(r, s[1..])
  }

  lemma {:induction false} InsertMembers<C>(r: Revision<C>, s: seq<Revision<C>>, x: Revision<C>)
    ensures x in Insert(r, s) <==> x == r || x in s
  {
    if s != [] && r.revisionNo >= s[0].revisionNo {
      InsertMembers(r, s[1..], x);
      assert s == [s[0]] + s[1..];
    }
  }

  lemma {:induction false} InsertOrdered<C>(r: Revision<C>, s: seq<Revision<C>>)
    requires Ordered(s) && forall x | x in s :: x.id != r.id
    ensures Ordered(Insert(r, s)) && forall x :: x in Insert(r, s) <==> x == r || x in s
  {
    forall x
      ensures x in Insert(r, s) <==> x == r || x in s
    {
      InsertMembers(r, s, x);
    }
    if s != [] && r.revisionNo >= s[0].revisionNo {
      InsertOrdered(r, s[1..]);
      var tail := Insert(r, s[1..]);
      forall j | 0 <= j < |tail|
        ensures s[0].revisionNo <= tail[j].revisionNo && s[0].id != tail[j].id
      {
        assert tail[j] in tail;
        InsertMembers(r, s[1..], tail[j]);
      }
    }
  }

  lemma ReadsOneMore<C>(s: seq<Revision<C>>, rows: Table<C>, key: Uuid, ids: set<Uuid>, id: Uuid)
    requires Reads(s, rows, key, ids) && id in IdsOf(rows, key) && id !in ids
    ensures Reads(Insert(Revision(id, rows[id].revisionNo, rows[id].snapshot), s), rows, key, ids + {id})
  {
    var r := Revision(id, rows[id].revisionNo, rows[id].snapshot);
    InsertOrdered(r, s);
    assert Ordered(Insert(r, s));
    assert forall x | x in Insert(r, s) :: x.id in ids + {id} && x.id in rows && rows[x.id] == RowOf(key, x);
    forall j | j in ids + {id}
      ensures Held(Insert(r, s), j)
    {
      if j == id {
        assert r in Insert(r, s);
      } else {
        assert Held(s, j);
        var x :| x in s && x.id == j;
        assert x in Insert(r, s);
      }
    }
  }

  /** SELECT .. ORDER BY revision_no */
  method ReadRows<C>(rows: Table<C>, key: Uuid) returns (s: seq<Revision<C>>)
    ensures IsReading(s, rows, key)
  {
    s := [];
    var todo := IdsOf(rows, key);
    ghost var done: set<Uuid> := {};
    while todo != {}
      invariant done !! todo && done + todo == IdsOf(rows, key) && Reads(s, rows, key, done)
      decreases todo
    {
      var id :| id in todo;
      ReadsOneMore(s, rows, key, done, id);
      s := Insert(Revision(id, rows[id].revisionNo, rows[id].snapshot), s);
      todo, done := todo - {id}, done + {id};
    }
    assert done == IdsOf(rows, key);
  }

  lemma {:induction false} ReadingExists<C>(rows: Table<C>, key: Uuid, ids: set<Uuid>)
    requires ids <= IdsOf(rows, key)
    ensures exists s :: Reads(s, rows, key, ids)
  {
    if ids == {} {
      var none: seq<Revision<C>> := [];
      assert Reads(none, rows, key, ids);
    } else {
      var id :| id in ids;
      ReadingExists(rows, key, ids - {id});
      var s :| Reads(s, rows, key, ids - {id});
      ReadsOneMore(s, rows, key, ids - {id}, id);
      assert ids - {id} + {id} == ids;
    }
  }

  ghost function ReadBack<C(!new)>(rows: Table<C>, key: Uuid): (s: seq<Revision<C>>)
    ensures IsReading(s, rows, key)
  {
    ReadingExists(rows, key, IdsOf(rows, key));
    var s :| Reads(s, rows, key, IdsOf(rows, key));
    s
  }

  /** Revisions 1, 2, .., n. */
  ghost predicate Consecutive<C>(s: seq<Revision<C>>) {
    forall i {:trigger s[i]} | 0 <= i < |s| :: s[i].revisionNo == i + 1
  }

  /** With consecutive numbers there is one reading only. */
  lemma OneReading<C>(s: seq<Revision<C>>, t: seq<Revision<C>>, rows: Table<C>, key: Uuid)
    requires IsReading(s, rows, key) && IsReading(t, rows, key) && Consecutive(s)
    ensures s == t
  {
    SameMembers(s, t, rows, key);
    SameMembers(t, s, rows, key);
    assert Rising(t) by {
      forall i, j | 0 <= i < j < |t|
        ensures t[i].revisionNo < t[j].revisionNo
      {
        assert t[i] in s && t[j] in s;
      }
    }
    OneRising(s, t);
  }

  lemma SameMembers<C>(s: seq<Revision<C>>, t: seq<Revision<C>>, rows: Table<C>, key: Uuid)
    requires IsReading(s, rows, key) && IsReading(t, rows, key)
    ensures forall x | x in s :: x in t
  {
    forall x | x in s
      ensures x in t
    {
      assert Held(t, x.id);
      var y :| y in t && y.id == x.id;
      assert rows[y.id] == RowOf(key, y) && rows[x.id] == RowOf(key, x);
    }
  }

  ghost predicate Rising<C>(s: seq<Revision<C>>) {
    forall i, j {:trigger s[i], s[j]} | 0 <= i < j < |s| :: s[i].revisionNo < s[j].revisionNo
  }

  lemma {:induction false} OneRising<C>(s: seq<Revision<C>>, t: seq<Revision<C>>)
    requires Rising(s) && Rising(t) && forall x :: x in s <==> x in t
    ensures s == t
    decreases |s|
  {
    SameEmpty(s, t);
    if s != [] {
      RisingHead(s, t);
      RisingTail(s);
      RisingTail(t);
      OneRising(s[1..], t[1..]);
      assert s == [s[0]] + s[1..] && t == [t[0]] + t[1..];
    }
  }

  lemma RisingHead<C>(s: seq<Revision<C>>, t: seq<Revision<C>>)
    requires Rising(s) && Rising(t) && s != [] && t != [] && forall x :: x in s <==> x in t
    ensures s[0] == t[0]
  {
    assert s[0] in t && t[0] in s;
    HeadIsLeast(s, t[0]);
    HeadIsLeast(t, s[0]);
  }

  lemma HeadIsLeast<C>(s: seq<Revision<C>>, x: Revision<C>)
    requires Rising(s) && x in s
    ensures s[0].revisionNo <= x.revisionNo && (s[0].revisionNo == x.revisionNo ==> s[0] == x)
  {
    var k :| 0 <= k < |s| && s[k] == x;
    assert k == 0 || s[0].revisionNo < s[k].revisionNo;
  }

  lemma RisingTail<C>(s: seq<Revision<C>>)
    requires Rising(s) && s != []
    ensures forall x :: x in s[1..] <==> x in s && x != s[0]
  {
    forall i | 1 <= i < |s|
      ensures s[i] != s[0]
    {
      assert s[0].revisionNo < s[i].revisionNo;
    }
  }

  // ---------------------------------------------------------------------
  // Writing, then reading
  // ---------------------------------------------------------------------

  lemma ReadingNext<C>(s: seq<Revision<C>>, rows: Table<C>, key: Uuid, r: Revision<C>)
    requires IsReading(s, rows, key) && r.id !in rows && forall x | x in s :: x.revisionNo <= r.revisionNo
    ensures IsReading(s + [r], rows[r.id := RowOf(key, r)], key)
  {
    var out, more := rows[r.id := RowOf(key, r)], s + [r];
    assert IdsOf(out, key) == IdsOf(rows, key) + {r.id};
    forall i | 0 <= i < |s|
      ensures s[i].revisionNo <= r.revisionNo && s[i].id != r.id
    {
      assert s[i] in s;
    }
    forall id | id in IdsOf(out, key)
      ensures Held(more, id)
    {
      if id == r.id {
        assert r in more;
      } else {
        assert Held(s, id);
        var x :| x in s && x.id == id;
        assert x in more;
      }
    }
  }

  lemma ReadBackIs<C(!new)>(s: seq<Revision<C>>, rows: Table<C>, key: Uuid)
    requires IsReading(s, rows, key) && Consecutive(s)
    ensures ReadBack(rows, key) == s
  {
    OneReading(s, ReadBack(rows, key), rows, key);
  }

  lemma ConsecutiveNext<C>(s: seq<Revision<C>>, r: Revision<C>)
    requires Consecutive(s) && r.revisionNo == |s| + 1
    ensures Consecutive(s + [r]) && forall x | x in s :: x.revisionNo <= r.revisionNo
  {
    forall x | x in s
      ensures x.revisionNo <= r.revisionNo
    {
      var i :| 0 <= i < |s| && s[i] == x;
    }
  }

  /** Writing what was read with one more revision, and reading again, gives it back. */
  lemma ReadBackNext<C(!new)>(rows: Table<C>, key: Uuid, s: seq<Revision<C>>, r: Revision<C>)
    requires ReadBack(rows, key) == s && Consecutive(s) && r.id !in rows && r.revisionNo == |s| + 1
    ensures Write(rows, key, s + [r]) == rows[r.id := RowOf(key, r)]
    ensures ReadBack(Write(rows, key, s + [r]), key) == s + [r]
  {
    assert IsReading(s, rows, key);
    WriteNext(rows, key, s, r);
    ConsecutiveNext(s, r);
    ReadingNext(s, rows, key, r);
    ReadBackIs(s + [r], rows[r.id := RowOf(key, r)], key);
  }

  /** The revisions of another requirement are read as before. */
  lemma ReadBackOther<C(!new)>(rows: Table<C>, key: Uuid, r: Revision<C>, other: Uuid)
    requires Consecutive(ReadBack(rows, other)) && r.id !in rows && other != key
    ensures ReadBack(rows[r.id := RowOf(key, r)], other) == ReadBack(rows, other)
  {
    var s, out := ReadBack(rows, other), rows[r.id := RowOf(key, r)];
    assert IdsOf(out, other) == IdsOf(rows, other);
    assert IsReading(s, out, other);
    ReadBackIs(s, out, other);
  }
}
