/** The document store behind every controller, in place of a Mongoose
    model: a collection of rows, each with an id, the id of the user that
    owns it, a creation stamp and the document itself. Ids and stamps come
    from one counter, so both strictly increase along the collection. */
module Store {
  import opened Common
  import opened Seqs

  datatype Row<D> = Row(id: Id, owner: Id, createdAt: nat, doc: D)

  /** Ids and creation stamps strictly increase along the rows; in
      particular no id occurs twice. */
  ghost predicate Ordered<D>(rows: seq<Row<D>>) {
    forall i, j :: 0 <= i < j < |rows| ==> rows[i].id < rows[j].id && rows[i].createdAt < rows[j].createdAt
  }

  /** `findOne({ _id: id, userId: owner })`: the position of the row with
      that id, provided `owner` owns it. */
  function FindOwned<D>(rows: seq<Row<D>>, id: Id, owner: Id): (r: Option<nat>)
    ensures r.Some? ==> r.value < |rows| && rows[r.value].id == id && rows[r.value].owner == owner
    ensures r.None? <==> forall j :: 0 <= j < |rows| ==> !(rows[j].id == id && rows[j].owner == owner)
  {
    IndexWhere(rows, (x: Row<D>) => x.id == id && x.owner == owner)
  }

  /** The filter `{ userId: owner }`. */
  function OwnerIs<D>(owner: Id): Row<D> -> bool {
    (x: Row<D>) => x.owner == owner
  }

  /** `find({ userId: owner })`: the owner's rows in collection order. */
  function OwnedBy<D(==,!new)>(rows: seq<Row<D>>, owner: Id): (r: seq<Row<D>>)
    ensures forall x :: x in r <==> x in rows && x.owner == owner
    ensures IsSubseq(r, rows)
    ensures forall x :: multiset(r)[x] == if x.owner == owner then multiset(rows)[x] else 0
  {
    FilterIsSubseq(rows, OwnerIs(owner));
    FilterMultiset(rows, OwnerIs(owner));
    Filter(rows, OwnerIs(owner))
  }

  lemma OwnedByAppend<D(!new)>(rows: seq<Row<D>>, x: Row<D>, u: Id)
    ensures OwnedBy(rows + [x], u) == OwnedBy(rows, u) + (if x.owner == u then [x] else [])
  {
    FilterAppend(rows, [x], OwnerIs(u));
  }

  /** Appending rows none of which `u` owns leaves `u`'s rows as they were. */
  lemma OwnedByAppendOthers<D(!new)>(rows: seq<Row<D>>, added: seq<Row<D>>, u: Id)
    requires forall k :: 0 <= k < |added| ==> added[k].owner != u
    ensures OwnedBy(rows + added, u) == OwnedBy(rows, u)
  {
    FilterAppend(rows, added, OwnerIs(u));
    assert forall k :: 0 <= k < |added| ==> !OwnerIs(u)(added[k]);
    FilterDropsAll(added, OwnerIs(u));
  }

  /** Replacing one row by another row of a different owner leaves `u`'s
      rows as they were. */
  lemma OwnedByUpdateOther<D(!new)>(rows: seq<Row<D>>, i: nat, x: Row<D>, u: Id)
    requires i < |rows| && rows[i].owner != u && x.owner != u
    ensures OwnedBy(rows[i := x], u) == OwnedBy(rows, u)
  {
    var p := OwnerIs<D>(u);
    assert rows == rows[..i] + [rows[i]] + rows[i + 1..];
    assert rows[i := x] == rows[..i] + [x] + rows[i + 1..];
    FilterAppend(rows[..i] + [rows[i]], rows[i + 1..], p);
    FilterAppend(rows[..i], [rows[i]], p);
    FilterAppend(rows[..i] + [x], rows[i + 1..], p);
    FilterAppend(rows[..i], [x], p);
  }

  /** Replacing a row by one with the same owner keeps the number of rows
      each user owns. */
  lemma OwnedByUpdateSameOwner<D(!new)>(rows: seq<Row<D>>, i: nat, x: Row<D>, u: Id)
    requires i < |rows| && x.owner == rows[i].owner
    ensures |OwnedBy(rows[i := x], u)| == |OwnedBy(rows, u)|
  {
    var p := OwnerIs<D>(u);
    var a, b := rows[..i], rows[i + 1..];
    assert rows == (a + [rows[i]]) + b;
    assert rows[i := x] == (a + [x]) + b;
    FilterAppend(a + [rows[i]], b, p);
    FilterAppend(a, [rows[i]], p);
    FilterAppend(a + [x], b, p);
    FilterAppend(a, [x], p);
    assert [x][1..] == [] && [rows[i]][1..] == [];
  }

  /** Removing a row of another owner leaves `u`'s rows as they were. */
  lemma OwnedByRemoveOther<D(!new)>(rows: seq<Row<D>>, i: nat, u: Id)
    requires i < |rows| && rows[i].owner != u
    ensures OwnedBy(RemoveIndex(rows, i), u) == OwnedBy(rows, u)
  {
    var p := OwnerIs<D>(u);
    var a, b := rows[..i], rows[i + 1..];
    assert rows == (a + [rows[i]]) + b;
    assert RemoveIndex(rows, i) == a + b;
    assert Filter([rows[i]], p) == [] by {
      assert !p(rows[i]);
      assert [rows[i]][1..] == [];
    }
    calc {
      OwnedBy(rows, u);
      Filter((a + [rows[i]]) + b, p);
      { FilterAppend(a + [rows[i]], b, p); }
      Filter(a + [rows[i]], p) + Filter(b, p);
      { FilterAppend(a, [rows[i]], p); }
      Filter(a, p) + Filter(b, p);
      { FilterAppend(a, b, p); }
      Filter(a + b, p);
      OwnedBy(RemoveIndex(rows, i), u);
    }
  }

  /** In an ordered collection, dropping position `i` removes exactly the
      row with that row's id and keeps every other row. */
  lemma RemoveExactly<D(!new)>(rows: seq<Row<D>>, i: nat)
    requires Ordered(rows) && i < |rows|
    ensures forall x :: x in RemoveIndex(rows, i) <==> x in rows && x.id != rows[i].id
  {
    var r := RemoveIndex(rows, i);
    forall x | x in rows && x.id != rows[i].id ensures x in r {
      var j :| 0 <= j < |rows| && rows[j] == x;
      if j < i { assert r[j] == x; } else { assert r[j - 1] == x; }
    }
    forall x | x in r ensures x in rows && x.id != rows[i].id {
      var j :| 0 <= j < |r| && r[j] == x;
      if j < i { assert x == rows[j]; } else { assert x == rows[j + 1]; }
    }
  }

  /** Keeping some rows of an ordered collection keeps it ordered. */
  lemma {:induction false} FilterOrdered<D(!new)>(rows: seq<Row<D>>, p: Row<D> -> bool)
    requires Ordered(rows)
    ensures Ordered(Filter(rows, p))
  {
    if |rows| > 0 {
      FilterOrdered(rows[1..], p);
      var rest := Filter(rows[1..], p);
      forall k | 0 <= k < |rest|
        ensures rows[0].id < rest[k].id && rows[0].createdAt < rest[k].createdAt
      {
        assert rest[k] in rows[1..];
      }
    }
  }

  /** An ordered collection read back to front holds the same rows,
      newest first. */
  lemma ReverseNewestFirst<D(!new)>(rows: seq<Row<D>>)
    requires Ordered(rows)
    ensures forall x :: x in Reverse(rows) <==> x in rows
    ensures forall i, j :: 0 <= i < j < |rows| ==> Reverse(rows)[i].createdAt > Reverse(rows)[j].createdAt
  {
    var r := Reverse(rows);
    forall x | x in rows ensures x in r {
      var j :| 0 <= j < |rows| && rows[j] == x;
      assert r[|rows| - 1 - j] == x;
    }
    forall x | x in r ensures x in rows {
      var j :| 0 <= j < |r| && r[j] == x;
      assert rows[|rows| - 1 - j] == x;
    }
    forall i, j | 0 <= i < j < |rows| ensures r[i].createdAt > r[j].createdAt {
      assert r[i] == rows[|rows| - 1 - i] && r[j] == rows[|rows| - 1 - j];
    }
  }

  /** `find({ userId: owner }).sort({ createdAt: -1 })`: exactly the
      owner's rows, newest first. */
  function NewestFirst<D(==,!new)>(rows: seq<Row<D>>, owner: Id): (r: seq<Row<D>>)
    requires Ordered(rows)
    ensures forall x :: x in r <==> x in rows && x.owner == owner
    ensures forall i, j :: 0 <= i < j < |r| ==> r[i].createdAt > r[j].createdAt
  {
    FilterOrdered(rows, OwnerIs(owner));
    ReverseNewestFirst(OwnedBy(rows, owner));
    Reverse(OwnedBy(rows, owner))
  }

  /** The rows `insertMany` creates for `docs`, stamped from `start` on. */
  function Stamped<D>(owner: Id, docs: seq<D>, start: nat): (r: seq<Row<D>>)
    ensures |r| == |docs|
    ensures forall k :: 0 <= k < |docs| ==> r[k] == Row(start + k, owner, start + k, docs[k])
  {
    seq(|docs|, k requires 0 <= k < |docs| => Row(start + k, owner, start + k, docs[k]))
  }

  class Collection<D(==,!new)> {
    var rows: seq<Row<D>>
    var next: nat

    ghost predicate Valid()
      reads this
    {
      && Ordered(rows)
      && forall i :: 0 <= i < |rows| ==> rows[i].id < next && rows[i].createdAt < next
    }

    constructor ()
      ensures Valid() && rows == [] && next == 0
    {
      rows, next := [], 0;
    }

    /** `Model.create(doc)`: appends a new row with a fresh id. */
    method Create(owner: Id, doc: D) returns (row: Row<D>)
      requires Valid()
      modifies this
      ensures Valid()
      ensures row == Row(old(next), owner, old(next), doc)
      ensures rows == old(rows) + [row] && next == old(next) + 1
    {
      row := Row(next, owner, next, doc);
      rows := rows + [row];
      next := next + 1;
    }

    /** `Model.insertMany(docs)`: appends one fresh row per document, in order. */
    method InsertMany(owner: Id, docs: seq<D>) returns (inserted: seq<Row<D>>)
      requires Valid()
      modifies this
      ensures Valid()
      ensures inserted == Stamped(owner, docs, old(next))
      ensures rows == old(rows) + inserted && next == old(next) + |docs|
    {
      inserted := Stamped(owner, docs, next);
      rows := rows + inserted;
      next := next + |docs|;
    }

    /** `doc.save()` after changing the document at position `i` in place. */
    method Save(i: nat, doc: D)
      requires Valid() && i < |rows|
      modifies this
      ensures Valid()
      ensures rows == old(rows)[i := old(rows)[i].(doc := doc)] && next == old(next)
    {
      rows := rows[i := rows[i].(doc := doc)];
    }

    /** `doc.deleteOne()` on the row at position `i`. */
    method DeleteAt(i: nat)
      requires Valid() && i < |rows|
      modifies this
      ensures Valid()
      ensures rows == RemoveIndex(old(rows), i) && next == old(next)
    {
      rows := RemoveIndex(rows, i);
    }
  }
}
