/**
 * A MongoDB collection as the routes use it through Mongoose: documents with
 * a fresh `_id` and a `createdAt` timestamp, kept in insertion order, and the
 * write operations `create`, `deleteMany`, `findByIdAndDelete`,
 * `updateMany` and `save`.
 */
module Collections {
  import opened Wrappers
  import opened JsStrings
  import opened Query

  /** An ObjectId, as an opaque number handed out once. */
  type Id = nat

  /** The text form of an id (`_id.toString()`), as the routes hand it to clients. */
  function IdText(id: Id): string {
    Decimal(id)
  }

  /**
   * Casting request text to an id: `None` when the text is not the form of
   * any id, where Mongoose throws a cast error.
   */
  function ParseId(s: string): (r: Option<Id>)
    ensures r.Some? ==> IdText(r.value) == s
    ensures r.None? ==> forall id: Id :: IdText(id) != s
  {
    if s != [] && (forall i :: 0 <= i < |s| ==> IsDigit(s[i])) && Decimal(ParseDecimal(s)) == s then
      Some(ParseDecimal(s))
    else
      assert forall id: Id :: IdText(id) != s by {
        forall id: Id ensures IdText(id) != s {
          ParseDecimalOfDecimal(id);
        }
      }
      None
  }

  /** The start of the message Mongoose throws when a request's id text is no id. */
  const CastError: string := "Cast to ObjectId failed"

  /** Casts a list of id texts; `None` when any of them is no id. */
  function ParseIds(ss: seq<string>): (r: Option<seq<Id>>)
    ensures r.Some? ==> |r.value| == |ss| && forall i :: 0 <= i < |ss| ==> IdText(r.value[i]) == ss[i]
    ensures r.None? ==> exists i :: 0 <= i < |ss| && ParseId(ss[i]).None?
  {
    if ss == [] then Some([])
    else match (ParseId(ss[0]), ParseIds(ss[1..]))
      case (Some(id), Some(rest)) => Some([id] + rest)
      case (None, _) => None
      case (_, None) =>
        var i :| 0 <= i < |ss[1..]| && ParseId(ss[1..][i]).None?;
        assert ParseId(ss[i + 1]).None?;
        None
  }

  /** Every id survives the trip through its text form. */
  lemma ParseIdText(id: Id)
    ensures ParseId(IdText(id)) == Some(id)
  {
    ParseDecimalOfDecimal(id);
  }

  /** A stored document: its `_id`, its `createdAt` (milliseconds) and its fields. */
  datatype Doc<T> = Doc(id: Id, createdAt: int, data: T)

  function CreatedAt<T>(d: Doc<T>): int {
    d.createdAt
  }

  ghost predicate IdsBelow<T>(rows: seq<Doc<T>>, bound: nat) {
    forall i :: 0 <= i < |rows| ==> rows[i].id < bound
  }

  ghost predicate DistinctIds<T>(rows: seq<Doc<T>>) {
    forall i, j :: 0 <= i < |rows| && 0 <= j < |rows| && i != j ==> rows[i].id != rows[j].id
  }

  /** The documents a filter does not select, in their stored order (`deleteMany`). */
  function Reject<T>(rows: seq<Doc<T>>, drop: Doc<T> -> bool): (r: seq<Doc<T>>)
    ensures |r| <= |rows|
  {
    if rows == [] then []
    else (if drop(rows[0]) then [] else [rows[0]]) + Reject(rows[1..], drop)
  }

  /** The documents left are exactly the stored ones the filter does not select. */
  lemma {:induction false} RejectMembers<T>(rows: seq<Doc<T>>, drop: Doc<T> -> bool)
    ensures forall i :: 0 <= i < |Reject(rows, drop)| ==>
      Reject(rows, drop)[i] in rows && !drop(Reject(rows, drop)[i])
    ensures forall i :: 0 <= i < |rows| && !drop(rows[i]) ==> rows[i] in Reject(rows, drop)
  {
    if rows != [] {
      RejectMembers(rows[1..], drop);
      forall i | 0 <= i < |rows| && !drop(rows[i]) ensures rows[i] in Reject(rows, drop) {
        if i > 0 {
          assert rows[i] == rows[1..][i - 1];
        }
      }
    }
  }

  /** Deleting keeps the `_id` bound and the distinctness of the `_id`s. */
  lemma {:induction false} RejectKeepsIds<T>(rows: seq<Doc<T>>, drop: Doc<T> -> bool)
    ensures forall b: nat :: IdsBelow(rows, b) ==> IdsBelow(Reject(rows, drop), b)
    ensures DistinctIds(rows) ==> DistinctIds(Reject(rows, drop))
  {
    RejectMembers(rows, drop);
    if rows != [] && DistinctIds(rows) {
      var rest := Reject(rows[1..], drop);
      assert DistinctIds(rows[1..]);
      RejectKeepsIds(rows[1..], drop);
      RejectMembers(rows[1..], drop);
      forall k | 0 <= k < |rest| ensures rest[k].id != rows[0].id {
        var m :| 0 <= m < |rows[1..]| && rows[1..][m] == rest[k];
        assert rows[m + 1] == rest[k];
      }
    }
  }

  /** The selector of the document with a given `_id`. */
  function HasId<T>(id: Id): Doc<T> -> bool {
    (d: Doc<T>) => d.id == id
  }

  /** `updateMany(filter, change)`: every selected document has its fields changed, the others are kept. */
  function UpdateWhere<T>(rows: seq<Doc<T>>, select: Doc<T> -> bool, change: T -> T): (r: seq<Doc<T>>)
    ensures |r| == |rows|
    ensures forall i :: 0 <= i < |rows| ==>
      r[i] == if select(rows[i]) then rows[i].(data := change(rows[i].data)) else rows[i]
  {
    seq(|rows|, i requires 0 <= i < |rows| =>
      if select(rows[i]) then rows[i].(data := change(rows[i].data)) else rows[i])
  }

  /** `doc.save()` after changing a loaded document: the stored document with that `_id` gets the new fields. */
  function SetData<T>(rows: seq<Doc<T>>, id: Id, data: T): (r: seq<Doc<T>>)
    ensures |r| == |rows|
    ensures forall i :: 0 <= i < |rows| ==>
      r[i] == if rows[i].id == id then rows[i].(data := data) else rows[i]
  {
    seq(|rows|, i requires 0 <= i < |rows| => if rows[i].id == id then rows[i].(data := data) else rows[i])
  }

  /** Changing fields keeps every `_id` where it was. */
  lemma SetDataKeepsIds<T>(rows: seq<Doc<T>>, id: Id, data: T)
    ensures forall i :: 0 <= i < |rows| ==> SetData(rows, id, data)[i].id == rows[i].id
    ensures DistinctIds(rows) ==> DistinctIds(SetData(rows, id, data))
    ensures forall b: nat :: IdsBelow(rows, b) ==> IdsBelow(SetData(rows, id, data), b)
  {
  }

  /**
   * With distinct ids, saving the document found by `_id` changes that
   * document and nothing else.
   */
  lemma SetDataChangesOne<T>(rows: seq<Doc<T>>, k: nat, data: T)
    requires DistinctIds(rows) && k < |rows|
    ensures SetData(rows, rows[k].id, data) == rows[k := rows[k].(data := data)]
  {
  }

  /** With distinct ids, deleting by `_id` removes exactly that one document. */
  lemma {:induction false} RejectIdRemovesOne<T>(rows: seq<Doc<T>>, k: nat)
    requires DistinctIds(rows) && k < |rows|
    ensures Reject(rows, HasId(rows[k].id)) == rows[..k] + rows[k + 1..]
  {
    if k == 0 {
      RejectNone(rows[1..], HasId(rows[0].id));
      assert rows[..0] + rows[1..] == rows[1..];
    } else {
      assert DistinctIds(rows[1..]);
      RejectIdRemovesOne(rows[1..], k - 1);
      assert rows[1..][k - 1].id == rows[k].id;
      assert rows[1..][..k - 1] + rows[1..][k..] == rows[1..k] + rows[k + 1..];
      assert rows[..k] == [rows[0]] + rows[1..k];
    }
  }

  /** Deleting with a filter that selects nothing keeps every document. */
  lemma {:induction false} RejectNone<T>(rows: seq<Doc<T>>, drop: Doc<T> -> bool)
    requires forall i :: 0 <= i < |rows| ==> !drop(rows[i])
    ensures Reject(rows, drop) == rows
  {
    if rows != [] {
      RejectNone(rows[1..], drop);
      assert rows == [rows[0]] + rows[1..];
    }
  }

  /** A stored document with a given `_id` is the one at that position. */
  lemma Locate<T>(rows: seq<Doc<T>>, d: Doc<T>) returns (k: nat)
    requires DistinctIds(rows) && d in rows
    ensures k < |rows| && rows[k] == d
    ensures forall i :: 0 <= i < |rows| && rows[i].id == d.id ==> i == k
  {
    k :| 0 <= k < |rows| && rows[k] == d;
  }

  /** Deleting by `_id` the document just appended under a fresh `_id` restores the collection. */
  lemma {:induction false} RejectFresh<T>(rows: seq<Doc<T>>, d: Doc<T>)
    requires forall i :: 0 <= i < |rows| ==> rows[i].id != d.id
    ensures Reject(rows + [d], HasId(d.id)) == rows
  {
    var t := rows + [d];
    if rows == [] {
      assert Reject(t, HasId(d.id)) == [] by {
        assert t[1..] == [];
        assert HasId(d.id)(t[0]);
      }
    } else {
      assert Reject(t, HasId(d.id)) == [rows[0]] + Reject(t[1..], HasId(d.id)) by {
        assert t[0] == rows[0];
        assert !HasId(d.id)(t[0]);
      }
      assert t[1..] == rows[1..] + [d];
      RejectFresh(rows[1..], d);
      assert rows == [rows[0]] + rows[1..];
    }
  }

  /** A Mongoose model's collection, updated in place by the route handlers. */
  class Collection<T> {
    var rows: seq<Doc<T>>
    var nextId: Id

    ghost predicate Valid()
      reads this
    {
      IdsBelow(rows, nextId) && DistinctIds(rows)
    }

    constructor ()
      ensures Valid() && rows == []
    {
      rows := [];
      nextId := 0;
    }

    /** `Model.create(data)`: stores a new document under a fresh `_id`. */
    method Create(data: T, now: int) returns (d: Doc<T>)
      requires Valid()
      modifies this
      ensures Valid()
      ensures d.data == data && d.createdAt == now
      ensures forall i :: 0 <= i < |old(rows)| ==> old(rows)[i].id != d.id
      ensures rows == old(rows) + [d]
    {
      d := Doc(nextId, now, data);
      rows := rows + [d];
      nextId := nextId + 1;
    }

    /** `Model.deleteMany(filter)`. */
    method DeleteWhere(drop: Doc<T> -> bool)
      requires Valid()
      modifies this`rows
      ensures Valid()
      ensures rows == Reject(old(rows), drop)
    {
      RejectKeepsIds(rows, drop);
      rows := Reject(rows, drop);
    }

    /** `Model.findByIdAndDelete(id)`; an unknown id deletes nothing. */
    method DeleteById(id: Id)
      requires Valid()
      modifies this`rows
      ensures Valid()
      ensures rows == Reject(old(rows), HasId(id))
    {
      RejectKeepsIds(rows, HasId(id));
      rows := Reject(rows, HasId(id));
    }

    /** `Model.updateMany(filter, change)`. */
    method UpdateMany(select: Doc<T> -> bool, change: T -> T)
      requires Valid()
      modifies this`rows
      ensures Valid()
      ensures rows == UpdateWhere(old(rows), select, change)
    {
      rows := UpdateWhere(rows, select, change);
      assert forall i :: 0 <= i < |rows| ==> rows[i].id == old(rows)[i].id;
    }

    /** `doc.save()` for a document loaded earlier and changed in memory. */
    method Save(id: Id, data: T)
      requires Valid()
      modifies this`rows
      ensures Valid()
      ensures rows == SetData(old(rows), id, data)
    {
      SetDataKeepsIds(rows, id, data);
      rows := SetData(rows, id, data);
    }
  }
}
