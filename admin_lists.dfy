/** The list updates the four admin pages share: an updated row replaces the
    row with its id, a deleted id filters the list, and a delete runs only
    for a pending id that is set. */
module AdminLists {
  import opened Common

  /** The answer of a page's `select('*')`: the rows (`data`, possibly null),
      or the error. */
  datatype FetchReply<R> = Fetched(data: Option<seq<R>>) | FetchFailed(message: string)

  /** `data || []`. */
  function RowsOf<R>(data: Option<seq<R>>): seq<R>
  {
    if data.Some? then data.value else []
  }

  /** `rows.map(r => (r.id === updated.id ? updated : r))`. */
  function ReplaceById<R>(rows: seq<R>, updated: R, idOf: R -> int): (r: seq<R>)
    ensures |r| == |rows|
    ensures forall k :: 0 <= k < |rows| && idOf(rows[k]) == idOf(updated) ==> r[k] == updated
    ensures forall k :: 0 <= k < |rows| && idOf(rows[k]) != idOf(updated) ==> r[k] == rows[k]
  {
    if |rows| == 0 then []
    else [if idOf(rows[0]) == idOf(updated) then updated else rows[0]] + ReplaceById(rows[1..], updated, idOf)
  }

  /** `rows.filter(r => r.id !== id)`. */
  function RemoveById<R>(rows: seq<R>, id: int, idOf: R -> int): (r: seq<R>)
    ensures forall x :: x in r ==> x in rows && idOf(x) != id
    ensures forall k :: 0 <= k < |rows| && idOf(rows[k]) != id ==> rows[k] in r
    ensures |r| <= |rows|
  {
    if |rows| == 0 then []
    else if idOf(rows[0]) == id then RemoveById(rows[1..], id, idOf)
    else [rows[0]] + RemoveById(rows[1..], id, idOf)
  }

  /** `filter` keeps order and multiplicity: a single row stays exactly when
      its id differs, and filtering a concatenation filters each part, so
      the result is the rows with another id, in their order, each as often
      as it occurs. */
  lemma {:induction false} RemoveByIdAppend<R>(a: seq<R>, b: seq<R>, id: int, idOf: R -> int)
    ensures RemoveById(a + b, id, idOf) == RemoveById(a, id, idOf) + RemoveById(b, id, idOf)
    ensures |a| == 1 ==> RemoveById(a, id, idOf) == if idOf(a[0]) != id then a else []
  {
    if |a| == 0 {
      assert a + b == b;
    } else {
      ConsOfConcat(a, b);
      RemoveByIdAppend(a[1..], b, id, idOf);
      var h := if idOf(a[0]) == id then [] else [a[0]];
      ConcatAssoc(h, RemoveById(a[1..], id, idOf), RemoveById(b, id, idOf));
      if |a| == 1 {
        assert a[1..] == [];
      }
    }
  }

  /** `if (!id) return;`: a missing id, and the id 0, start no delete. */
  predicate PendingId(id: Option<int>)
  {
    id.Some? && id.value != 0
  }

  /** Filtering an id no row has keeps the list as it is, order included. */
  lemma {:induction false} RemoveAbsentId<R>(rows: seq<R>, id: int, idOf: R -> int)
    requires forall k :: 0 <= k < |rows| ==> idOf(rows[k]) != id
    ensures RemoveById(rows, id, idOf) == rows
  {
    if |rows| > 0 {
      RemoveAbsentId(rows[1..], id, idOf);
      assert [rows[0]] + rows[1..] == rows;
    }
  }

  /** Deleting right after adding: the added row goes again and the rest of
      the list is filtered as before, so when no older row shares its id the
      list is the one before the add. */
  lemma RemoveAfterPrepend<R>(rows: seq<R>, added: R, idOf: R -> int)
    ensures RemoveById([added] + rows, idOf(added), idOf) == RemoveById(rows, idOf(added), idOf)
    ensures (forall k :: 0 <= k < |rows| ==> idOf(rows[k]) != idOf(added)) ==>
      RemoveById([added] + rows, idOf(added), idOf) == rows
  {
    assert ([added] + rows)[1..] == rows;
    if forall k :: 0 <= k < |rows| ==> idOf(rows[k]) != idOf(added) {
      RemoveAbsentId(rows, idOf(added), idOf);
    }
  }

  /** Deleting after an update removes the same rows as deleting before
      it. */
  lemma {:induction false} RemoveAfterReplace<R>(rows: seq<R>, updated: R, idOf: R -> int)
    ensures RemoveById(ReplaceById(rows, updated, idOf), idOf(updated), idOf) == RemoveById(rows, idOf(updated), idOf)
  {
    if |rows| > 0 {
      var r := ReplaceById(rows, updated, idOf);
      assert r[1..] == ReplaceById(rows[1..], updated, idOf);
      RemoveAfterReplace(rows[1..], updated, idOf);
    }
  }

  /** Updating a row that is not listed changes nothing. */
  lemma {:induction false} ReplaceAbsentId<R>(rows: seq<R>, updated: R, idOf: R -> int)
    requires forall k :: 0 <= k < |rows| ==> idOf(rows[k]) != idOf(updated)
    ensures ReplaceById(rows, updated, idOf) == rows
  {
    if |rows| > 0 {
      ReplaceAbsentId(rows[1..], updated, idOf);
      assert [rows[0]] + rows[1..] == rows;
    }
  }

  /** Updating with a row is idempotent. */
  lemma {:induction false} ReplaceIdempotent<R>(rows: seq<R>, updated: R, idOf: R -> int)
    ensures ReplaceById(ReplaceById(rows, updated, idOf), updated, idOf) == ReplaceById(rows, updated, idOf)
  {
    if |rows| > 0 {
      var r := ReplaceById(rows, updated, idOf);
      assert r[1..] == ReplaceById(rows[1..], updated, idOf);
      ReplaceIdempotent(rows[1..], updated, idOf);
    }
  }
}
