/**
 * The privacy guard and the projection loop shared by the three endpoints:
 * walk the fetched rows in order, skip the private ones, join the names from
 * the metadata by id and project each remaining row.
 */
module Visibility {
  import opened PhpValues
  import opened Records

  /** The guard `if ( ! $users->field( 'privacy_flag' ) )` fails exactly for these rows. */
  predicate Private(r: Row) {
    Truthy(r.privacyFlag)
  }

  /**
   * The name lookup is unguarded, so it demands names for every row the
   * guard lets through, and for no other row.
   */
  predicate NamesPresent(rows: seq<Row>, meta: Meta) {
    forall k :: 0 <= k < |rows| && !Private(rows[k]) ==> HasNames(meta, rows[k].id)
  }

  /** The fetch positions that pass the privacy guard, in fetch order. */
  function Kept(rows: seq<Row>): (idx: seq<nat>)
    ensures |idx| <= |rows|
    ensures forall k :: 0 <= k < |idx| ==> idx[k] < |rows| && !Private(rows[idx[k]])
    ensures forall k, l :: 0 <= k < l < |idx| ==> idx[k] < idx[l]
    ensures forall j :: 0 <= j < |rows| && !Private(rows[j]) ==> j in idx
  {
    if rows == [] then []
    else
      var n := |rows| - 1;
      var before := Kept(rows[..n]);
      assert forall k :: 0 <= k < |before| ==> rows[..n][before[k]] == rows[before[k]];
      before + if Private(rows[n]) then [] else [n]
  }

  /** What the fetch loop appends to `$export_data`, one projected entry per kept row. */
  function Project<T>(rows: seq<Row>, meta: Meta, shape: (Row, string, string) -> T): seq<T>
    requires NamesPresent(rows, meta)
  {
    if rows == [] then []
    else
      var n := |rows| - 1;
      assert forall k :: 0 <= k < n ==> rows[..n][k] == rows[k];
      var r := rows[n];
      Project(rows[..n], meta, shape)
        + if Private(r) then [] else [shape(r, FirstName(meta, r.id), LastName(meta, r.id))]
  }

  lemma NamesPresentPrefix(rows: seq<Row>, meta: Meta, i: nat)
    requires NamesPresent(rows, meta) && i <= |rows|
    ensures NamesPresent(rows[..i], meta)
  {
    assert forall k :: 0 <= k < i ==> rows[..i][k] == rows[k];
  }

  /** One more fetched row adds its projection to the output, unless it is private. */
  lemma ProjectStep<T>(rows: seq<Row>, meta: Meta, shape: (Row, string, string) -> T, i: nat)
    requires NamesPresent(rows, meta) && i < |rows|
    ensures NamesPresent(rows[..i], meta) && NamesPresent(rows[..i + 1], meta)
    ensures Project(rows[..i + 1], meta, shape) == Project(rows[..i], meta, shape)
      + if Private(rows[i]) then [] else [shape(rows[i], FirstName(meta, rows[i].id), LastName(meta, rows[i].id))]
  {
    NamesPresentPrefix(rows, meta, i);
    NamesPresentPrefix(rows, meta, i + 1);
    assert rows[..i + 1][..i] == rows[..i];
  }

  /** Output entry `k` is the projection of the `k`-th kept row, with its names from the metadata. */
  ghost predicate ProjectedAt<T>(rows: seq<Row>, meta: Meta, shape: (Row, string, string) -> T,
                                 out: seq<T>, idx: seq<nat>, k: int)
  {
    0 <= k < |idx| && k < |out| && idx[k] < |rows|
    && HasNames(meta, rows[idx[k]].id)
    && out[k] == shape(rows[idx[k]], FirstName(meta, rows[idx[k]].id), LastName(meta, rows[idx[k]].id))
  }

  /**
   * The output is exactly the kept rows, projected, in fetch order: entry `k`
   * comes from fetch position `Kept(rows)[k]`, a non-private row.
   */
  lemma {:induction false} ProjectSelectsKept<T>(rows: seq<Row>, meta: Meta, shape: (Row, string, string) -> T)
    requires NamesPresent(rows, meta)
    ensures |Project(rows, meta, shape)| == |Kept(rows)|
    ensures forall k :: 0 <= k < |Kept(rows)| ==>
      ProjectedAt(rows, meta, shape, Project(rows, meta, shape), Kept(rows), k)
  {
    if rows != [] {
      var n := |rows| - 1;
      var init := rows[..n];
      assert forall k :: 0 <= k < n ==> init[k] == rows[k];
      assert NamesPresent(init, meta);
      ProjectSelectsKept(init, meta, shape);
      var out, idx := Project(rows, meta, shape), Kept(rows);
      var out0, idx0 := Project(init, meta, shape), Kept(init);
      forall k | 0 <= k < |idx|
        ensures ProjectedAt(rows, meta, shape, out, idx, k)
      {
        if k < |idx0| {
          assert idx[k] == idx0[k] && out[k] == out0[k];
          assert ProjectedAt(init, meta, shape, out0, idx0, k);
          assert init[idx0[k]] == rows[idx[k]];
        } else {
          assert idx[k] == n;
        }
      }
    }
  }

  ghost function NonPrivatePositions(rows: seq<Row>): set<int> {
    set j | 0 <= j < |rows| && !Private(rows[j])
  }

  /** The output has one entry per non-private fetched row, so never more than there are rows. */
  lemma {:induction false} ProjectCount<T>(rows: seq<Row>, meta: Meta, shape: (Row, string, string) -> T)
    requires NamesPresent(rows, meta)
    ensures |Project(rows, meta, shape)| == |NonPrivatePositions(rows)| <= |rows|
  {
    ProjectSelectsKept(rows, meta, shape);
    KeptCount(rows);
  }

  lemma {:induction false} KeptCount(rows: seq<Row>)
    ensures |Kept(rows)| == |NonPrivatePositions(rows)|
  {
    if rows != [] {
      var n := |rows| - 1;
      var init := rows[..n];
      KeptCount(init);
      NonPrivatePositionsSnoc(rows);
    }
  }

  lemma NonPrivatePositionsSnoc(rows: seq<Row>)
    requires rows != []
    ensures var n := |rows| - 1;
      |NonPrivatePositions(rows)| == |NonPrivatePositions(rows[..n])| + if Private(rows[n]) then 0 else 1
  {
    var n := |rows| - 1;
    var init := rows[..n];
    var before, after := NonPrivatePositions(init), NonPrivatePositions(rows);
    assert forall j :: 0 <= j < n ==> init[j] == rows[j];
    if Private(rows[n]) {
      forall j | j in after ensures j in before { assert j != n && rows[j] == init[j]; }
      assert after == before;
    } else {
      forall j | j in after ensures j in before + {n} { if j != n { assert rows[j] == init[j]; } }
      assert after == before + {n};
      assert n !in before;
    }
  }

  /** The output is empty exactly when every fetched row is private. */
  lemma {:induction false} ProjectEmptyIff<T>(rows: seq<Row>, meta: Meta, shape: (Row, string, string) -> T)
    requires NamesPresent(rows, meta)
    ensures Project(rows, meta, shape) == [] <==> forall j :: 0 <= j < |rows| ==> Private(rows[j])
  {
    var idx := Kept(rows);
    ProjectSelectsKept(rows, meta, shape);
    if exists j :: 0 <= j < |rows| && !Private(rows[j]) {
      var j :| 0 <= j < |rows| && !Private(rows[j]);
      assert j in idx;
    } else {
      KeptCount(rows);
      assert NonPrivatePositions(rows) == {};
    }
  }

  /** The name requirement concerns exactly the rows the guard lets through. */
  lemma {:induction false} NamesNeededExactlyForKept(rows: seq<Row>, meta: Meta)
    ensures NamesPresent(rows, meta) <==>
      forall k :: 0 <= k < |Kept(rows)| ==> HasNames(meta, rows[Kept(rows)[k]].id)
  {
    var idx := Kept(rows);
    if forall k :: 0 <= k < |idx| ==> HasNames(meta, rows[idx[k]].id) {
      forall j | 0 <= j < |rows| && !Private(rows[j])
        ensures HasNames(meta, rows[j].id)
      {
        var k :| 0 <= k < |idx| && idx[k] == j;
      }
    } else {
      var k :| 0 <= k < |idx| && !HasNames(meta, rows[idx[k]].id);
      assert !Private(rows[idx[k]]);
    }
  }

  /**
   * The fetched rows come in non-decreasing last-name order under `le`, as the
   * query's `orderby` asks (rows without names are left unconstrained).
   */
  ghost predicate FetchedByLastName(rows: seq<Row>, meta: Meta, le: (string, string) -> bool) {
    forall i, j :: 0 <= i < j < |rows| && HasNames(meta, rows[i].id) && HasNames(meta, rows[j].id)
      ==> le(LastName(meta, rows[i].id), LastName(meta, rows[j].id))
  }

  /** Skipping private rows keeps the relative order, so summaries stay in last-name order. */
  lemma {:induction false} SummariesByLastName(rows: seq<Row>, meta: Meta, le: (string, string) -> bool)
    requires NamesPresent(rows, meta)
    requires FetchedByLastName(rows, meta, le)
    ensures var out := Project(rows, meta, Summarize);
      forall k, l :: 0 <= k < l < |out| ==> le(out[k].lastName, out[l].lastName)
  {
    var out, idx := Project(rows, meta, Summarize), Kept(rows);
    ProjectSelectsKept(rows, meta, Summarize);
    forall k, l | 0 <= k < l < |out|
      ensures le(out[k].lastName, out[l].lastName)
    {
      assert ProjectedAt(rows, meta, Summarize, out, idx, k);
      assert ProjectedAt(rows, meta, Summarize, out, idx, l);
      assert idx[k] < idx[l];
    }
  }

  /** Because of the guard, every detail entry carries a falsy privacy flag. */
  lemma {:induction false} DetailsNeverPrivate(rows: seq<Row>, meta: Meta)
    requires NamesPresent(rows, meta)
    ensures var out := Project(rows, meta, Detailed);
      forall k :: 0 <= k < |out| ==> !Truthy(out[k].privacyFlag)
  {
    var out, idx := Project(rows, meta, Detailed), Kept(rows);
    ProjectSelectsKept(rows, meta, Detailed);
    forall k | 0 <= k < |out|
      ensures !Truthy(out[k].privacyFlag)
    {
      assert ProjectedAt(rows, meta, Detailed, out, idx, k);
    }
  }
}
