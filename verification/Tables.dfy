/** Rows of a table with a surrogate id and an owner, and the statements the
    ledger runs on them: insert, delete by owner, update by id, and select by
    owner in id order. */
module Tables {
  import opened Wrappers
  import opened Lists

  datatype Row<O, T> = Row(id: nat, owner: O, data: T)

  // SQLite numbers a row one past the highest id in its table.
  function NextId<O, T>(t: seq<Row<O, T>>): nat {
    if t == [] then 1 else t[|t| - 1].id + 1
  }

  function Insert<O, T>(t: seq<Row<O, T>>, owner: O, data: T): seq<Row<O, T>> {
    t + [Row(NextId(t), owner, data)]
  }

  function Delete<O(==), T>(t: seq<Row<O, T>>, owners: set<O>): seq<Row<O, T>> {
    if t == [] then [] else
      Delete(t[..|t| - 1], owners) + (if t[|t| - 1].owner in owners then [] else [t[|t| - 1]])
  }

  function SetData<O, T>(t: seq<Row<O, T>>, id: nat, data: T): seq<Row<O, T>> {
    if t == [] then [] else
      SetData(t[..|t| - 1], id, data) + [if t[|t| - 1].id == id then t[|t| - 1].(data := data) else t[|t| - 1]]
  }

  // One owner's rows, in id order.
  function Of<O(==), T>(t: seq<Row<O, T>>, owner: O): seq<T> {
    if t == [] then [] else
      Of(t[..|t| - 1], owner) + (if t[|t| - 1].owner == owner then [t[|t| - 1].data] else [])
  }

  function IdsOf<O(==), T>(t: seq<Row<O, T>>, owner: O): (ids: seq<nat>)
    ensures |ids| == |Of(t, owner)|
  {
    if t == [] then [] else
      IdsOf(t[..|t| - 1], owner) + (if t[|t| - 1].owner == owner then [t[|t| - 1].id] else [])
  }

  function Ids<O, T>(t: seq<Row<O, T>>): set<nat> {
    if t == [] then {} else Ids(t[..|t| - 1]) + {t[|t| - 1].id}
  }

  function Owners<O(==), T>(t: seq<Row<O, T>>): set<O> {
    if t == [] then {} else Owners(t[..|t| - 1]) + {t[|t| - 1].owner}
  }

  // Ids only ever grow along a table.
  ghost predicate Sorted<O, T>(t: seq<Row<O, T>>) {
    t == [] || (Sorted(t[..|t| - 1]) && NextId(t[..|t| - 1]) <= t[|t| - 1].id)
  }

  // One more row at the end of a table.
  lemma Grown<O, T>(t: seq<Row<O, T>>, row: Row<O, T>, owner: O)
    ensures Of(t + [row], owner) == if row.owner == owner then Of(t, owner) + [row.data] else Of(t, owner)
    ensures IdsOf(t + [row], owner) == if row.owner == owner then IdsOf(t, owner) + [row.id] else IdsOf(t, owner)
    ensures Ids(t + [row]) == Ids(t) + {row.id} && Owners(t + [row]) == Owners(t) + {row.owner}
    ensures NextId(t + [row]) == row.id + 1
    ensures Sorted(t + [row]) <==> Sorted(t) && NextId(t) <= row.id
  {
    InitLast(t, row);
  }

  lemma {:induction false} OwnerHasRows<O, T>(t: seq<Row<O, T>>, owner: O)
    ensures owner in Owners(t) <==> Of(t, owner) != []
  {
    if t != [] { OwnerHasRows(t[..|t| - 1], owner); }
  }

  lemma {:induction false} IdsOfAre<O, T>(t: seq<Row<O, T>>, owner: O, j: nat)
    requires j < |IdsOf(t, owner)|
    ensures IdsOf(t, owner)[j] in Ids(t)
  {
    var init := t[..|t| - 1];
    if j < |IdsOf(init, owner)| { IdsOfAre(init, owner, j); }
  }

  // ---------------------------------------------------------------------------
  // Insert

  lemma InsertOf<O, T>(t: seq<Row<O, T>>, owner: O, data: T, other: O)
    ensures Of(Insert(t, owner, data), other) == if other == owner then Of(t, other) + [data] else Of(t, other)
    ensures IdsOf(Insert(t, owner, data), other)
      == if other == owner then IdsOf(t, other) + [NextId(t)] else IdsOf(t, other)
    ensures Ids(Insert(t, owner, data)) == Ids(t) + {NextId(t)} && Owners(Insert(t, owner, data)) == Owners(t) + {owner}
  {
    Grown(t, Row(NextId(t), owner, data), other);
  }

  lemma {:induction false} IdsBelow<O, T>(t: seq<Row<O, T>>, id: nat)
    requires Sorted(t) && id in Ids(t)
    ensures id < NextId(t)
  {
    if id in Ids(t[..|t| - 1]) { IdsBelow(t[..|t| - 1], id); }
  }

  lemma InsertSorted<O, T>(t: seq<Row<O, T>>, owner: O, data: T)
    requires Sorted(t)
    ensures Sorted(Insert(t, owner, data)) && NextId(t) !in Ids(t)
  {
    Grown(t, Row(NextId(t), owner, data), owner);
    if NextId(t) in Ids(t) { IdsBelow(t, NextId(t)); }
  }

  // ---------------------------------------------------------------------------
  // Delete

  lemma {:induction false} DeleteOf<O, T>(t: seq<Row<O, T>>, owners: set<O>, owner: O)
    ensures Of(Delete(t, owners), owner) == if owner in owners then [] else Of(t, owner)
    ensures IdsOf(Delete(t, owners), owner) == if owner in owners then [] else IdsOf(t, owner)
  {
    if t != [] {
      var init, last := t[..|t| - 1], t[|t| - 1];
      DeleteOf(init, owners, owner);
      Grown(Delete(init, owners), last, owner);
      assert last.owner in owners ==> Delete(t, owners) == Delete(init, owners);
    }
  }

  lemma {:induction false} DeleteKeeps<O, T>(t: seq<Row<O, T>>, owners: set<O>)
    ensures Ids(Delete(t, owners)) <= Ids(t) && Owners(Delete(t, owners)) == Owners(t) - owners
    ensures Sorted(t) ==> Sorted(Delete(t, owners)) && NextId(Delete(t, owners)) <= NextId(t)
  {
    if t != [] {
      var init, last := t[..|t| - 1], t[|t| - 1];
      DeleteKeeps(init, owners);
      Grown(Delete(init, owners), last, last.owner);
      assert last.owner in owners ==> Delete(t, owners) == Delete(init, owners);
    }
  }

  // ---------------------------------------------------------------------------
  // Update by id

  lemma {:induction false} SetDataKeeps<O, T>(t: seq<Row<O, T>>, id: nat, data: T, owner: O)
    ensures Ids(SetData(t, id, data)) == Ids(t) && Owners(SetData(t, id, data)) == Owners(t)
    ensures IdsOf(SetData(t, id, data), owner) == IdsOf(t, owner)
    ensures (Sorted(t) ==> Sorted(SetData(t, id, data))) && NextId(SetData(t, id, data)) == NextId(t)
    ensures id !in Ids(t) ==> SetData(t, id, data) == t
  {
    if t != [] {
      var init, last := t[..|t| - 1], t[|t| - 1];
      SetDataKeeps(init, id, data, owner);
      Grown(SetData(init, id, data), if last.id == id then last.(data := data) else last, owner);
      if id !in Ids(t) { assert t == init + [last]; }
    }
  }

  // An owner's rows hold more of one it owns itself.
  function Own<O(==), T>(row: Row<O, T>, owner: O): seq<T> {
    if row.owner == owner then [row.data] else []
  }

  /** Setting one owner's j-th row changes that row and nothing else. */
  lemma {:induction false} SetDataOf<O, T>(t: seq<Row<O, T>>, owner: O, j: nat, data: T, other: O)
    requires Sorted(t) && j < |Of(t, owner)|
    ensures Of(SetData(t, IdsOf(t, owner)[j], data), other)
      == if other == owner then Of(t, owner)[j := data] else Of(t, other)
  {
    var init, last := t[..|t| - 1], t[|t| - 1];
    var id := IdsOf(t, owner)[j];
    if id in Ids(init) { IdsBelow(init, id); }
    if j < |Of(init, owner)| {
      IdsOfAre(init, owner, j);
      IdsBelow(init, id);
      SetDataOf(init, owner, j, data, other);
      Grown(SetData(init, id, data), last, other);
      UpdateLeft(Of(init, owner), Own(last, owner), j, data);
    } else {
      SetDataKeeps(init, id, data, other);
      Grown(init, last.(data := data), other);
      UpdateLast(Of(init, owner), last.data, data);
    }
  }

  /** Distinct rows of one owner, or rows of distinct owners, have distinct ids. */
  lemma {:induction false} IdsOfDistinct<O, T>(t: seq<Row<O, T>>, a: O, i: nat, b: O, j: nat)
    requires Sorted(t) && i < |IdsOf(t, a)| && j < |IdsOf(t, b)| && IdsOf(t, a)[i] == IdsOf(t, b)[j]
    ensures a == b && i == j
  {
    var init, last := t[..|t| - 1], t[|t| - 1];
    if i < |IdsOf(init, a)| { IdsOfAre(init, a, i); IdsBelow(init, IdsOf(init, a)[i]); }
    if j < |IdsOf(init, b)| { IdsOfAre(init, b, j); IdsBelow(init, IdsOf(init, b)[j]); }
    if i < |IdsOf(init, a)| && j < |IdsOf(init, b)| {
      IdsOfDistinct(init, a, i, b, j);
    }
  }

  // The row with this id.
  function Find<O, T>(t: seq<Row<O, T>>, id: nat): (r: Option<Row<O, T>>)
    ensures r.Some? ==> r.value.id == id
    ensures r.Some? <==> id in Ids(t)
  {
    if t == [] then None else if t[|t| - 1].id == id then Some(t[|t| - 1]) else Find(t[..|t| - 1], id)
  }

  // How many of the owner's rows have an id no higher than this one's.
  function CountUpTo<O(==), T>(t: seq<Row<O, T>>, owner: O, id: nat): nat {
    if t == [] then 0 else
      CountUpTo(t[..|t| - 1], owner, id) + (if t[|t| - 1].owner == owner && t[|t| - 1].id <= id then 1 else 0)
  }

  lemma {:induction false} CountAll<O, T>(t: seq<Row<O, T>>, owner: O, id: nat)
    requires Sorted(t) && NextId(t) <= id + 1
    ensures CountUpTo(t, owner, id) == |Of(t, owner)|
  {
    if t != [] { CountAll(t[..|t| - 1], owner, id); }
  }

  /** Counting an owner's rows up to one of them gives the place that row is
      found at again: the position is inverted by the offset. */
  lemma {:induction false} CountIsPlace<O, T>(t: seq<Row<O, T>>, id: nat)
    requires Sorted(t) && Find(t, id).Some?
    ensures var row := Find(t, id).value; var place := CountUpTo(t, row.owner, id);
      && 1 <= place <= |Of(t, row.owner)| && IdsOf(t, row.owner)[place - 1] == id
      && Of(t, row.owner)[place - 1] == row.data
  {
    var init, last := t[..|t| - 1], t[|t| - 1];
    if last.id == id {
      CountAll(init, last.owner, id);
    } else {
      IdsBelow(init, id);
      CountIsPlace(init, id);
    }
  }

  lemma {:induction false} FindOf<O, T>(t: seq<Row<O, T>>, owner: O, j: nat)
    requires Sorted(t) && j < |Of(t, owner)|
    ensures Find(t, IdsOf(t, owner)[j]) == Some(Row(IdsOf(t, owner)[j], owner, Of(t, owner)[j]))
  {
    var init := t[..|t| - 1];
    if j < |Of(init, owner)| {
      IdsOfAre(init, owner, j);
      IdsBelow(init, IdsOf(init, owner)[j]);
      FindOf(init, owner, j);
    }
  }
}
