/** The parent-first order of market_pipeline_lib/legacy_bootstrap.py. */
module ParentFirst {
  import opened Common

  /** A catalog row: its primary key, the row it supersedes, everything else. */
  datatype Row = Row(id: int, parent: Option<int>, body: int)

  ghost predicate UniqueIds(rows: seq<Row>) {
    forall i, j :: 0 <= i < j < |rows| ==> rows[i].id != rows[j].id
  }

  function Ids(rows: seq<Row>): set<int> {
    set r | r in rows :: r.id
  }

  ghost predicate Link(rows: seq<Row>, child: int, parent: int) {
    exists r :: r in rows && r.id == child && r.parent == Some(parent)
  }

  /** Ids of rows, each superseding the next and the last superseding the first. */
  ghost predicate IsCycle(rows: seq<Row>, c: seq<int>) {
    && c != []
    && (forall i :: 0 <= i < |c| - 1 ==> Link(rows, c[i], c[i + 1]))
    && Link(rows, c[|c| - 1], c[0])
  }

  ghost predicate HasCycle(rows: seq<Row>) {
    exists c :: IsCycle(rows, c)
  }

  /** Row i of the order comes after its parent, when the parent is one of `ids`. */
  ghost predicate FollowsParent(order: seq<Row>, ids: set<int>, i: nat)
    requires i < |order|
  {
    order[i].parent.Some? && order[i].parent.value in ids ==> order[i].parent.value in Ids(order[..i])
  }

  ghost predicate ParentsComeFirst(order: seq<Row>, ids: set<int>) {
    forall i: nat :: i < |order| ==> FollowsParent(order, ids, i)
  }

  predicate Ready(row: Row, known: set<int>, ids: set<int>) {
    row.parent.None? || row.parent.value in known || row.parent.value !in ids
  }

  function ReadyRows(rows: seq<Row>, known: set<int>, ids: set<int>): (ready: seq<Row>)
    ensures forall r :: r in ready <==> r in rows && Ready(r, known, ids)
    ensures multiset(ready) <= multiset(rows)
  {
    if rows == [] then []
    else
      assert rows == [rows[0]] + rows[1..];
      if Ready(rows[0], known, ids) then [rows[0]] + ReadyRows(rows[1..], known, ids)
      else ReadyRows(rows[1..], known, ids)
  }

  function RemoveFirst(rows: seq<Row>, row: Row): (rest: seq<Row>)
    requires row in rows
    ensures multiset(rest) == multiset(rows) - multiset{row}
    ensures |rest| == |rows| - 1
  {
    assert rows == [rows[0]] + rows[1..];
    if rows[0] == row then rows[1..] else [rows[0]] + RemoveFirst(rows[1..], row)
  }

  lemma SameRows(a: seq<Row>, b: seq<Row>)
    requires multiset(a) == multiset(b)
    ensures forall r :: r in a <==> r in b
    ensures |a| == |b|
  {
    forall r ensures r in a <==> r in b {
      assert r in a <==> r in multiset(a);
      assert r in b <==> r in multiset(b);
    }
    assert |multiset(a)| == |a| && |multiset(b)| == |b|;
  }

  lemma AppendReady(order: seq<Row>, ids: set<int>, row: Row, known: set<int>)
    requires ParentsComeFirst(order, ids) && Ready(row, known, ids) && known <= Ids(order)
    ensures ParentsComeFirst(order + [row], ids)
  {
    var longer := order + [row];
    forall i: nat | i < |longer| ensures FollowsParent(longer, ids, i) {
      assert longer[..i] == order[..i];
      if i < |order| {
        assert FollowsParent(order, ids, i);
      } else {
        assert order[..i] == order;
      }
    }
  }

  lemma NothingOrdered(ids: set<int>)
    ensures ParentsComeFirst([], ids) && Ids([]) == {}
  {
  }

  /** The rows are split between those ordered so far and those remaining. */
  ghost predicate Divided(rows: seq<Row>, ordered: seq<Row>, remaining: seq<Row>) {
    multiset(ordered) + multiset(remaining) == multiset(rows)
  }

  ghost predicate StillRemain(ready: seq<Row>, k: nat, remaining: seq<Row>)
    requires k <= |ready|
  {
    multiset(ready[k..]) <= multiset(remaining)
  }

  lemma TakeReady(ready: seq<Row>, k: nat, remaining: seq<Row>)
    requires k < |ready| && StillRemain(ready, k, remaining)
    ensures ready[k] in remaining
    ensures StillRemain(ready, k + 1, RemoveFirst(remaining, ready[k]))
  {
    assert ready[k..] == [ready[k]] + ready[k + 1..];
    assert ready[k] in multiset(ready[k..]);
    assert ready[k] in multiset(remaining);
  }

  lemma MoveRow(rows: seq<Row>, ordered: seq<Row>, remaining: seq<Row>, row: Row)
    requires Divided(rows, ordered, remaining) && row in remaining
    ensures Divided(rows, ordered + [row], RemoveFirst(remaining, row))
    ensures Ids(ordered + [row]) == Ids(ordered) + {row.id}
  {
    assert row in multiset(remaining);
    forall id ensures id in Ids(ordered + [row]) <==> id in Ids(ordered) + {row.id} {
      if id in Ids(ordered) {
        var r :| r in ordered && r.id == id;
        assert r in ordered + [row];
      }
      assert row in ordered + [row];
    }
  }

  lemma NothingDivided(rows: seq<Row>)
    ensures Divided(rows, [], rows)
  {
  }

  lemma AllDivided(rows: seq<Row>, ordered: seq<Row>)
    requires Divided(rows, ordered, [])
    ensures multiset(ordered) == multiset(rows)
  {
  }

  lemma ReadyRemain(remaining: seq<Row>, known: set<int>, ids: set<int>)
    ensures StillRemain(ReadyRows(remaining, known, ids), 0, remaining)
  {
    var ready := ReadyRows(remaining, known, ids);
    assert ready[0..] == ready;
  }

  /** One pass: every row that was ready when the pass began moves over. */
  method MoveReady(rows: seq<Row>, ready: seq<Row>, ghost known: set<int>, ids: set<int>, before: seq<Row>,
                   rest: seq<Row>)
    returns (ordered: seq<Row>, remaining: seq<Row>)
    requires Divided(rows, before, rest) && known == Ids(before) && ParentsComeFirst(before, ids)
    requires StillRemain(ready, 0, rest) && forall r :: r in ready ==> Ready(r, known, ids)
    ensures Divided(rows, ordered, remaining) && ParentsComeFirst(ordered, ids)
    ensures |remaining| == |rest| - |ready| && ordered == before + ready
  {
    hide ParentsComeFirst, Ids, Ready, Divided, StillRemain, RemoveFirst;
    ordered, remaining := before, rest;
    var k := 0;
    while k < |ready|
      invariant 0 <= k <= |ready| && |remaining| == |rest| - k && ordered == before + ready[..k]
      invariant Divided(rows, ordered, remaining) && StillRemain(ready, k, remaining)
      invariant known <= Ids(ordered) && ParentsComeFirst(ordered, ids)
    {
      var row := ready[k];
      TakeReady(ready, k, remaining);
      AppendReady(ordered, ids, row, known);
      MoveRow(rows, ordered, remaining, row);
      ordered := ordered + [row];
      remaining := RemoveFirst(remaining, row);
      k := k + 1;
      assert ready[..k] == ready[..k - 1] + [row];
    }
  }

  /** Returns the rows reordered so that each follows its in-set parent, or refuses
      exactly when the supersedes pointers among the rows form a cycle. */
  method ParentFirstOrder(rows: seq<Row>) returns (r: Result<seq<Row>, ()>)
    requires UniqueIds(rows)
    ensures r.Ok? ==> multiset(r.value) == multiset(rows) && ParentsComeFirst(r.value, Ids(rows))
    ensures r.Err? <==> HasCycle(rows)
  {
    hide ParentsComeFirst, HasCycle, Ids, Ready, Divided, StillRemain, ReadyRows, UniqueIds;
    NothingOrdered(Ids(rows));
    NothingDivided(rows);
    var remaining, ordered := rows, [];
    var sourceIds := Ids(rows);
    while remaining != []
      invariant Divided(rows, ordered, remaining) && ParentsComeFirst(ordered, sourceIds)
      decreases |remaining|
    {
      var known := Ids(ordered);
      var ready := ReadyRows(remaining, known, sourceIds);
      if ready == [] {
        StuckRowsHaveCycle(rows, ordered, remaining);
        return Err(());
      }
      ReadyRemain(remaining, known, sourceIds);
      ordered, remaining := MoveReady(rows, ready, known, sourceIds, ordered, remaining);
    }
    AllDivided(rows, ordered);
    if HasCycle(rows) {
      OrderExcludesCycles(rows, ordered);
    }
    r := Ok(ordered);
  }

  // ---- no order, then a cycle ----------------------------------------------------

  lemma {:induction false} Pigeonhole(s: seq<int>, holes: set<int>) returns (i: nat, j: nat)
    requires |s| > |holes| && forall k :: 0 <= k < |s| ==> s[k] in holes
    ensures i < j < |s| && s[i] == s[j]
    decreases |s|
  {
    var last := |s| - 1;
    if s[last] in s[..last] {
      j := last;
      i :| 0 <= i < last && s[..last][i] == s[last];
    } else {
      assert holes == (holes - {s[last]}) + {s[last]};
      i, j := Pigeonhole(s[..last], holes - {s[last]});
    }
  }

  ghost predicate HasParentIn(rows: seq<Row>, stuck: set<int>, x: int) {
    exists y :: y in stuck && Link(rows, x, y)
  }

  /** Follows parents n times from `id`, never leaving `stuck`. */
  lemma {:induction false} Walk(rows: seq<Row>, stuck: set<int>, id: int, n: nat) returns (path: seq<int>)
    requires id in stuck && forall x :: x in stuck ==> HasParentIn(rows, stuck, x)
    ensures |path| == n + 1 && path[0] == id && forall k :: 0 <= k < |path| ==> path[k] in stuck
    ensures forall k :: 0 <= k < n ==> Link(rows, path[k], path[k + 1])
    decreases n
  {
    hide Link;
    if n == 0 {
      path := [id];
    } else {
      assert HasParentIn(rows, stuck, id);
      var up :| up in stuck && Link(rows, id, up);
      var rest := Walk(rows, stuck, up, n - 1);
      path := [id] + rest;
    }
  }

  lemma StuckRowsHaveCycle(rows: seq<Row>, ordered: seq<Row>, remaining: seq<Row>)
    requires remaining != [] && Divided(rows, ordered, remaining)
    requires ReadyRows(remaining, Ids(ordered), Ids(rows)) == []
    ensures HasCycle(rows)
  {
    hide Link, HasParentIn, ReadyRows, HasCycle;
    var stuck := Ids(remaining);
    SplitRows(rows, ordered, remaining);
    forall x | x in stuck ensures HasParentIn(rows, stuck, x) {
      var r :| r in remaining && r.id == x;
      StuckRowWaitsForStuck(rows, ordered, remaining, r);
    }
    assert remaining[0].id in stuck;
    var path := Walk(rows, stuck, remaining[0].id, |stuck|);
    var i, j := Pigeonhole(path, stuck);
    CutCycle(rows, path, i, j);
  }

  lemma StuckRowWaitsForStuck(rows: seq<Row>, ordered: seq<Row>, remaining: seq<Row>, r: Row)
    requires forall x :: x in rows <==> x in ordered || x in remaining
    requires ReadyRows(remaining, Ids(ordered), Ids(rows)) == []
    requires r in remaining
    ensures HasParentIn(rows, Ids(remaining), r.id)
  {
    assert !Ready(r, Ids(ordered), Ids(rows)) by {
      assert r !in ReadyRows(remaining, Ids(ordered), Ids(rows));
    }
    var parent :| parent in rows && parent.id == r.parent.value;
    assert parent in remaining;
    assert Link(rows, r.id, parent.id) && parent.id in Ids(remaining);
  }

  /** A walk that meets itself contains a cycle. */
  lemma CutCycle(rows: seq<Row>, path: seq<int>, i: nat, j: nat)
    requires i < j < |path| && path[i] == path[j]
    requires forall k :: 0 <= k < |path| - 1 ==> Link(rows, path[k], path[k + 1])
    ensures HasCycle(rows)
  {
    hide Link;
    var c := path[i..j];
    forall k | 0 <= k < |c| - 1 ensures Link(rows, c[k], c[k + 1]) {
      assert Link(rows, path[i + k], path[i + k + 1]);
    }
    assert Link(rows, path[j - 1], path[j - 1 + 1]);
    assert IsCycle(rows, c);
  }

  lemma SplitRows(rows: seq<Row>, ordered: seq<Row>, remaining: seq<Row>)
    requires multiset(ordered) + multiset(remaining) == multiset(rows)
    ensures forall r :: r in rows <==> r in ordered || r in remaining
  {
    forall r ensures r in rows <==> r in ordered || r in remaining {
      assert r in rows <==> r in multiset(rows);
      assert r in ordered <==> r in multiset(ordered);
      assert r in remaining <==> r in multiset(remaining);
    }
  }

  // ---- an order, then no cycle ---------------------------------------------------

  ghost predicate At(order: seq<Row>, i: nat, id: int) {
    i < |order| && order[i].id == id
  }

  /** A parent stands strictly earlier than its child. */
  lemma ParentIsEarlier(rows: seq<Row>, order: seq<Row>, child: int, parent: int, i: nat) returns (j: nat)
    requires UniqueIds(rows) && (forall r :: r in order <==> r in rows)
    requires ParentsComeFirst(order, Ids(rows))
    requires Link(rows, child, parent) && parent in Ids(rows) && At(order, i, child)
    ensures j < i && At(order, j, parent)
  {
    var r :| r in rows && r.id == child && r.parent == Some(parent);
    assert order[i] in rows;
    var a :| 0 <= a < |rows| && rows[a] == r;
    var b :| 0 <= b < |rows| && rows[b] == order[i];
    assert a == b;
    assert FollowsParent(order, Ids(rows), i);
    var p :| p in order[..i] && p.id == parent;
    j :| 0 <= j < i && order[..i][j] == p;
  }

  lemma {:induction false} Descend(rows: seq<Row>, order: seq<Row>, c: seq<int>, k: nat, i0: nat) returns (i: nat)
    requires UniqueIds(rows) && (forall r :: r in order <==> r in rows)
    requires ParentsComeFirst(order, Ids(rows))
    requires IsCycle(rows, c) && k < |c| && At(order, i0, c[0])
    ensures i <= i0 && At(order, i, c[k])
  {
    if k == 0 {
      i := i0;
    } else {
      var above := Descend(rows, order, c, k - 1, i0);
      assert Link(rows, c[k - 1], c[k - 1 + 1]);
      CycleIdsAreRows(rows, c, k);
      i := ParentIsEarlier(rows, order, c[k - 1], c[k], above);
    }
  }

  lemma CycleIdsAreRows(rows: seq<Row>, c: seq<int>, k: nat)
    requires IsCycle(rows, c) && k < |c|
    ensures c[k] in Ids(rows)
  {
    if k < |c| - 1 {
      assert Link(rows, c[k], c[k + 1]);
    }
  }

  lemma UniquePosition(rows: seq<Row>, order: seq<Row>, id: int, i: nat, j: nat)
    requires UniqueIds(rows) && multiset(order) == multiset(rows)
    requires At(order, i, id) && At(order, j, id)
    ensures i == j
  {
    UniqueAfterReorder(rows, order);
  }

  lemma UniqueAfterReorder(rows: seq<Row>, order: seq<Row>)
    requires UniqueIds(rows) && multiset(order) == multiset(rows)
    ensures UniqueIds(order)
  {
    SameRows(order, rows);
    forall i, j | 0 <= i < j < |order| ensures order[i].id != order[j].id {
      if order[i].id == order[j].id {
        assert order[i] in rows && order[j] in rows;
        var a :| 0 <= a < |rows| && rows[a] == order[i];
        var b :| 0 <= b < |rows| && rows[b] == order[j];
        assert a == b;
        TwiceInMultiset(order, i, j);
        OnceInMultiset(rows, a);
      }
    }
  }

  lemma TwiceInMultiset(s: seq<Row>, i: int, j: int)
    requires 0 <= i < j < |s| && s[i] == s[j]
    ensures multiset(s)[s[i]] >= 2
  {
    assert s == s[..j] + s[j..];
    assert s[i] in s[..j] && s[j] in s[j..];
    assert multiset(s) == multiset(s[..j]) + multiset(s[j..]);
    assert s[..j][i] in multiset(s[..j]) && s[j..][0] in multiset(s[j..]);
  }

  lemma OnceInMultiset(rows: seq<Row>, a: int)
    requires UniqueIds(rows) && 0 <= a < |rows|
    ensures multiset(rows)[rows[a]] == 1
  {
    var x := rows[a];
    assert rows == rows[..a] + ([x] + rows[a + 1..]);
    assert multiset(rows) == multiset(rows[..a]) + multiset{x} + multiset(rows[a + 1..]);
    assert x !in rows[..a] && x !in rows[a + 1..];
    assert x !in multiset(rows[..a]) && x !in multiset(rows[a + 1..]);
  }

  /** A parent-first order of all rows leaves no room for a cycle. */
  lemma OrderExcludesCycles(rows: seq<Row>, order: seq<Row>)
    requires UniqueIds(rows) && multiset(order) == multiset(rows)
    requires ParentsComeFirst(order, Ids(rows))
    ensures !HasCycle(rows)
  {
    if HasCycle(rows) {
      SameRows(order, rows);
      var c :| IsCycle(rows, c);
      CycleIdsAreRows(rows, c, 0);
      var r :| r in rows && r.id == c[0];
      var i0 :| 0 <= i0 < |order| && order[i0] == r;
      var last := Descend(rows, order, c, |c| - 1, i0);
      var again := ParentIsEarlier(rows, order, c[|c| - 1], c[0], last);
      UniquePosition(rows, order, c[0], again, i0);
    }
  }
}
