/** The keyed edit script of HermesHelpers.js (`listSyncOps`): turning the rows of
    a list model into the wanted keys, in place, without recreating the rows
    whose key survives. */
module ListSync {
  import opened Common

  datatype Op =
    | Remove(at: nat, count: nat)
    | Insert(at: nat, index: nat)
    | Keep(at: nat, index: nat)

  /** A row on screen: its key and, unless the script inserted it, the position
      it had at the start. */
  datatype Row<K> = Row(key: K, origin: Option<nat>)

  function InitialRows<K>(current: seq<K>): (rows: seq<Row<K>>)
    ensures |rows| == |current|
  {
    seq(|current|, i requires 0 <= i < |current| => Row(current[i], Some(i)))
  }

  function Keys<K>(rows: seq<Row<K>>): seq<K> {
    seq(|rows|, i requires 0 <= i < |rows| => rows[i].key)
  }

  /** One operation on the list; None when it is out of range, removes nothing,
      or keeps a row that is new or has another key. */
  function ApplyOp<K(==)>(rows: seq<Row<K>>, op: Op, desired: seq<K>): Option<seq<Row<K>>> {
    match op
    case Remove(at, count) =>
      if count == 0 || at + count > |rows| then None else Some(rows[..at] + rows[at + count..])
    case Insert(at, index) =>
      if at > |rows| || index >= |desired| then None else Some(rows[..at] + [Row(desired[index], None)] + rows[at..])
    case Keep(at, index) =>
      if at >= |rows| || index >= |desired| || rows[at].key != desired[index] || rows[at].origin.None? then None
      else Some(rows)
  }

  function ApplyAll<K(==)>(rows: seq<Row<K>>, ops: seq<Op>, desired: seq<K>): Option<seq<Row<K>>>
    decreases |ops|
  {
    if ops == [] then Some(rows)
    else
      var next := ApplyOp(rows, ops[0], desired);
      if next.None? then None else ApplyAll(next.value, ops[1..], desired)
  }

  /** Surviving rows are old rows under their old key, in their old order. */
  ghost predicate InOldOrder<K>(rows: seq<Row<K>>, current: seq<K>) {
    && (forall i :: 0 <= i < |rows| && rows[i].origin.Some? ==>
          rows[i].origin.value < |current| && current[rows[i].origin.value] == rows[i].key)
    && (forall i, j :: 0 <= i < j < |rows| && rows[i].origin.Some? && rows[j].origin.Some? ==>
          rows[i].origin.value < rows[j].origin.value)
  }

  /** A list of wanted rows, old ones in their old order and new ones. */
  ghost predicate Arranges<K>(rows: seq<Row<K>>, current: seq<K>, desired: seq<K>) {
    Keys(rows) == desired && InOldOrder(rows, current)
  }

  ghost predicate Subsequence<K>(a: seq<K>, b: seq<K>)
    decreases |b|
  {
    || a == []
    || (b != [] && ((a[0] == b[0] && Subsequence(a[1..], b[1..])) || Subsequence(a, b[1..])))
  }

  ghost predicate Distinct<K>(s: seq<K>) {
    forall i, j :: 0 <= i < j < |s| ==> s[i] != s[j]
  }

  // ---- what a script costs ---------------------------------------------------------------

  /** How many rows are old ones. */
  function Old<K>(rows: seq<Row<K>>): (n: nat)
    ensures n <= |rows|
  {
    if rows == [] then 0 else (if rows[0].origin.Some? then 1 else 0) + Old(rows[1..])
  }

  function Inserted(ops: seq<Op>): nat {
    if ops == [] then 0 else (if ops[0].Insert? then 1 else 0) + Inserted(ops[1..])
  }

  function Removed(ops: seq<Op>): nat {
    if ops == [] then 0 else (if ops[0].Remove? then ops[0].count else 0) + Removed(ops[1..])
  }

  /** How many rows the script recreates or destroys. */
  function Cost(ops: seq<Op>): nat {
    Inserted(ops) + Removed(ops)
  }

  lemma {:induction false} OldOf<K>(a: seq<Row<K>>, b: seq<Row<K>>)
    ensures Old(a + b) == Old(a) + Old(b)
    decreases |a|
  {
    if a == [] {
      assert a + b == b;
    } else {
      assert (a + b)[1..] == a[1..] + b;
      OldOf(a[1..], b);
    }
  }

  lemma {:induction false} OldInitial<K>(current: seq<K>, c: nat)
    requires c <= |current|
    ensures Old(InitialRows(current)[c..]) == |current| - c
    decreases |current| - c
  {
    if c < |current| {
      OldInitial(current, c + 1);
      assert InitialRows(current)[c..][1..] == InitialRows(current)[c + 1..];
    }
  }

  lemma {:induction false} RemoveBound<K>(rows: seq<Row<K>>, at: nat, count: nat)
    requires at + count <= |rows|
    ensures var out := rows[..at] + rows[at + count..];
            |out| - Old(out) <= |rows| - Old(rows) && Old(rows) <= Old(out) + count
  {
    hide Old;
    var gone := rows[at..at + count];
    OldOf(rows[..at], rows[at..]);
    OldOf(gone, rows[at + count..]);
    OldOf(rows[..at], rows[at + count..]);
    assert rows == rows[..at] + rows[at..] && rows[at..] == gone + rows[at + count..];
  }

  lemma {:induction false} InsertBound<K>(rows: seq<Row<K>>, at: nat, row: Row<K>)
    requires at <= |rows| && row.origin.None?
    ensures Old(rows[..at] + [row] + rows[at..]) == Old(rows)
  {
    OldOf(rows[..at], rows[at..]);
    OldOf(rows[..at] + [row], rows[at..]);
    OldOf(rows[..at], [row]);
    assert rows == rows[..at] + rows[at..];
  }

  lemma {:induction false} RemoveKeepsOrder<K>(current: seq<K>, rows: seq<Row<K>>, at: nat, count: nat)
    requires InOldOrder(rows, current) && at + count <= |rows|
    ensures InOldOrder(rows[..at] + rows[at + count..], current)
  {
    var out := rows[..at] + rows[at + count..];
    assert forall i :: 0 <= i < |out| ==> out[i] == rows[if i < at then i else i + count];
  }

  lemma {:induction false} InsertKeepsOrder<K>(current: seq<K>, rows: seq<Row<K>>, at: nat, row: Row<K>)
    requires InOldOrder(rows, current) && at <= |rows| && row.origin.None?
    ensures InOldOrder(rows[..at] + [row] + rows[at..], current)
  {
    var out := rows[..at] + [row] + rows[at..];
    assert forall i :: 0 <= i < |out| && i != at ==> out[i] == rows[if i < at then i else i - 1];
  }

  lemma {:induction false} OpBound<K>(current: seq<K>, rows: seq<Row<K>>, op: Op, desired: seq<K>)
    requires InOldOrder(rows, current) && ApplyOp(rows, op, desired).Some?
    ensures var out := ApplyOp(rows, op, desired).value;
            && InOldOrder(out, current)
            && |out| - Old(out) <= |rows| - Old(rows) + (if op.Insert? then 1 else 0)
            && Old(rows) <= Old(out) + (if op.Remove? then op.count else 0)
  {
    hide Old, InOldOrder;
    match op {
      case Remove(at, count) =>
        RemoveBound(rows, at, count);
        RemoveKeepsOrder(current, rows, at, count);
      case Insert(at, index) =>
        InsertBound(rows, at, Row(desired[index], None));
        InsertKeepsOrder(current, rows, at, Row(desired[index], None));
      case Keep(_, _) =>
    }
  }

  /** No script can disturb the order of old rows, show a new row that it did not
      insert, or lose an old one that it did not remove. */
  lemma {:induction false} ScriptBound<K>(current: seq<K>, rows: seq<Row<K>>, ops: seq<Op>, desired: seq<K>)
    requires InOldOrder(rows, current) && ApplyAll(rows, ops, desired).Some?
    ensures var out := ApplyAll(rows, ops, desired).value;
            && InOldOrder(out, current)
            && |out| - Old(out) <= |rows| - Old(rows) + Inserted(ops)
            && Old(rows) <= Old(out) + Removed(ops)
    decreases |ops|
  {
    hide InOldOrder, ApplyOp, Old;
    if ops != [] {
      OpBound(current, rows, ops[0], desired);
      ScriptBound(current, ApplyOp(rows, ops[0], desired).value, ops[1..], desired);
    }
  }

  /** The script turns the current list into the wanted keys. */
  ghost predicate Yields<K>(current: seq<K>, desired: seq<K>, ops: seq<Op>) {
    var out := ApplyAll(InitialRows(current), ops, desired);
    out.Some? && Keys(out.value) == desired
  }

  /** Whatever a script yields is an arrangement, and it pays for every row that
      is not kept. */
  lemma {:induction false} YieldBound<K>(current: seq<K>, desired: seq<K>, ops: seq<Op>)
    requires Yields(current, desired, ops)
    ensures var rows := ApplyAll(InitialRows(current), ops, desired).value;
            Arranges(rows, current, desired) && Cost(ops) >= |desired| + |current| - 2 * Old(rows)
  {
    var initial := InitialRows(current);
    OldInitial(current, 0);
    assert initial[0..] == initial;
    ScriptBound(current, initial, ops, desired);
  }

  // ---- the script of an arrangement -------------------------------------------------------

  /** The old rows of the arrangement are at `c` or later. */
  ghost predicate Ahead<K>(current: seq<K>, rest: seq<Row<K>>, c: nat) {
    && c <= |current| && InOldOrder(rest, current)
    && forall k :: 0 <= k < |rest| && rest[k].origin.Some? ==> c <= rest[k].origin.value
  }

  /** The script that brings the wanted rows from position `i` on about, with the
      old list used up to position `c`. */
  ghost function ScriptOf<K>(current: seq<K>, rest: seq<Row<K>>, i: nat, c: nat): seq<Op>
    requires Ahead(current, rest, c)
    decreases |rest|
  {
    if rest == [] then if c < |current| then [Remove(i, |current| - c)] else []
    else
      match rest[0].origin
      case None => [Insert(i, i)] + ScriptOf(current, rest[1..], i + 1, c)
      case Some(o) =>
        (if o == c then [] else [Remove(i, o - c)]) + [Keep(i, i)] + ScriptOf(current, rest[1..], i + 1, o + 1)
  }

  lemma {:induction false} ApplyConcat<K>(rows: seq<Row<K>>, a: seq<Op>, b: seq<Op>, desired: seq<K>)
    requires ApplyAll(rows, a, desired).Some?
    ensures ApplyAll(rows, a + b, desired) == ApplyAll(ApplyAll(rows, a, desired).value, b, desired)
    decreases |a|
  {
    hide ApplyOp;
    if a == [] {
      assert a + b == b;
    } else {
      assert (a + b)[1..] == a[1..] + b;
      ApplyConcat(ApplyOp(rows, a[0], desired).value, a[1..], b, desired);
    }
  }

  lemma {:induction false} ApplyOne<K>(rows: seq<Row<K>>, op: Op, desired: seq<K>)
    ensures ApplyAll(rows, [op], desired) == ApplyOp(rows, op, desired)
  {
  }

  /** Removing the old rows before the next one to keep. */
  lemma {:induction false} RemoveRun<K>(done: seq<Row<K>>, current: seq<K>, c: nat, o: nat, desired: seq<K>)
    requires c < o <= |current|
    ensures ApplyOp(done + InitialRows(current)[c..], Remove(|done|, o - c), desired) == Some(done + InitialRows(current)[o..])
  {
    var rows := done + InitialRows(current)[c..];
    assert rows[..|done|] == done && rows[|done| + (o - c)..] == InitialRows(current)[o..];
  }

  lemma {:induction false} KeepNext<K>(done: seq<Row<K>>, current: seq<K>, o: nat, desired: seq<K>)
    requires o < |current| && |done| < |desired| && current[o] == desired[|done|]
    ensures ApplyOp(done + InitialRows(current)[o..], Keep(|done|, |done|), desired)
            == Some(done + [Row(current[o], Some(o))] + InitialRows(current)[o + 1..])
  {
    var row := Row(current[o], Some(o));
    assert InitialRows(current)[o..] == [row] + InitialRows(current)[o + 1..];
    assert done + InitialRows(current)[o..] == done + [row] + InitialRows(current)[o + 1..];
  }

  lemma {:induction false} InsertNext<K>(done: seq<Row<K>>, rest: seq<Row<K>>, desired: seq<K>)
    requires |done| < |desired|
    ensures ApplyOp(done + rest, Insert(|done|, |done|), desired) == Some(done + [Row(desired[|done|], None)] + rest)
  {
    assert (done + rest)[..|done|] == done && (done + rest)[|done|..] == rest;
  }

  lemma {:induction false} AheadRest<K>(current: seq<K>, rest: seq<Row<K>>, c: nat)
    requires rest != [] && Ahead(current, rest, c)
    ensures rest[0].origin.None? ==> Ahead(current, rest[1..], c)
    ensures rest[0].origin.Some? ==>
              var o := rest[0].origin.value;
              c <= o < |current| && current[o] == rest[0].key && Ahead(current, rest[1..], o + 1)
  {
    forall k | 0 <= k < |rest[1..]|
      ensures rest[1..][k] == rest[k + 1]
    {
    }
  }

  /** Any arrangement is reached by its script. */
  lemma {:induction false} ScriptReaches<K>(current: seq<K>, desired: seq<K>, done: seq<Row<K>>, rest: seq<Row<K>>, c: nat)
    requires Ahead(current, rest, c) && Keys(done + rest) == desired
    ensures ApplyAll(done + InitialRows(current)[c..], ScriptOf(current, rest, |done|, c), desired) == Some(done + rest)
    decreases |rest|
  {
    hide ApplyAll, ApplyOp, Ahead, InitialRows;
    AheadBound(current, rest, c);
    var rows := done + InitialRows(current)[c..];
    if rest == [] {
      ReachEnd(current, desired, done, c);
      assert done + rest == done;
    } else {
      AheadRest(current, rest, c);
      var next := done + [rest[0]];
      assert next + rest[1..] == done + rest;
      assert desired[|done|] == (done + rest)[|done|].key;
      if rest[0].origin.None? {
        ScriptReaches(current, desired, next, rest[1..], c);
        InsertNext(done, InitialRows(current)[c..], desired);
        ApplyOne(rows, Insert(|done|, |done|), desired);
        ApplyConcat(rows, [Insert(|done|, |done|)], ScriptOf(current, rest[1..], |done| + 1, c), desired);
      } else {
        var o := rest[0].origin.value;
        ScriptReaches(current, desired, next, rest[1..], o + 1);
        ReachKept(current, desired, done, c, o);
        ApplyConcat(rows, KeepOps(|done|, c, o), ScriptOf(current, rest[1..], |done| + 1, o + 1), desired);
      }
    }
  }

  function KeepOps(i: nat, c: nat, o: nat): seq<Op>
    requires c <= o
  {
    (if o == c then [] else [Remove(i, o - c)]) + [Keep(i, i)]
  }

  lemma {:induction false} ReachKept<K>(current: seq<K>, desired: seq<K>, done: seq<Row<K>>, c: nat, o: nat)
    requires c <= o < |current| && |done| < |desired| && current[o] == desired[|done|]
    ensures ApplyAll(done + InitialRows(current)[c..], KeepOps(|done|, c, o), desired)
            == Some(done + [Row(current[o], Some(o))] + InitialRows(current)[o + 1..])
  {
    hide ApplyAll, ApplyOp, InitialRows;
    var i, rows, kept := |done|, done + InitialRows(current)[c..], done + InitialRows(current)[o..];
    KeepNext(done, current, o, desired);
    ApplyOne(kept, Keep(i, i), desired);
    if o == c {
      assert KeepOps(i, c, o) == [Keep(i, i)];
    } else {
      RemoveRun(done, current, c, o, desired);
      ApplyOne(rows, Remove(i, o - c), desired);
      ApplyConcat(rows, [Remove(i, o - c)], [Keep(i, i)], desired);
    }
  }

  lemma {:induction false} ReachEnd<K>(current: seq<K>, desired: seq<K>, done: seq<Row<K>>, c: nat)
    requires c <= |current|
    ensures var ops := if c < |current| then [Remove(|done|, |current| - c)] else [];
            ApplyAll(done + InitialRows(current)[c..], ops, desired) == Some(done)
  {
    assert done + InitialRows(current)[|current|..] == done;
    if c < |current| {
      RemoveRun(done, current, c, |current|, desired);
      ApplyOne(done + InitialRows(current)[c..], Remove(|done|, |current| - c), desired);
    }
  }

  lemma {:induction false} CostOf(a: seq<Op>, b: seq<Op>)
    ensures Inserted(a + b) == Inserted(a) + Inserted(b) && Removed(a + b) == Removed(a) + Removed(b)
    decreases |a|
  {
    if a == [] {
      assert a + b == b;
    } else {
      assert (a + b)[1..] == a[1..] + b;
      CostOf(a[1..], b);
    }
  }

  /** It inserts the new rows and removes the old rows that are not kept. */
  lemma {:induction false} ScriptCost<K>(current: seq<K>, rest: seq<Row<K>>, i: nat, c: nat)
    requires Ahead(current, rest, c)
    ensures Inserted(ScriptOf(current, rest, i, c)) == |rest| - Old(rest)
    ensures Removed(ScriptOf(current, rest, i, c)) == |current| - c - Old(rest)
    decreases |rest|
  {
    hide Ahead;
    if rest == [] {
      assert c <= |current| by { AheadBound(current, rest, c); }
    } else {
      AheadRest(current, rest, c);
      if rest[0].origin.None? {
        ScriptCost(current, rest[1..], i + 1, c);
        CostOf([Insert(i, i)], ScriptOf(current, rest[1..], i + 1, c));
      } else {
        var o := rest[0].origin.value;
        ScriptCost(current, rest[1..], i + 1, o + 1);
        CostOf(KeepOps(i, c, o), ScriptOf(current, rest[1..], i + 1, o + 1));
        KeepCost(i, c, o);
      }
    }
  }

  lemma AheadBound<K>(current: seq<K>, rest: seq<Row<K>>, c: nat)
    requires Ahead(current, rest, c)
    ensures c <= |current|
  {
  }

  lemma {:induction false} KeepCost(i: nat, c: nat, o: nat)
    requires c <= o
    ensures Inserted(KeepOps(i, c, o)) == 0 && Removed(KeepOps(i, c, o)) == o - c
  {
    CostOf(if o == c then [] else [Remove(i, o - c)], [Keep(i, i)]);
  }

  // ---- the longest common subsequence ----------------------------------------------------

  function Max(a: nat, b: nat): nat { if a < b then b else a }

  /** The length of the longest common subsequence. */
  function Lcs<K(==)>(a: seq<K>, b: seq<K>): nat
    decreases |a| + |b|
  {
    if a == [] || b == [] then 0
    else
      Max(Max(Lcs(a[1..], b), Lcs(a, b[1..])), if a[0] == b[0] then 1 + Lcs(a[1..], b[1..]) else 0)
  }

  lemma {:induction false} LcsDrop<K>(current: seq<K>, c: nat, o: nat, b: seq<K>)
    requires c <= o <= |current|
    ensures Lcs(current[o..], b) <= Lcs(current[c..], b)
    decreases o - c
  {
    if c < o {
      LcsDrop(current, c + 1, o, b);
      assert current[c..][1..] == current[c + 1..];
    }
  }

  /** No arrangement keeps more rows than the longest common subsequence has. */
  lemma {:induction false} ArrangementBound<K>(current: seq<K>, rest: seq<Row<K>>, c: nat)
    requires Ahead(current, rest, c)
    ensures Old(rest) <= Lcs(current[c..], Keys(rest))
    decreases |rest|
  {
    hide Ahead;
    AheadBound(current, rest, c);
    if rest != [] {
      AheadRest(current, rest, c);
      assert Keys(rest)[1..] == Keys(rest[1..]);
      if rest[0].origin.None? {
        ArrangementBound(current, rest[1..], c);
      } else {
        var o := rest[0].origin.value;
        ArrangementBound(current, rest[1..], o + 1);
        assert current[o..][1..] == current[o + 1..];
        LcsDrop(current, c, o, Keys(rest));
      }
    }
  }

  /** And some arrangement keeps as many. */
  lemma {:induction false} LcsArrangement<K>(current: seq<K>, desired: seq<K>, i: nat, c: nat) returns (rest: seq<Row<K>>)
    requires i <= |desired| && c <= |current|
    ensures Ahead(current, rest, c) && Keys(rest) == desired[i..] && Old(rest) == Lcs(current[c..], desired[i..])
    decreases |desired| - i + |current| - c
  {
    hide InOldOrder;
    if i == |desired| {
      rest := [];
      AheadNone(current, c);
    } else {
      var a, b := current[c..], desired[i..];
      assert b[1..] == desired[i + 1..];
      var row := Row(desired[i], None);
      if c < |current| {
        assert a[1..] == current[c + 1..];
        if Lcs(a, b) == Lcs(a[1..], b) {
          rest := LcsArrangement(current, desired, i, c + 1);
          return;
        } else if Lcs(a, b) != Lcs(a, b[1..]) {
          var more := LcsArrangement(current, desired, i + 1, c + 1);
          row := Row(desired[i], Some(c));
          rest := [row] + more;
          AheadCons(current, row, more, c, c + 1);
          return;
        }
      }
      var more := LcsArrangement(current, desired, i + 1, c);
      rest := [row] + more;
      AheadCons(current, row, more, c, c);
    }
  }

  lemma AheadNone<K>(current: seq<K>, c: nat)
    requires c <= |current|
    ensures Ahead(current, [], c)
  {
  }

  // ---- minimal scripts -----------------------------------------------------------------

  ghost predicate Minimal<K(!new)>(current: seq<K>, desired: seq<K>, ops: seq<Op>) {
    Yields(current, desired, ops) && forall other :: Yields(current, desired, other) ==> Cost(ops) <= Cost(other)
  }

  lemma {:induction false} ArrangementScript<K>(current: seq<K>, desired: seq<K>, rows: seq<Row<K>>)
    requires Arranges(rows, current, desired)
    ensures Ahead(current, rows, 0)
    ensures var ops := ScriptOf(current, rows, 0, 0);
            && ApplyAll(InitialRows(current), ops, desired) == Some(rows)
            && Inserted(ops) == |desired| - Old(rows) && Removed(ops) == |current| - Old(rows)
  {
    ScriptReaches(current, desired, [], rows, 0);
    assert [] + InitialRows(current)[0..] == InitialRows(current) && [] + rows == rows;
    ScriptCost(current, rows, 0, 0);
  }

  /** The script of an arrangement is minimal exactly if the arrangement keeps as
      many rows as the longest common subsequence has. */
  lemma {:induction false} MinimalExactly<K(!new)>(current: seq<K>, desired: seq<K>, rows: seq<Row<K>>)
    requires Arranges(rows, current, desired)
    ensures Ahead(current, rows, 0)
    ensures Minimal(current, desired, ScriptOf(current, rows, 0, 0)) <==> Old(rows) == Lcs(current, desired)
  {
    hide ScriptOf, ApplyAll, Old, Arranges, Inserted, Removed, Keys, Lcs;
    ArrangementScript(current, desired, rows);
    MostKept(current, desired, rows);
    var ops := ScriptOf(current, rows, 0, 0);
    assert Yields(current, desired, ops) by { ArrangedKeys(current, desired, rows); }
    if Old(rows) == Lcs(current, desired) {
      forall other | Yields(current, desired, other)
        ensures Cost(ops) <= Cost(other)
      {
        YieldBound(current, desired, other);
        MostKept(current, desired, ApplyAll(InitialRows(current), other, desired).value);
      }
    } else {
      var best := BestArrangement(current, desired);
      ArrangementScript(current, desired, best);
      ArrangedKeys(current, desired, best);
      var better := ScriptOf(current, best, 0, 0);
      assert Yields(current, desired, better) && Cost(better) < Cost(ops);
    }
  }

  lemma {:induction false} MostKept<K>(current: seq<K>, desired: seq<K>, rows: seq<Row<K>>)
    requires Arranges(rows, current, desired)
    ensures Old(rows) <= Lcs(current, desired)
  {
    ArrangementBound(current, rows, 0);
    assert current[0..] == current;
  }

  lemma {:induction false} BestArrangement<K>(current: seq<K>, desired: seq<K>) returns (rows: seq<Row<K>>)
    ensures Arranges(rows, current, desired) && Old(rows) == Lcs(current, desired)
  {
    rows := LcsArrangement(current, desired, 0, 0);
    assert current[0..] == current && desired[0..] == desired;
  }

  lemma ArrangedKeys<K>(current: seq<K>, desired: seq<K>, rows: seq<Row<K>>)
    requires Arranges(rows, current, desired)
    ensures Keys(rows) == desired
  {
  }

  // ---- subsequences ---------------------------------------------------------------------

  lemma {:induction false} SubsequenceDrop<K>(a: seq<K>, b: seq<K>)
    requires a != [] && Subsequence(a, b)
    ensures Subsequence(a[1..], b)
    decreases |b|
  {
    if Subsequence(a, b[1..]) {
      SubsequenceDrop(a, b[1..]);
    }
    if |a| > 1 {
      assert b != [];
      assert Subsequence(a[1..], b[1..]);
    }
  }

  /** Matching the first chance is never wrong. */
  lemma {:induction false} MatchFirst<K>(a: seq<K>, b: seq<K>)
    requires a != [] && b != [] && a[0] == b[0] && Subsequence(a, b)
    ensures Subsequence(a[1..], b[1..])
  {
    if Subsequence(a, b[1..]) {
      SubsequenceDrop(a, b[1..]);
    }
  }

  /** The first wanted key is found, and matching its first occurrence works. */
  lemma {:induction false} FindFirst<K>(a: seq<K>, b: seq<K>) returns (at: nat)
    requires a != [] && Subsequence(a, b)
    ensures at < |b| && b[at] == a[0] && a[0] !in b[..at] && Subsequence(a[1..], b[at + 1..])
    decreases |b|
  {
    if b[0] == a[0] {
      at := 0;
      MatchFirst(a, b);
    } else {
      var k := FindFirst(a, b[1..]);
      at := k + 1;
      assert b[1..][k + 1..] == b[at + 1..];
      assert b[..at] == [b[0]] + b[1..][..k];
    }
  }

  lemma {:induction false} SubsequenceMember<K>(a: seq<K>, b: seq<K>, x: K)
    requires Subsequence(a, b) && x in a
    ensures x in b
    decreases |b|
  {
    if a[0] == b[0] && Subsequence(a[1..], b[1..]) {
      if x != a[0] {
        assert a == [a[0]] + a[1..];
        SubsequenceMember(a[1..], b[1..], x);
      }
    } else {
      SubsequenceMember(a, b[1..], x);
    }
  }

  // ---- surviving keys ---------------------------------------------------------------------

  /** Keys that both lists hold stand in the same order in both. */
  ghost predicate SameOrder<K>(current: seq<K>, desired: seq<K>) {
    forall i, j, p, q ::
      (0 <= i < j < |desired| && 0 <= p < |current| && 0 <= q < |current|
       && current[p] == desired[i] && current[q] == desired[j]) ==> p < q
  }

  /** A row was kept for every old key that is still there: no row with an old
      key was inserted, and no old row was removed whose key is wanted. */
  ghost predicate Survive<K>(rows: seq<Row<K>>, current: seq<K>) {
    && (forall i :: 0 <= i < |rows| && rows[i].origin.None? ==> rows[i].key !in current)
    && (forall p :: 0 <= p < |current| && current[p] in Keys(rows) ==>
          exists i :: 0 <= i < |rows| && rows[i].origin == Some(p))
  }

  /** Old rows stay in order, so keeping all of them needs the same order. */
  lemma {:induction false} SurvivorsInOrder<K>(current: seq<K>, rows: seq<Row<K>>)
    requires Distinct(current) && InOldOrder(rows, current) && Survive(rows, current)
    ensures SameOrder(current, Keys(rows))
  {
    forall i, j, p, q | 0 <= i < j < |rows| && 0 <= p < |current| && 0 <= q < |current|
        && current[p] == rows[i].key && current[q] == rows[j].key
      ensures p < q
    {
      assert rows[i].origin.Some? && rows[j].origin.Some?;
      assert rows[i].origin.value == p && rows[j].origin.value == q;
    }
  }

  /** With distinct keys, inserting new ones only is keeping every survivor. */
  lemma {:induction false} NewInsertsSurvive<K>(current: seq<K>, rows: seq<Row<K>>)
    requires Distinct(current) && InOldOrder(rows, current)
    requires forall i :: 0 <= i < |rows| && rows[i].origin.None? ==> rows[i].key !in current
    ensures Survive(rows, current)
  {
    forall p | 0 <= p < |current| && current[p] in Keys(rows)
      ensures exists i :: 0 <= i < |rows| && rows[i].origin == Some(p)
    {
      var i :| 0 <= i < |rows| && rows[i].key == current[p];
      assert rows[i].origin == Some(p);
    }
  }

  /** Keeping every survivor is keeping as many as any arrangement. */
  lemma {:induction false} SurvivorsAreMost<K>(current: seq<K>, desired: seq<K>, rows: seq<Row<K>>)
    requires Arranges(rows, current, desired) && Survive(rows, current)
    ensures Old(rows) == Lcs(current, desired)
  {
    hide Lcs, Old;
    MostKept(current, desired, rows);
    var other := BestArrangement(current, desired);
    assert |other| == |Keys(other)| == |rows| == |Keys(rows)|;
    forall i | 0 <= i < |rows| && other[i].origin.Some?
      ensures rows[i].origin.Some?
    {
      assert Keys(other)[i] == Keys(rows)[i];
    }
    OldMonotone(other, rows);
  }

  lemma {:induction false} OldMonotone<K>(a: seq<Row<K>>, b: seq<Row<K>>)
    requires |a| == |b| && forall i :: 0 <= i < |a| && a[i].origin.Some? ==> b[i].origin.Some?
    ensures Old(a) <= Old(b)
    decreases |a|
  {
    if a != [] {
      assert a[0].origin.Some? ==> b[0].origin.Some?;
      OldMonotone(a[1..], b[1..]);
    }
  }

  // ---- the greedy arrangement ----------------------------------------------------------------

  /** `model.indexOf(key, from)`, or None. */
  method IndexOf<K(==)>(model: seq<K>, key: K, from: nat) returns (r: Option<nat>)
    ensures r.Some? ==> from <= r.value < |model| && model[r.value] == key && forall i :: from <= i < r.value ==> model[i] != key
    ensures r.None? ==> forall i :: from <= i < |model| ==> model[i] != key
  {
    var i := from;
    while i < |model|
      invariant from <= i
      invariant forall k :: from <= k < i && k < |model| ==> model[k] != key
    {
      if model[i] == key {
        return Some(i);
      }
      i := i + 1;
    }
    return None;
  }

  function Find<K(==)>(model: seq<K>, key: K, from: nat): (k: nat)
    requires from <= |model|
    ensures from <= k <= |model| && key !in model[from..k] && (k < |model| ==> model[k] == key)
    decreases |model| - from
  {
    if from == |model| || model[from] == key then from else Find(model, key, from + 1)
  }

  lemma {:induction false} FindIs<K>(model: seq<K>, key: K, from: nat, k: nat)
    requires from <= k <= |model| && key !in model[from..k] && (k < |model| ==> model[k] == key)
    ensures Find(model, key, from) == k
  {
  }

  /** The rows the source chooses for the wanted keys from `i` on: the first
      occurrence of the key at `c` or later, or a new row. */
  function Greedy<K(==)>(current: seq<K>, desired: seq<K>, i: nat, c: nat): (rest: seq<Row<K>>)
    requires i <= |desired| && c <= |current|
    ensures |rest| == |desired| - i
    decreases |desired| - i
  {
    if i == |desired| then []
    else
      var k := Find(current, desired[i], c);
      if k == |current| then [Row(desired[i], None)] + Greedy(current, desired, i + 1, c)
      else [Row(desired[i], Some(k))] + Greedy(current, desired, i + 1, k + 1)
  }

  lemma {:induction false} GreedyArranges<K>(current: seq<K>, desired: seq<K>, i: nat, c: nat)
    requires i <= |desired| && c <= |current|
    ensures Ahead(current, Greedy(current, desired, i, c), c)
    ensures Keys(Greedy(current, desired, i, c)) == desired[i..]
    decreases |desired| - i
  {
    if i < |desired| {
      var k := Find(current, desired[i], c);
      var next := if k == |current| then c else k + 1;
      GreedyArranges(current, desired, i + 1, next);
      var rest := Greedy(current, desired, i + 1, next);
      var row := Greedy(current, desired, i, c)[0];
      hide Greedy, Find;
      AheadCons(current, row, rest, c, next);
      assert Keys([row] + rest) == [row.key] + Keys(rest);
    }
  }

  lemma {:induction false} AheadCons<K>(current: seq<K>, row: Row<K>, rest: seq<Row<K>>, c: nat, next: nat)
    requires c <= next && Ahead(current, rest, next)
    requires row.origin.Some? ==> c <= row.origin.value < next && current[row.origin.value] == row.key
    ensures Ahead(current, [row] + rest, c)
  {
  }

  /** The whole choice is an arrangement of the wanted keys. */
  lemma {:induction false} GreedyIsArrangement<K>(current: seq<K>, desired: seq<K>)
    ensures Arranges(Greedy(current, desired, 0, 0), current, desired)
  {
    GreedyArranges(current, desired, 0, 0);
    assert desired[0..] == desired;
  }

  /** When rows only vanish, every wanted row is an old one. */
  lemma {:induction false} GreedyKeepsAll<K>(current: seq<K>, desired: seq<K>, i: nat, c: nat)
    requires i <= |desired| && c <= |current| && Subsequence(desired[i..], current[c..])
    ensures Old(Greedy(current, desired, i, c)) == |desired| - i
    decreases |desired| - i
  {
    hide Subsequence, Find;
    if i < |desired| {
      var k := Find(current, desired[i], c);
      NextKept(desired, current, i, c);
      GreedyKeepsAll(current, desired, i + 1, k + 1);
    }
  }

  /** When rows only appear, every old row is kept. */
  lemma {:induction false} GreedyLosesNone<K>(current: seq<K>, desired: seq<K>, i: nat, c: nat)
    requires i <= |desired| && c <= |current| && Distinct(desired) && Subsequence(current[c..], desired[i..])
    ensures Old(Greedy(current, desired, i, c)) == |current| - c
    decreases |desired| - i
  {
    hide Distinct, Find;
    if i == |desired| {
      assert desired[i..] == [];
    } else {
      hide Subsequence;
      var k := Find(current, desired[i], c);
      NextNew(current, desired, i, c);
      if c < |current| && current[c] == desired[i] {
        FindIs(current, desired[i], c, c);
        GreedyLosesNone(current, desired, i + 1, c + 1);
      } else {
        assert current[c..|current|] == current[c..];
        FindIs(current, desired[i], c, |current|);
        GreedyLosesNone(current, desired, i + 1, c);
      }
    }
  }

  /** The old rows of the keys still wanted are all ahead. */
  ghost predicate WantedAhead<K>(current: seq<K>, desired: seq<K>, i: nat, c: nat) {
    forall j, q :: i <= j < |desired| && 0 <= q < |current| && current[q] == desired[j] ==> c <= q
  }

  /** In the same order, a key is inserted only if it is new. */
  lemma {:induction false} GreedyInsertsNew<K>(current: seq<K>, desired: seq<K>, i: nat, c: nat)
    requires i <= |desired| && c <= |current| && SameOrder(current, desired) && WantedAhead(current, desired, i, c)
    ensures forall r :: r in Greedy(current, desired, i, c) && r.origin.None? ==> r.key !in current
    decreases |desired| - i
  {
    if i < |desired| {
      var k := Find(current, desired[i], c);
      if k == |current| {
        assert current[c..k] == current[c..];
        forall q | 0 <= q < |current|
          ensures current[q] != desired[i]
        {
          assert c <= q ==> current[c..][q - c] == current[q];
        }
        GreedyInsertsNew(current, desired, i + 1, c);
      } else {
        GreedyInsertsNew(current, desired, i + 1, k + 1);
      }
    }
  }

  /** Every old row whose key is still wanted survives exactly if the keys that
      both lists hold stand in the same order. */
  lemma {:induction false} SurviveExactly<K>(current: seq<K>, desired: seq<K>)
    requires Distinct(current)
    ensures Survive(Greedy(current, desired, 0, 0), current) <==> SameOrder(current, desired)
  {
    hide Greedy, Distinct, SameOrder, Survive;
    var rows := Greedy(current, desired, 0, 0);
    GreedyIsArrangement(current, desired);
    if SameOrder(current, desired) {
      GreedyInsertsNew(current, desired, 0, 0);
      NewInsertsSurvive(current, rows);
    } else if Survive(rows, current) {
      SurvivorsInOrder(current, rows);
    }
  }

  /** The source's script. */
  ghost function Script<K>(current: seq<K>, desired: seq<K>): seq<Op> {
    GreedyIsArrangement(current, desired);
    ScriptOf(current, Greedy(current, desired, 0, 0), 0, 0)
  }

  /** Where the order is the same, the source's script is minimal. */
  lemma {:induction false} SameOrderIsMinimal<K(!new)>(current: seq<K>, desired: seq<K>)
    requires Distinct(current) && SameOrder(current, desired)
    ensures Minimal(current, desired, Script(current, desired))
  {
    hide Greedy, ScriptOf, Minimal, Lcs, Old;
    var rows := Greedy(current, desired, 0, 0);
    GreedyIsArrangement(current, desired);
    SurviveExactly(current, desired);
    SurvivorsAreMost(current, desired, rows);
    MinimalExactly(current, desired, rows);
  }

  lemma {:induction false} GreedyThree(x: char, y: char, z: char)
    requires x != y && y != z && x != z
    ensures Greedy([x, y, z], [z, x, y], 0, 0) == [Row(z, Some(2)), Row(x, None), Row(y, None)]
    ensures Greedy([x, y, z], [y, z, x], 0, 0) == [Row(y, Some(1)), Row(z, Some(2)), Row(x, None)]
  {
    var current := [x, y, z];
    var right, left := [z, x, y], [y, z, x];
    assert Find(current, z, 0) == 2 && Find(current, x, 3) == 3 && Find(current, y, 3) == 3;
    assert Find(current, y, 0) == 1 && Find(current, z, 2) == 2;
    assert Greedy(current, right, 2, 3) == [Row(y, None)];
    assert Greedy(current, right, 1, 3) == [Row(x, None), Row(y, None)];
    assert Greedy(current, left, 2, 3) == [Row(x, None)];
    assert Greedy(current, left, 1, 2) == [Row(z, Some(2)), Row(x, None)];
  }

  /** Bringing the last of three rows to the front is not minimal: one row is kept
      where two could be. */
  lemma {:induction false} RotationIsNotMinimal(x: char, y: char, z: char)
    requires x != y && y != z && x != z
    ensures !Minimal([x, y, z], [z, x, y], Script([x, y, z], [z, x, y]))
  {
    hide ScriptOf, Minimal, Greedy, Lcs;
    var current, desired := [x, y, z], [z, x, y];
    var rows, other := [Row(z, Some(2)), Row(x, None), Row(y, None)], [Row(z, None), Row(x, Some(0)), Row(y, Some(1))];
    GreedyThree(x, y, z);
    GreedyIsArrangement(current, desired);
    assert Keys(other) == desired;
    assert Arranges(other, current, desired);
    OldThree(rows);
    OldThree(other);
    MostKept(current, desired, other);
    MinimalExactly(current, desired, rows);
  }

  lemma {:induction false} OldThree<K>(rows: seq<Row<K>>)
    requires |rows| == 3
    ensures Old(rows) == (if rows[0].origin.Some? then 1 else 0) + (if rows[1].origin.Some? then 1 else 0)
                       + (if rows[2].origin.Some? then 1 else 0)
  {
    assert Old(rows[1..][1..][1..]) == 0;
    assert Old(rows[1..][1..]) == if rows[2].origin.Some? then 1 else 0;
  }

  /** Bringing the first to the back is minimal, although the order differs. */
  lemma {:induction false} RotationBackIsMinimal(x: char, y: char, z: char)
    requires x != y && y != z && x != z
    ensures Minimal([x, y, z], [y, z, x], Script([x, y, z], [y, z, x])) && !SameOrder([x, y, z], [y, z, x])
  {
    hide ScriptOf, Minimal, Greedy, Lcs;
    var current, desired := [x, y, z], [y, z, x];
    var rows := [Row(y, Some(1)), Row(z, Some(2)), Row(x, None)];
    GreedyThree(x, y, z);
    GreedyIsArrangement(current, desired);
    OldThree(rows);
    MostKept(current, desired, rows);
    var other := BestArrangement(current, desired);
    assert |Keys(other)| == 3 && Keys(other)[0] == y && Keys(other)[2] == x;
    OldThree(other);
    assert current[1] == desired[0] && current[0] == desired[2];
    MinimalExactly(current, desired, rows);
  }

  // ---- the program ----------------------------------------------------------------------------

  /** The list half-way: after the wanted rows so far stands what is left of the
      old list from position `c` on. */
  ghost predicate Tail<K>(current: seq<K>, model: seq<K>, i: nat, c: nat) {
    && c <= |current| && |model| == i + |current| - c
    && forall k :: i <= k < |model| ==> model[k] == current[c + k - i]
  }

  /** What the script still has to do. */
  ghost function Todo<K>(current: seq<K>, desired: seq<K>, i: nat, c: nat): seq<Op>
    requires i <= |desired| && c <= |current|
  {
    GreedyArranges(current, desired, i, c);
    ScriptOf(current, Greedy(current, desired, i, c), i, c)
  }

  lemma {:induction false} TodoKeep<K>(current: seq<K>, desired: seq<K>, i: nat, c: nat, k: nat)
    requires i < |desired| && c <= k < |current| && current[k] == desired[i] && desired[i] !in current[c..k]
    ensures Todo(current, desired, i, c) == KeepOps(i, c, k) + Todo(current, desired, i + 1, k + 1)
  {
    hide Find;
    FindIs(current, desired[i], c, k);
    GreedyArranges(current, desired, i, c);
    GreedyArranges(current, desired, i + 1, k + 1);
    assert Greedy(current, desired, i, c)[1..] == Greedy(current, desired, i + 1, k + 1);
  }

  lemma {:induction false} TodoInsert<K>(current: seq<K>, desired: seq<K>, i: nat, c: nat)
    requires i < |desired| && c <= |current| && desired[i] !in current[c..]
    ensures Todo(current, desired, i, c) == [Insert(i, i)] + Todo(current, desired, i + 1, c)
  {
    hide Find;
    assert current[c..|current|] == current[c..];
    FindIs(current, desired[i], c, |current|);
    GreedyArranges(current, desired, i, c);
    GreedyArranges(current, desired, i + 1, c);
    assert Greedy(current, desired, i, c)[1..] == Greedy(current, desired, i + 1, c);
  }

  lemma {:induction false} TodoEnd<K>(current: seq<K>, desired: seq<K>, c: nat)
    requires c <= |current|
    ensures Todo(current, desired, |desired|, c) == if c < |current| then [Remove(|desired|, |current| - c)] else []
  {
  }

  /** Applied in order, the script stays in range and yields exactly the wanted
      keys, keeping old rows in their old order; it inserts nothing when rows
      only vanish and removes nothing when rows only appear. Every old row whose
      key is still wanted survives exactly if the keys that both lists hold stand
      in the same order; and the script is minimal exactly if it keeps as many
      rows as the longest common subsequence of the two lists has. */
  method ListSyncOps<K(==, !new)>(current: seq<K>, desired: seq<K>) returns (ops: seq<Op>)
    ensures ops == Script(current, desired)
    ensures var out := ApplyAll(InitialRows(current), ops, desired);
            && out.Some? && Arranges(out.value, current, desired)
            && (Distinct(current) ==> (Survive(out.value, current) <==> SameOrder(current, desired)))
            && (Minimal(current, desired, ops) <==> Old(out.value) == Lcs(current, desired))
    ensures Subsequence(desired, current) ==> Inserted(ops) == 0
    ensures Subsequence(current, desired) && Distinct(desired) ==> Removed(ops) == 0
  {
    hide Script, Todo, Greedy, ScriptOf, ApplyAll, Arranges, Survive, SameOrder, Minimal, Lcs, Old, Subsequence, Distinct;
    ProveScript(current, desired);
    var model := current;
    ops := [];
    var row := 0;
    ghost var c: nat := 0;
    for i := 0 to |desired|
      invariant row == i && Tail(current, model, i, c)
      invariant ops + Todo(current, desired, i, c) == Script(current, desired)
    {
      var key := desired[i];
      if row < |model| && model[row] == key {
        TodoKeep(current, desired, i, c, c);
        Chain(ops, KeepOps(i, c, c), Todo(current, desired, i + 1, c + 1));
        ops := ops + [Keep(row, i)];
        c := c + 1;
      } else {
        var later := IndexOf(model, key, row + 1);
        if later.Some? && later.value > row {
          var count := later.value - row;
          FirstInOld(current, model, i, c, key, count);
          TodoKeep(current, desired, i, c, c + count);
          Chain(ops, KeepOps(i, c, c + count), Todo(current, desired, i + 1, c + count + 1));
          ops := ops + [Remove(row, count)];
          model := model[..row] + model[later.value..];
          ops := ops + [Keep(row, i)];
          c := c + count + 1;
        } else {
          NotInOld(current, model, i, c, key);
          TodoInsert(current, desired, i, c);
          Chain(ops, [Insert(i, i)], Todo(current, desired, i + 1, c));
          ops := ops + [Insert(row, i)];
          model := model[..row] + [key] + model[row..];
        }
      }
      row := row + 1;
    }
    TodoEnd(current, desired, c);
    if |model| > row {
      ops := ops + [Remove(row, |model| - row)];
    }
  }

  lemma Chain(ops: seq<Op>, now: seq<Op>, rest: seq<Op>)
    ensures ops + (now + rest) == ops + now + rest
  {
  }

  /** What is true of the source's script. */
  lemma {:induction false} ProveScript<K(!new)>(current: seq<K>, desired: seq<K>)
    ensures Script(current, desired) == Todo(current, desired, 0, 0)
    ensures var ops := Script(current, desired);
            var out := ApplyAll(InitialRows(current), ops, desired);
            && out.Some? && Arranges(out.value, current, desired)
            && (Distinct(current) ==> (Survive(out.value, current) <==> SameOrder(current, desired)))
            && (Minimal(current, desired, ops) <==> Old(out.value) == Lcs(current, desired))
            && (Subsequence(desired, current) ==> Inserted(ops) == 0)
            && (Subsequence(current, desired) && Distinct(desired) ==> Removed(ops) == 0)
  {
    hide Greedy, ScriptOf, ApplyAll, Arranges, Survive, SameOrder, Minimal, Lcs, Subsequence, Distinct, Old;
    var rows := Greedy(current, desired, 0, 0);
    GreedyIsArrangement(current, desired);
    ArrangementScript(current, desired, rows);
    MinimalExactly(current, desired, rows);
    if Distinct(current) {
      SurviveExactly(current, desired);
    }
    assert desired[0..] == desired && current[0..] == current;
    if Subsequence(desired, current) {
      GreedyKeepsAll(current, desired, 0, 0);
    }
    if Subsequence(current, desired) && Distinct(desired) {
      GreedyLosesNone(current, desired, 0, 0);
    }
  }

  lemma {:induction false} FirstInOld<K>(current: seq<K>, model: seq<K>, i: nat, c: nat, key: K, count: nat)
    requires Tail(current, model, i, c) && 0 < count && i + count < |model|
    requires model[i + count] == key && forall k :: i <= k < i + count ==> model[k] != key
    ensures current[c + count] == key && key !in current[c..c + count]
  {
    forall k | c <= k < c + count
      ensures current[k] != key
    {
      assert model[k - c + i] != key;
    }
  }

  lemma {:induction false} NotInOld<K>(current: seq<K>, model: seq<K>, i: nat, c: nat, key: K)
    requires Tail(current, model, i, c)
    requires forall k :: i <= k < |model| ==> model[k] != key
    ensures key !in current[c..]
  {
    forall k | c <= k < |current|
      ensures current[k] != key
    {
      assert model[k - c + i] != key;
    }
  }

  /** When rows only vanish, the next wanted key is still in the old list, and
      skipping to its first occurrence keeps that true. */
  lemma {:induction false} NextKept<K>(desired: seq<K>, current: seq<K>, i: nat, c: nat)
    requires i < |desired| && c <= |current| && Subsequence(desired[i..], current[c..])
    ensures desired[i] in current[c..]
    ensures forall k :: c <= k < |current| && current[k] == desired[i] && desired[i] !in current[c..k] ==>
              Subsequence(desired[i + 1..], current[k + 1..])
  {
    hide Subsequence;
    var at := FindFirst(desired[i..], current[c..]);
    assert current[c..][at] == current[c + at];
    assert current[c..][at + 1..] == current[c + at + 1..];
    assert desired[i..][1..] == desired[i + 1..];
    forall k | c <= k < |current| && current[k] == desired[i] && desired[i] !in current[c..k]
      ensures k == c + at
    {
      assert current[c..][..at] == current[c..c + at];
    }
  }

  /** When rows only appear, a wanted key that is not next is a new one. */
  lemma {:induction false} NextNew<K>(current: seq<K>, desired: seq<K>, i: nat, c: nat)
    requires i < |desired| && c <= |current| && Distinct(desired) && Subsequence(current[c..], desired[i..])
    ensures c < |current| && current[c] == desired[i] ==> Subsequence(current[c + 1..], desired[i + 1..])
    ensures (c < |current| && current[c] == desired[i]) || desired[i] !in current[c..]
    ensures c >= |current| || current[c] != desired[i] ==> Subsequence(current[c..], desired[i + 1..])
  {
    var a, b := current[c..], desired[i..];
    assert b[1..] == desired[i + 1..];
    if c < |current| && current[c] == desired[i] {
      MatchFirst(a, b);
      assert a[1..] == current[c + 1..];
    } else if a != [] {
      assert Subsequence(a, b[1..]);
      if desired[i] in a {
        SubsequenceMember(a, b[1..], desired[i]);
      }
    }
  }
}
