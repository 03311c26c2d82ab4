/** Balanced shortcut columns: the min-max contiguous partition computed by
    `columnsFor` in KeybindHelpers.js. Weights are doubled so that the title's
    1.5 rows stay an integer. */
module Columns {

  datatype Group = Group(title: string, rows: nat)

  /** A table cell: the source starts every cell at Infinity. */
  datatype Cost = Infinite | Finite(w: nat)

  predicate Lighter(a: Cost, b: Cost) {
    a.Finite? && (b.Infinite? || a.w < b.w)
  }

  function Heavier(a: Cost, w: nat): Cost {
    if a.Infinite? then Infinite else Finite(if a.w < w then w else a.w)
  }

  /** Twice a group's height: its rows plus 1.5 for the title. */
  function Weight(g: Group): nat {
    2 * g.rows + 3
  }

  /** A group is as heavy as its rows and a title of one row and a half. */
  lemma {:induction false} WeightMeans(g: Group)
    ensures Weight(g) as real / 2.0 == g.rows as real + 1.5
  {
  }

  function Total(gs: seq<Group>): nat {
    if gs == [] then 0 else Total(gs[..|gs| - 1]) + Weight(gs[|gs| - 1])
  }

  function Flatten(cols: seq<seq<Group>>): seq<Group> {
    if cols == [] then [] else Flatten(cols[..|cols| - 1]) + cols[|cols| - 1]
  }

  function Heaviest(cols: seq<seq<Group>>): nat {
    if cols == [] then 0 else
      var rest := Heaviest(cols[..|cols| - 1]);
      var last := Total(cols[|cols| - 1]);
      if rest < last then last else rest
  }

  /** No contiguous split into at most `k` columns, empty ones allowed, has a
      lighter heaviest column. */
  ghost predicate NoneLighter(gs: seq<Group>, k: nat, heaviest: nat) {
    forall split: seq<seq<Group>> :: Flatten(split) == gs && |split| <= k ==> heaviest <= Heaviest(split)
  }

  function ColumnCount(n: nat, count: int): (c: nat)
    ensures 1 <= c && (n > 0 ==> c <= n)
    ensures n == 0 || count < 1 ==> c == 1
    ensures n > 0 && count >= 1 ==> c == n || (c == count && count <= n)
    ensures n > 0 && c == n ==> count >= n || n == 1
  {
    var wanted := if count == 0 then 1 else count;
    var cap := if n == 0 then 1 else n;
    var low := if wanted < cap then wanted else cap;
    if low < 1 then 1 else low
  }

  // ---- the table's recurrence -------------------------------------------

  /** The least cost of a split of the first `i` groups into exactly `k` columns,
      none of them empty. */
  ghost function Best(gs: seq<Group>, k: nat, i: nat): Cost
    requires i <= |gs|
    decreases k, 1, 0
  {
    if k == 0 then (if i == 0 then Finite(0) else Infinite) else BestCut(gs, k, i, i)
  }

  /** The same, over last columns that start before `j`. */
  ghost function BestCut(gs: seq<Group>, k: nat, i: nat, j: nat): Cost
    requires 1 <= k && j <= i <= |gs|
    decreases k, 0, j
  {
    if j < k then Infinite
    else
      var rest := BestCut(gs, k, i, j - 1);
      var cost := CutCost(gs, k, i, j - 1);
      if Lighter(cost, rest) then cost else rest
  }

  ghost function CutCost(gs: seq<Group>, k: nat, i: nat, j: nat): Cost
    requires 1 <= k && j < i <= |gs|
    decreases k - 1, 2, 0
  {
    Heavier(Best(gs, k - 1, j), Total(gs[j..i]))
  }

  // ---- facts about totals and splits ------------------------------------

  lemma {:induction false} TotalConcat(a: seq<Group>, b: seq<Group>)
    ensures Total(a + b) == Total(a) + Total(b)
    decreases |b|
  {
    if b == [] {
      assert a + b == a;
    } else {
      var m := |b| - 1;
      assert (a + b)[..|a| + m] == a + b[..m];
      TotalConcat(a, b[..m]);
    }
  }

  lemma {:induction false} FlattenPrepend(col: seq<Group>, cols: seq<seq<Group>>)
    ensures Flatten([col] + cols) == col + Flatten(cols)
    ensures Heaviest([col] + cols) == if Total(col) < Heaviest(cols) then Heaviest(cols) else Total(col)
    decreases |cols|
  {
    var all := [col] + cols;
    if cols == [] {
      assert all[..0] == [] && all[0] == col;
    } else {
      var m := |cols| - 1;
      assert all[..|all| - 1] == [col] + cols[..m];
      FlattenPrepend(col, cols[..m]);
      assert all[|all| - 1] == cols[m];
      assert col + Flatten(cols[..m]) + cols[m] == col + (Flatten(cols[..m]) + cols[m]);
    }
  }

  lemma {:induction false} MemberBelowTotal(gs: seq<Group>, i: nat)
    requires i < |gs|
    ensures Weight(gs[i]) <= Total(gs)
    decreases |gs|
  {
    if i < |gs| - 1 {
      MemberBelowTotal(gs[..|gs| - 1], i);
    }
  }

  /** No split hides a group: its own weight is a lower bound. */
  lemma {:induction false} MemberBelowHeaviest(cols: seq<seq<Group>>, i: nat)
    requires i < |Flatten(cols)|
    ensures Weight(Flatten(cols)[i]) <= Heaviest(cols)
    decreases |cols|
  {
    var init, last := cols[..|cols| - 1], cols[|cols| - 1];
    if i < |Flatten(init)| {
      MemberBelowHeaviest(init, i);
    } else {
      MemberBelowTotal(last, i - |Flatten(init)|);
    }
  }

  /** One group per column costs the heaviest single group. */
  lemma {:induction false} SingletonsBound(gs: seq<Group>, m: nat, bound: nat)
    requires m <= |gs|
    requires forall i :: 0 <= i < m ==> Weight(gs[i]) <= bound
    ensures Best(gs, m, m).Finite? && Best(gs, m, m).w <= bound
    decreases m
  {
    if m > 0 {
      SingletonsBound(gs, m - 1, bound);
      assert gs[m - 1..m] == [gs[m - 1]];
      assert Total([gs[m - 1]]) == Weight(gs[m - 1]);
      BestBelowCut(gs, m, m, m - 1);
    }
  }

  /** A table cell is at most the cost of each of its cuts, ... */
  lemma {:induction false} BestBelowCut(gs: seq<Group>, k: nat, i: nat, j: nat)
    requires 1 <= k && k - 1 <= j < i <= |gs|
    ensures !Lighter(CutCost(gs, k, i, j), Best(gs, k, i))
  {
    CutAtMost(gs, k, i, i, j);
  }

  lemma {:induction false} CutAtMost(gs: seq<Group>, k: nat, i: nat, upto: nat, j: nat)
    requires 1 <= k && k - 1 <= j < upto <= i <= |gs|
    ensures !Lighter(CutCost(gs, k, i, j), BestCut(gs, k, i, upto))
    decreases upto
  {
    if j < upto - 1 {
      CutAtMost(gs, k, i, upto - 1, j);
    }
  }

  /** A non-empty split ends in a slice of the list. */
  lemma {:induction false} LastColumn(gs: seq<Group>, i: nat, split: seq<seq<Group>>) returns (j: nat)
    requires i <= |gs| && split != [] && Flatten(split) == gs[..i]
    ensures j <= i
    ensures Flatten(split[..|split| - 1]) == gs[..j]
    ensures split[|split| - 1] == gs[j..i]
  {
    var init, last := split[..|split| - 1], split[|split| - 1];
    j := |Flatten(init)|;
    assert Flatten(split)[..j] == Flatten(init);
    assert Flatten(split)[j..] == last;
  }

  /** Spreading a split's early groups over more columns never costs more. */
  lemma {:induction false} SpreadBound(gs: seq<Group>, k: nat, i: nat, j: nat, split: seq<seq<Group>>)
    requires 1 <= k <= i <= |gs| && j <= k - 1
    requires Flatten(split) == gs[..i] && Total(gs[j..i]) <= Heaviest(split)
    ensures Best(gs, k, i).Finite? && Best(gs, k, i).w <= Heaviest(split)
  {
    forall x | 0 <= x < k - 1
      ensures Weight(gs[x]) <= Heaviest(split)
    {
      assert Flatten(split)[x] == gs[x];
      MemberBelowHeaviest(split, x);
    }
    SingletonsBound(gs, k - 1, Heaviest(split));
    assert gs[j..i] == gs[j..k - 1] + gs[k - 1..i];
    TotalConcat(gs[j..k - 1], gs[k - 1..i]);
    BestBelowCut(gs, k, i, k - 1);
  }

  /** ... so no contiguous split into at most `k` columns, empty ones allowed,
      beats it. */
  lemma {:induction false} BestIsLowerBound(gs: seq<Group>, k: nat, i: nat, split: seq<seq<Group>>)
    requires k <= i <= |gs| && (k == 0 ==> i == 0)
    requires Flatten(split) == gs[..i] && |split| <= k
    ensures Best(gs, k, i).Finite? && Best(gs, k, i).w <= Heaviest(split)
    decreases |split|
  {
    if k > 0 {
      assert split != [] by { assert |gs[..i]| > 0; }
      var init := split[..|split| - 1];
      var j := LastColumn(gs, i, split);
      if j == i {
        BestIsLowerBound(gs, k, i, init);
      } else if j < k - 1 {
        SpreadBound(gs, k, i, j, split);
      } else {
        assert k == 1 ==> j == 0 by { assert k == 1 ==> init == []; }
        BestIsLowerBound(gs, k - 1, j, init);
        BestBelowCut(gs, k, i, j);
      }
    }
  }

  /** Every cell the walk visits is finite: `k` non-empty columns fit. */
  lemma {:induction false} BestIsFinite(gs: seq<Group>, k: nat, i: nat)
    requires 1 <= k <= i <= |gs|
    ensures Best(gs, k, i).Finite?
  {
    forall x | 0 <= x < k - 1
      ensures Weight(gs[x]) <= Total(gs)
    {
      MemberBelowTotal(gs, x);
    }
    SingletonsBound(gs, k - 1, Total(gs));
    BestBelowCut(gs, k, i, k - 1);
  }

  // ---- the dynamic program ------------------------------------------------

  method Prefixes(gs: seq<Group>) returns (prefix: seq<nat>)
    ensures |prefix| == |gs| + 1
    ensures forall i :: 0 <= i <= |gs| ==> prefix[i] == Total(gs[..i])
  {
    prefix := [0];
    for n := 0 to |gs|
      invariant |prefix| == n + 1
      invariant forall i :: 0 <= i <= n ==> prefix[i] == Total(gs[..i])
    {
      assert gs[..n + 1][..n] == gs[..n];
      prefix := prefix + [prefix[n] + Weight(gs[n])];
    }
  }

  /** Row `k` of the two tables holds the recurrence's values and cuts that
      reach them. */
  ghost predicate RowFilled(gs: seq<Group>, k: nat, best: seq<Cost>, cut: seq<nat>, upto: nat)
  {
    && |best| == |cut| == |gs| + 1
    && forall i :: 0 <= i <= |gs| && i < upto ==> CellFilled(gs, k, i, best[i], cut[i])
  }

  ghost predicate CellFilled(gs: seq<Group>, k: nat, i: nat, best: Cost, cut: nat)
    requires i <= |gs|
  {
    && best == Best(gs, k, i)
    && (best.Finite? && k > 0 ==> k - 1 <= cut < i && best == CutCost(gs, k, i, cut))
  }

  /** The tables' first `rows` rows are filled. */
  ghost predicate Filled(gs: seq<Group>, best: seq<seq<Cost>>, cut: seq<seq<nat>>, rows: nat)
  {
    && rows <= |best| == |cut|
    && forall r :: 0 <= r < rows ==> RowFilled(gs, r, best[r], cut[r], |gs| + 1)
  }

  /** The columns concatenate to the groups, and their heaviest one is as light
      as in any contiguous split into at most that many columns. */
  method ColumnsFor(gs: seq<Group>, count: int) returns (out: seq<seq<Group>>)
    ensures |out| == ColumnCount(|gs|, count)
    ensures Flatten(out) == gs
    ensures gs != [] ==> forall c :: 0 <= c < |out| ==> out[c] != []
    ensures NoneLighter(gs, |out|, Heaviest(out))
  {
    var n := |gs|;
    var columns := ColumnCount(n, count);
    var prefix := Prefixes(gs);
    var best := seq(columns + 1, _ => seq(n + 1, _ => Infinite));
    var cut: seq<seq<nat>> := seq(columns + 1, _ => seq(n + 1, _ => 0));
    best := best[0 := best[0][0 := Finite(0)]];
    var k := 1;
    while k <= columns
      invariant 1 <= k <= columns + 1 == |best|
      invariant Filled(gs, best, cut, k)
      invariant forall r :: k <= r <= columns ==> best[r] == seq(n + 1, _ => Infinite) && |cut[r]| == n + 1
    {
      var row, cuts := FillRow(gs, prefix, best[k - 1], k, best[k], cut[k]);
      best, cut := best[k := row], cut[k := cuts];
      k := k + 1;
    }
    out := WalkBack(gs, best, cut, columns);
  }

  /** Row `k` of both tables, from row `k - 1`. */
  method FillRow(gs: seq<Group>, prefix: seq<nat>, above: seq<Cost>, k: nat, blank: seq<Cost>, zeros: seq<nat>)
      returns (row: seq<Cost>, cuts: seq<nat>)
    requires |prefix| == |gs| + 1 && forall i :: 0 <= i <= |gs| ==> prefix[i] == Total(gs[..i])
    requires 1 <= k && |above| == |gs| + 1 && forall i :: 0 <= i <= |gs| ==> above[i] == Best(gs, k - 1, i)
    requires blank == seq(|gs| + 1, _ => Infinite) && |zeros| == |gs| + 1
    ensures RowFilled(gs, k, row, cuts, |gs| + 1)
  {
    hide Total;
    row, cuts := blank, zeros;
    var i := k;
    assert forall m :: 0 <= m <= |gs| && m < k ==> Best(gs, k, m) == BestCut(gs, k, m, m) == Infinite;
    while i <= |gs|
      invariant k <= i
      invariant RowFilled(gs, k, row, cuts, i)
      invariant forall m :: i <= m <= |gs| ==> row[m] == Infinite
    {
      var j := k - 1;
      while j < i
        invariant k - 1 <= j <= i
        invariant RowFilled(gs, k, row, cuts, i)
        invariant forall m :: i < m <= |gs| ==> row[m] == Infinite
        invariant row[i] == BestCut(gs, k, i, j)
        invariant row[i].Finite? ==> k - 1 <= cuts[i] < i && row[i] == CutCost(gs, k, i, cuts[i])
      {
        SliceTotal(gs, j, i);
        var cost := Heavier(above[j], prefix[i] - prefix[j]);
        if Lighter(cost, row[i]) {
          row, cuts := row[i := cost], cuts[i := j];
        }
        j := j + 1;
      }
      i := i + 1;
    }
  }

  lemma {:induction false} SliceTotal(gs: seq<Group>, j: nat, i: nat)
    requires j <= i <= |gs|
    ensures Total(gs[j..i]) == Total(gs[..i]) - Total(gs[..j])
  {
    assert gs[..i] == gs[..j] + gs[j..i];
    TotalConcat(gs[..j], gs[j..i]);
  }

  /** Reads the columns off the cut table, last one first. */
  method WalkBack(gs: seq<Group>, best: seq<seq<Cost>>, cut: seq<seq<nat>>, columns: nat) returns (out: seq<seq<Group>>)
    requires Filled(gs, best, cut, columns + 1)
    requires 1 <= columns && (gs == [] ==> columns == 1) && (gs != [] ==> columns <= |gs|)
    ensures |out| == columns
    ensures Flatten(out) == gs
    ensures gs != [] ==> forall c :: 0 <= c < |out| ==> out[c] != []
    ensures NoneLighter(gs, columns, Heaviest(out))
  {
    var n := |gs|;
    out := [];
    var end: nat, k: nat := n, columns;
    if n > 0 {
      BestIsFinite(gs, columns, n);
    }
    while k >= 1
      invariant k <= columns && end <= n && |out| == columns - k
      invariant Flatten(out) == gs[end..]
      invariant n > 0 ==> Best(gs, k, end).Finite? && forall c :: 0 <= c < |out| ==> out[c] != []
      invariant n > 0 ==> Heavier(Best(gs, k, end), Heaviest(out)) == Best(gs, columns, n)
      invariant n == 0 ==> Heaviest(out) == 0
    {
      assert RowFilled(gs, k, best[k], cut[k], n + 1);
      assert CellFilled(gs, k, end, best[k][end], cut[k][end]);
      var start := if n == 0 then 0 else cut[k][end];
      FlattenPrepend(gs[start..end], out);
      assert gs[start..] == gs[start..end] + gs[end..];
      out := [gs[start..end]] + out;
      end := start;
      k := k - 1;
    }
    if n > 0 {
      Optimal(gs, columns, out);
    }
  }

  lemma {:induction false} Optimal(gs: seq<Group>, k: nat, out: seq<seq<Group>>)
    requires 1 <= k <= |gs| && Best(gs, k, |gs|) == Finite(Heaviest(out))
    ensures NoneLighter(gs, k, Heaviest(out))
  {
    forall split: seq<seq<Group>> | Flatten(split) == gs && |split| <= k
      ensures Heaviest(out) <= Heaviest(split)
    {
      assert gs[..|gs|] == gs;
      BestIsLowerBound(gs, k, |gs|, split);
    }
  }
}
