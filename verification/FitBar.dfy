/** Fitting the bar's three lanes (`fitBar` in LayoutHelpers.js): labels are
    compacted in a fixed order, then the centre cluster is shifted, then modules
    are hidden behind the More button. Widths are real numbers. */
module FitBar {
  import opened Common

  datatype Col = Left | Center | Right | Elsewhere
  datatype Policy = Always | Auto | Prefer | Full

  /** A module: the room it saves when compacted, the room it takes, and the side
      of the clock a centre module is on. */
  datatype Entry = Entry(id: string, col: Col, policy: Policy, saving: real, width: real, onLeft: bool)

  /** `extents` are the centre cluster's two halves when they differ. */
  datatype Options = Options(width: real, sideMargin: real, gutter: real, left: real, center: real, right: real,
                             extents: Option<(real, real)>, entries: seq<Entry>, overflowWidth: real)

  const COMPACT_ORDER: seq<string> :=
    ["media", "updates", "notifications", "t3", "hermes", "gh", "weather", "clock", "vol", "batt"]
  const OVERFLOW_ORDER: seq<string> :=
    ["media", "updates", "gh", "t3", "hermes", "modelusage", "weather", "tray", "bt", "notifications", "indicators"]

  /** Lane widths, the centre cluster's two halves, and the compacted modules. */
  datatype Bar = Bar(left: real, center: real, right: real, inLeft: real, inRight: real, compact: seq<string>)

  function Clip(x: real): real { if x < 0.0 then 0.0 else x }

  function Available(o: Options): real {
    Clip(o.width - 2.0 * o.sideMargin)
  }

  function InitialBar(o: Options): Bar {
    var inLeft := if o.extents.Some? then Clip(o.extents.value.0) else Clip(o.center) / 2.0;
    var inRight := if o.extents.Some? then Clip(o.extents.value.1) else Clip(o.center) / 2.0;
    Bar(Clip(o.left), inLeft + inRight, Clip(o.right), inLeft, inRight, [])
  }

  // ---- geometry -------------------------------------------------------------------------

  function Desired(o: Options, b: Bar): real {
    Available(o) / 2.0 - b.inLeft
  }

  function MinX(o: Options, b: Bar): real {
    b.left + o.gutter
  }

  function MaxX(o: Options, b: Bar): real {
    Available(o) - b.right - o.gutter - b.inLeft - b.inRight
  }

  /** The three lanes and their gutters are disjoint with the centre at `x`. */
  predicate Clear(o: Options, b: Bar, x: real) {
    b.left + o.gutter <= x && x + b.inLeft + b.inRight + o.gutter <= Available(o) - b.right
  }

  predicate FitsCentered(o: Options, b: Bar) {
    Clear(o, b, Desired(o, b))
  }

  predicate FitsSomewhere(o: Options, b: Bar) {
    MinX(o, b) <= MaxX(o, b)
  }

  /** What the wish is for: the clock, where the centre's two halves meet, in the
      middle of the bar, between two margins and clear of both lanes. */
  lemma {:induction false} WishIsCentred(o: Options, b: Bar)
    requires o.width >= 2.0 * o.sideMargin
    ensures var clock := o.sideMargin + Desired(o, b) + b.inLeft; clock == o.width - clock
    ensures FitsCentered(o, b) <==>
              && o.sideMargin + b.left + o.gutter <= o.width / 2.0 - b.inLeft
              && o.width / 2.0 + b.inRight + o.gutter <= o.width - o.sideMargin - b.right
  {
  }

  function Clamp(x: real, low: real, high: real): real {
    var y := if high < x then high else x;
    if y < low then low else y
  }

  function Abs(x: real): real { if x < 0.0 then -x else x }

  /** Some position is clear exactly when the range is not empty, and clamping
      finds the clear position nearest to the wish. */
  lemma {:induction false} ClampIsNearest(o: Options, b: Bar, x: real)
    ensures Clear(o, b, x) ==> FitsSomewhere(o, b)
    ensures FitsSomewhere(o, b) ==>
              var c := Clamp(Desired(o, b), MinX(o, b), MaxX(o, b));
              Clear(o, b, c) && (Clear(o, b, x) ==> Abs(c - Desired(o, b)) <= Abs(x - Desired(o, b)))
    ensures FitsCentered(o, b) ==> FitsSomewhere(o, b)
  {
  }

  // ---- compaction -------------------------------------------------------------------------

  function Narrow(o: Options, b: Bar, e: Entry, amount: real, halves: bool): Bar {
    match e.col
    case Left => b.(left := Clip(b.left - amount))
    case Right => b.(right := Clip(b.right - amount))
    case Center =>
      var c := b.(center := Clip(b.center - amount));
      if halves && o.extents.None? then
        c.(inLeft := Clip(b.inLeft - amount / 2.0), inRight := Clip(b.inRight - amount / 2.0))
      else if e.onLeft then c.(inLeft := Clip(b.inLeft - amount))
      else c.(inRight := Clip(b.inRight - amount))
    case Elsewhere => b
  }

  /** The room comes out of the module's own lane and nowhere else, no lane gets
      wider, and a bar that fits, centred or shifted, still does. */
  lemma {:induction false} NarrowHelps(o: Options, b: Bar, e: Entry, amount: real, halves: bool)
    requires amount >= 0.0 && b.left >= 0.0 && b.right >= 0.0 && b.inLeft >= 0.0 && b.inRight >= 0.0
    ensures var c := Narrow(o, b, e, amount, halves);
            && 0.0 <= c.left <= b.left && 0.0 <= c.right <= b.right
            && 0.0 <= c.inLeft <= b.inLeft && 0.0 <= c.inRight <= b.inRight
            && (e.col != Left ==> c.left == b.left) && (e.col != Right ==> c.right == b.right)
            && (e.col != Center ==> c.inLeft == b.inLeft && c.inRight == b.inRight && c.center == b.center)
            && (e.col == Left && amount <= b.left ==> c.left == b.left - amount)
            && (e.col == Right && amount <= b.right ==> c.right == b.right - amount)
            && (e.col == Center && amount <= b.inLeft && amount <= b.inRight ==>
                  c.inLeft + c.inRight == b.inLeft + b.inRight - amount)
            && (FitsSomewhere(o, b) ==> FitsSomewhere(o, c))
            && (FitsCentered(o, b) ==> FitsCentered(o, c))
  {
  }

  function Compact(o: Options, b: Bar, e: Entry): Bar {
    if e.id in b.compact then b
    else Narrow(o, b, e, Clip(e.saving), true).(compact := b.compact + [e.id])
  }

  function CompactAll(o: Options, b: Bar, es: seq<Entry>): Bar {
    if es == [] then b else Compact(o, CompactAll(o, b, es[..|es| - 1]), es[|es| - 1])
  }

  function WithPolicy(es: seq<Entry>, p: Policy): seq<Entry> {
    if es == [] then []
    else WithPolicy(es[..|es| - 1], p) + (if es[|es| - 1].policy == p then [es[|es| - 1]] else [])
  }

  function FindSaving(es: seq<Entry>, id: string, p: Policy): Option<Entry> {
    if es == [] then None
    else if es[0].id == id && es[0].policy == p && es[0].saving > 0.0 then Some(es[0])
    else FindSaving(es[1..], id, p)
  }

  function InOrder(es: seq<Entry>, ids: seq<string>, p: Policy): seq<Entry> {
    if ids == [] then []
    else
      var found := FindSaving(es, ids[|ids| - 1], p);
      InOrder(es, ids[..|ids| - 1], p) + (if found.Some? then [found.value] else [])
  }

  /** The order in which labels give way. */
  function Priority(es: seq<Entry>): seq<Entry> {
    InOrder(es, COMPACT_ORDER, Auto) + InOrder(es, COMPACT_ORDER, Prefer)
  }

  /** Where a module stands in the compaction order. */
  function Rank(id: string): nat
    requires id in COMPACT_ORDER
    ensures Rank(id) < |COMPACT_ORDER| && COMPACT_ORDER[Rank(id)] == id
  {
    RankIn(COMPACT_ORDER, id)
  }

  function RankIn(ids: seq<string>, id: string): (i: nat)
    requires id in ids
    ensures i < |ids| && ids[i] == id && id !in ids[..i]
  {
    if ids[0] == id then 0
    else
      var k := RankIn(ids[1..], id);
      assert ids[..k + 1] == [ids[0]] + ids[1..][..k];
      k + 1
  }

  predicate Saver(e: Entry, id: string, p: Policy) {
    e.id == id && e.policy == p && e.saving > 0.0
  }

  /** The entry that answers for a module under a policy: the first that would
      save room. */
  ghost predicate Answers(es: seq<Entry>, e: Entry, p: Policy) {
    exists i :: 0 <= i < |es| && es[i] == e && Saver(e, e.id, p) && forall k :: 0 <= k < i ==> !Saver(es[k], e.id, p)
  }

  lemma {:induction false} FindSavingIs(es: seq<Entry>, id: string, p: Policy)
    ensures var f := FindSaving(es, id, p);
            && (f.Some? ==> f.value.id == id && Answers(es, f.value, p))
            && (f.None? ==> forall i :: 0 <= i < |es| ==> !Saver(es[i], id, p))
    decreases |es|
  {
    hide Saver;
    assert es != [] ==> (Saver(es[0], id, p) <==> es[0].id == id && es[0].policy == p && es[0].saving > 0.0) by { SaverIs(es, id, p); }
    if es != [] {
      var rest := es[1..];
      if !Saver(es[0], id, p) {
        FindSavingIs(rest, id, p);
        assert forall k :: 0 < k < |es| ==> es[k] == rest[k - 1];
        var f := FindSaving(rest, id, p);
        if f.Some? {
          var i :| 0 <= i < |rest| && rest[i] == f.value && Saver(f.value, f.value.id, p) && forall k :: 0 <= k < i ==> !Saver(rest[k], f.value.id, p);
          assert es[i + 1] == f.value;
        }
      }
    }
  }

  lemma SaverIs(es: seq<Entry>, id: string, p: Policy)
    ensures es != [] ==> (Saver(es[0], id, p) <==> es[0].id == id && es[0].policy == p && es[0].saving > 0.0)
  {
  }

  lemma {:induction false} AnswersOnce(es: seq<Entry>, a: Entry, b: Entry, p: Policy)
    requires Answers(es, a, p) && Answers(es, b, p) && a.id == b.id
    ensures a == b
  {
  }

  /** One entry per named module that has one, in the order of the names. */
  lemma {:induction false} InOrderIs(es: seq<Entry>, ids: seq<string>, p: Policy)
    requires forall i, j :: 0 <= i < j < |ids| ==> ids[i] != ids[j]
    ensures var out := InOrder(es, ids, p);
            && (forall e :: e in out <==> Answers(es, e, p) && e.id in ids)
            && (forall i, j, m, n :: 0 <= i < j < |out| && 0 <= m < |ids| && 0 <= n < |ids| && out[i].id == ids[m] && out[j].id == ids[n] ==> m < n)
    decreases |ids|
  {
    if ids != [] {
      var n := |ids| - 1;
      InOrderIs(es, ids[..n], p);
      FindSavingIs(es, ids[n], p);
      var found, before := FindSaving(es, ids[n], p), InOrder(es, ids[..n], p);
      assert ids == ids[..n] + [ids[n]];
      forall e | Answers(es, e, p) && e.id == ids[n]
        ensures found.Some? && found.value == e
      {
        AnswersOnce(es, e, if found.Some? then found.value else e, p);
      }
      forall e | e in before
        ensures e.id in ids[..n]
      {
      }
    }
  }

  /** Labels give way in the compaction order, first those that may be compacted
      and then, in that order again, those that had rather not be; an entry
      counts if it would save room. */
  lemma {:induction false} PriorityOrder(es: seq<Entry>)
    ensures var out := Priority(es);
            && (forall e :: e in out <==> (Answers(es, e, Auto) || Answers(es, e, Prefer)) && e.id in COMPACT_ORDER)
            && (forall i, j :: 0 <= i < j < |out| && out[i].id in COMPACT_ORDER && out[j].id in COMPACT_ORDER ==>
                  (out[i].policy == Auto && out[j].policy == Prefer)
                  || (out[i].policy == out[j].policy && Rank(out[i].id) < Rank(out[j].id)))
  {
    hide InOrder;
    DistinctOrder();
    InOrderIs(es, COMPACT_ORDER, Auto);
    InOrderIs(es, COMPACT_ORDER, Prefer);
    var a, b := InOrder(es, COMPACT_ORDER, Auto), InOrder(es, COMPACT_ORDER, Prefer);
    var out: seq<Entry> := a + b;
    forall i, j | 0 <= i < j < |out| && out[i].id in COMPACT_ORDER && out[j].id in COMPACT_ORDER
      ensures (out[i].policy == Auto && out[j].policy == Prefer)
              || (out[i].policy == out[j].policy && Rank(out[i].id) < Rank(out[j].id))
    {
      var x, y := out[i], out[j];
      assert if i < |a| then x in a else x in b;
      assert if j < |a| then y in a else y in b;
      if j < |a| {
        assert a[i].id == COMPACT_ORDER[Rank(x.id)] && a[j].id == COMPACT_ORDER[Rank(y.id)];
      } else if i >= |a| {
        assert b[i - |a|].id == COMPACT_ORDER[Rank(x.id)] && b[j - |a|].id == COMPACT_ORDER[Rank(y.id)];
      }
    }
  }

  lemma DistinctOrder()
    ensures forall i, j :: 0 <= i < j < |COMPACT_ORDER| ==> COMPACT_ORDER[i] != COMPACT_ORDER[j]
  {
  }

  /** The bar before any automatic compaction. */
  function Base(o: Options): Bar {
    CompactAll(o, InitialBar(o), WithPolicy(o.entries, Always))
  }

  /** The bar with the first `n` labels of the priority order compacted. */
  function Compacted(o: Options, n: nat): Bar
    requires n <= |Priority(o.entries)|
  {
    CompactAll(o, Base(o), Priority(o.entries)[..n])
  }

  /** Which modules are compacted: those that were and the ones given. */
  lemma {:induction false} CompactIds(o: Options, b: Bar, es: seq<Entry>)
    ensures forall id :: id in CompactAll(o, b, es).compact <==> id in b.compact || exists e :: e in es && e.id == id
    decreases |es|
  {
    hide Narrow;
    if es != [] {
      var n := |es| - 1;
      CompactIds(o, b, es[..n]);
      NarrowNames(o, CompactAll(o, b, es[..n]), es[n]);
      assert es == es[..n] + [es[n]];
    }
  }

  lemma NarrowNames(o: Options, b: Bar, e: Entry)
    ensures forall amount, halves :: Narrow(o, b, e, amount, halves).compact == b.compact
  {
  }

  /** Always-compact modules are compacted before anything else, and after `n`
      labels gave way exactly those are too. */
  lemma {:induction false} CompactedModules(o: Options, n: nat)
    requires n <= |Priority(o.entries)|
    ensures forall id :: id in Compacted(o, n).compact <==>
              || (exists e :: e in o.entries && e.id == id && e.policy == Always)
              || (exists e :: e in Priority(o.entries)[..n] && e.id == id)
  {
    hide Priority, CompactAll;
    CompactIds(o, InitialBar(o), WithPolicy(o.entries, Always));
    CompactIds(o, Base(o), Priority(o.entries)[..n]);
    WithPolicyIs(o.entries, Always);
  }

  lemma {:induction false} WithPolicyIs(es: seq<Entry>, p: Policy)
    ensures forall e :: e in WithPolicy(es, p) <==> e in es && e.policy == p
    decreases |es|
  {
    if es != [] {
      var n := |es| - 1;
      WithPolicyIs(es[..n], p);
      assert es == es[..n] + [es[n]];
    }
  }

  /** The bar starts as it was measured: lanes as given, and a centre that is
      split as given, or in the middle. */
  lemma {:induction false} StartsAsMeasured(o: Options)
    requires o.left >= 0.0 && o.center >= 0.0 && o.right >= 0.0
    requires o.extents.Some? ==> o.extents.value.0 >= 0.0 && o.extents.value.1 >= 0.0
    ensures var b := InitialBar(o);
            && b.left == o.left && b.right == o.right && b.center == b.inLeft + b.inRight && b.compact == []
            && (o.extents.Some? ==> (b.inLeft, b.inRight) == o.extents.value)
            && (o.extents.None? ==> b.inLeft == b.inRight && b.center == o.center)
  {
  }

  // ---- overflow ---------------------------------------------------------------------------------

  function FindEntry(es: seq<Entry>, id: string): Option<Entry> {
    if es == [] then None else if es[0].id == id then Some(es[0]) else FindEntry(es[1..], id)
  }

  /** The module with that name, if it can be hidden. */
  function Hideable(o: Options, id: string): Option<Entry> {
    var e := FindEntry(o.entries, id);
    if e.Some? && e.value.col != Elsewhere then e else None
  }

  function Hide(o: Options, b: Bar, e: Entry): Bar {
    var shown := Clip(Clip(e.width) - (if e.id in b.compact then Clip(e.saving) else 0.0));
    Narrow(o, b, e, shown, false)
  }

  /** The bar after hiding what can be hidden of the given modules. */
  function HideAll(o: Options, b: Bar, ids: seq<string>): Bar {
    if ids == [] then b
    else
      var before := HideAll(o, b, ids[..|ids| - 1]);
      var e := Hideable(o, ids[|ids| - 1]);
      if e.None? then before else Hide(o, before, e.value)
  }

  function HiddenIds(o: Options, ids: seq<string>): seq<string> {
    if ids == [] then []
    else
      var e := Hideable(o, ids[|ids| - 1]);
      HiddenIds(o, ids[..|ids| - 1]) + (if e.Some? then [e.value.id] else [])
  }

  /** Compacting a module and then hiding it takes its whole width out of its
      lane, no more and no less. */
  lemma {:induction false} CompactThenHide(o: Options, b: Bar, e: Entry)
    requires 0.0 <= e.saving <= e.width && e.id !in b.compact
    ensures var c := Hide(o, Compact(o, b, e), e);
            && (e.col == Left && e.width <= b.left ==> c.left == b.left - e.width == Hide(o, b, e).left)
            && (e.col == Right && e.width <= b.right ==> c.right == b.right - e.width == Hide(o, b, e).right)
            && (e.col == Center && e.width <= b.inLeft && e.width <= b.inRight && e.width <= b.center ==>
                  && c.center == b.center - e.width == Hide(o, b, e).center
                  && c.inLeft + c.inRight == b.inLeft + b.inRight - e.width)
  {
  }

  /** On the module's own side of the clock. */
  lemma {:induction false} HideSide(o: Options, b: Bar, e: Entry)
    requires e.col == Center && e.width >= 0.0 && b.inLeft >= 0.0 && b.inRight >= 0.0
    ensures var c := Hide(o, b, e); if e.onLeft then c.inRight == b.inRight else c.inLeft == b.inLeft
    ensures o.extents.Some? ==>
              var c := Compact(o, b, e); if e.onLeft then c.inRight == b.inRight else c.inLeft == b.inLeft
    ensures o.extents.None? && b.inLeft == b.inRight ==> Compact(o, b, e).inLeft == Compact(o, b, e).inRight
  {
  }

  /** The first entry of that name is on the bar. */
  ghost predicate OnBar(o: Options, id: string) {
    exists i :: 0 <= i < |o.entries| && o.entries[i].id == id && o.entries[i].col != Elsewhere && id !in Names(o.entries[..i])
  }

  function Names(es: seq<Entry>): seq<string> {
    seq(|es|, i requires 0 <= i < |es| => es[i].id)
  }

  lemma {:induction false} NamesHold(es: seq<Entry>, n: nat)
    requires n <= |es|
    ensures forall k :: 0 <= k < n ==> es[k].id in Names(es[..n])
  {
    forall k | 0 <= k < n
      ensures es[k].id in Names(es[..n])
    {
      assert Names(es[..n])[k] == es[k].id;
    }
  }

  /** What is hidden: of the given modules, in order, those on the bar. */
  lemma {:induction false} HiddenAre(o: Options, ids: seq<string>, id: string)
    ensures id in HiddenIds(o, ids) <==> id in ids && OnBar(o, id)
    decreases |ids|
  {
    hide OnBar;
    if ids != [] {
      var n := |ids| - 1;
      HiddenAre(o, ids[..n], id);
      HideableIs(o, ids[n]);
      assert ids == ids[..n] + [ids[n]];
    }
  }

  lemma {:induction false} HideableIs(o: Options, id: string)
    ensures Hideable(o, id).Some? <==> OnBar(o, id)
    ensures Hideable(o, id).Some? ==> Hideable(o, id).value.id == id
  {
    FindEntryIs(o.entries, id);
    var f := FindEntry(o.entries, id);
    if f.Some? {
      var i :| 0 <= i < |o.entries| && o.entries[i] == f.value && f.value.id == id && forall k :: 0 <= k < i ==> o.entries[k].id != id;
      if OnBar(o, id) {
        var n :| 0 <= n < |o.entries| && o.entries[n].id == id && o.entries[n].col != Elsewhere && id !in Names(o.entries[..n]);
        NamesHold(o.entries, n);
        assert n == i;
      }
      assert id !in Names(o.entries[..i]);
    }
  }

  lemma {:induction false} FindEntryIs(es: seq<Entry>, id: string)
    ensures var f := FindEntry(es, id);
            if f.None? then forall e :: e in es ==> e.id != id
            else exists i :: 0 <= i < |es| && es[i] == f.value && es[i].id == id && forall k :: 0 <= k < i ==> es[k].id != id
    decreases |es|
  {
    if es != [] && es[0].id != id {
      FindEntryIs(es[1..], id);
      if FindEntry(es[1..], id).Some? {
        var i :| 0 <= i < |es[1..]| && es[1..][i] == FindEntry(es, id).value && es[1..][i].id == id
          && forall k :: 0 <= k < i ==> es[1..][k].id != id;
        assert es[i + 1] == FindEntry(es, id).value;
        assert forall k :: 0 < k < i + 1 ==> es[k] == es[1..][k - 1];
      }
    }
  }

  function WithMore(o: Options, b: Bar): Bar {
    b.(right := b.right + Clip(o.overflowWidth))
  }

  // ---- the answer ---------------------------------------------------------------------------------

  datatype Fit = Fit(bar: Bar, overflow: seq<string>, centerX: real, offset: real, shifted: bool, fits: bool)

  /** `n` labels were compacted: the shortest prefix of the priority order that
      fits centred, or all of them. */
  ghost predicate ShortestPrefix(o: Options, n: nat) {
    && n <= |Priority(o.entries)|
    && (forall m :: 0 <= m < n ==> !FitsCentered(o, Compacted(o, m)))
    && (n < |Priority(o.entries)| ==> FitsCentered(o, Compacted(o, n)))
  }

  /** The first `j` overflow candidates were considered: the shortest list after
      which the bar fits somewhere, or all of them. */
  ghost predicate FewestHidden(o: Options, b: Bar, j: nat) {
    && j <= |OVERFLOW_ORDER|
    && (forall i :: 0 <= i < j ==> !FitsSomewhere(o, HideAll(o, WithMore(o, b), OVERFLOW_ORDER[..i])))
    && (j < |OVERFLOW_ORDER| ==> FitsSomewhere(o, HideAll(o, WithMore(o, b), OVERFLOW_ORDER[..j])))
  }

  /** The centre sits at its wish when that is clear, else as near as possible. */
  ghost predicate Placed(o: Options, r: Fit) {
    && (r.fits ==> Clear(o, r.bar, r.centerX))
    && (r.fits <==> FitsSomewhere(o, r.bar))
    && (r.fits ==> forall x :: Clear(o, r.bar, x) ==> Abs(r.centerX - Desired(o, r.bar)) <= Abs(x - Desired(o, r.bar)))
    && (FitsCentered(o, r.bar) ==> r.centerX == Desired(o, r.bar) && !r.shifted)
    && r.offset == r.centerX - Desired(o, r.bar)
    && (r.shifted <==> Abs(r.offset) > 0.01)
  }

  /** Place the centre: at its wish, or shifted, or nowhere. */
  method Place(o: Options, b: Bar) returns (x: real, shifted: bool, fits: bool)
    ensures fits <==> FitsSomewhere(o, b)
    ensures x == if FitsSomewhere(o, b) then Clamp(Desired(o, b), MinX(o, b), MaxX(o, b)) else Desired(o, b)
    ensures shifted <==> Abs(x - Desired(o, b)) > 0.01
  {
    x, shifted, fits := Desired(o, b), false, FitsCentered(o, b);
    if !fits {
      var minX, maxX := MinX(o, b), MaxX(o, b);
      if maxX >= minX {
        x := Clamp(Desired(o, b), minX, maxX);
        shifted := Abs(x - Desired(o, b)) > 0.01;
        fits := true;
      }
    }
  }

  lemma {:induction false} PlacedWell(o: Options, r: Fit)
    requires r.fits <==> FitsSomewhere(o, r.bar)
    requires r.centerX == if FitsSomewhere(o, r.bar) then Clamp(Desired(o, r.bar), MinX(o, r.bar), MaxX(o, r.bar)) else Desired(o, r.bar)
    requires r.shifted <==> Abs(r.centerX - Desired(o, r.bar)) > 0.01
    requires r.offset == r.centerX - Desired(o, r.bar)
    ensures Placed(o, r)
  {
  }

  method CompactLabels(o: Options) returns (b: Bar, n: nat)
    ensures ShortestPrefix(o, n) && b == Compacted(o, n)
  {
    hide FitsCentered, Compact;
    var ordered := Priority(o.entries);
    b, n := Base(o), 0;
    assert ordered[..0] == [];
    while !FitsCentered(o, b) && n < |ordered|
      invariant n <= |ordered| && b == Compacted(o, n)
      invariant forall m :: 0 <= m < n ==> !FitsCentered(o, Compacted(o, m))
    {
      assert ordered[..n + 1][..n] == ordered[..n];
      b, n := Compact(o, b, ordered[n]), n + 1;
    }
  }

  method HideModules(o: Options, b0: Bar) returns (b: Bar, overflow: seq<string>, j: nat)
    requires !FitsSomewhere(o, WithMore(o, b0))
    ensures FewestHidden(o, b0, j)
    ensures b == HideAll(o, WithMore(o, b0), OVERFLOW_ORDER[..j]) && overflow == HiddenIds(o, OVERFLOW_ORDER[..j])
  {
    hide FitsSomewhere, Hideable, WithMore, Hide;
    b, overflow, j := WithMore(o, b0), [], 0;
    assert OVERFLOW_ORDER[..0] == [];
    while j < |OVERFLOW_ORDER| && !FitsSomewhere(o, b)
      invariant j <= |OVERFLOW_ORDER|
      invariant b == HideAll(o, WithMore(o, b0), OVERFLOW_ORDER[..j]) && overflow == HiddenIds(o, OVERFLOW_ORDER[..j])
      invariant forall m :: 0 <= m < j ==> !FitsSomewhere(o, HideAll(o, WithMore(o, b0), OVERFLOW_ORDER[..m]))
    {
      assert OVERFLOW_ORDER[..j + 1][..j] == OVERFLOW_ORDER[..j];
      var e := Hideable(o, OVERFLOW_ORDER[j]);
      if e.Some? {
        overflow := overflow + [e.value.id];
        b := Hide(o, b, e.value);
      }
      j := j + 1;
    }
  }

  /** Fits the bar. `n` labels of the priority order were compacted, and `j`
      overflow candidates considered. */
  method FitTheBar(o: Options) returns (r: Fit, n: nat, j: nat)
    ensures ShortestPrefix(o, n) && Placed(o, r)
    ensures FitsSomewhere(o, Compacted(o, n)) ==> r.bar == Compacted(o, n) && r.overflow == []
    ensures !FitsSomewhere(o, Compacted(o, n)) ==>
              && n == |Priority(o.entries)|
              && FewestHidden(o, Compacted(o, n), j)
              && r.bar == HideAll(o, WithMore(o, Compacted(o, n)), OVERFLOW_ORDER[..j])
              && r.overflow == HiddenIds(o, OVERFLOW_ORDER[..j])
    ensures !r.fits ==> r.overflow == HiddenIds(o, OVERFLOW_ORDER)
  {
    hide Placed, Compacted, HideAll, HiddenIds, FewestHidden, ShortestPrefix, Priority, WithMore;
    j := 0;
    var b;
    b, n := CompactLabels(o);
    var x, shifted, fits := Place(o, b);
    PrefixUsedUp(o, n);
    var overflow := [];
    if !fits {
      MoreIsWorse(o, b);
      b, overflow, j := HideModules(o, b);
      x, shifted, fits := Place(o, b);
      AllHidden(o, n, j);
    }
    r := Fit(b, overflow, x, x - Desired(o, b), shifted, fits);
    PlacedWell(o, r);
  }

  lemma {:induction false} PrefixUsedUp(o: Options, n: nat)
    requires ShortestPrefix(o, n)
    ensures n <= |Priority(o.entries)|
    ensures !FitsSomewhere(o, Compacted(o, n)) ==> n == |Priority(o.entries)|
  {
  }

  lemma {:induction false} MoreIsWorse(o: Options, b: Bar)
    requires !FitsSomewhere(o, b)
    ensures !FitsSomewhere(o, WithMore(o, b))
  {
  }

  lemma {:induction false} AllHidden(o: Options, n: nat, j: nat)
    requires n <= |Priority(o.entries)| && FewestHidden(o, Compacted(o, n), j)
    ensures j <= |OVERFLOW_ORDER|
    ensures !FitsSomewhere(o, HideAll(o, WithMore(o, Compacted(o, n)), OVERFLOW_ORDER[..j])) ==> OVERFLOW_ORDER[..j] == OVERFLOW_ORDER
  {
  }
}
