/** Layouts as a whole in DisplayHelpers.js: normalisation, and re-attaching every
    display after one of them changed size (`relayout`). */
module Arrangement {
  import opened Common
  import opened Display

  // ---- layouts ----------------------------------------------------------------

  predicate Placed(d: Draft) {
    d.enabled && d.mirror.None?
  }

  function RectOf(d: Draft): Rect {
    Rect(d.key, d.x, d.y, d.width, d.height)
  }

  /** The rectangles of the displays that occupy space. */
  function Rects(ds: seq<Draft>): seq<Rect> {
    if ds == [] then [] else
      var last := ds[|ds| - 1];
      Rects(ds[..|ds| - 1]) + (if Placed(last) then [RectOf(last)] else [])
  }

  function Lookup(rs: seq<Rect>, key: Key): (r: Option<Rect>)
    ensures r.Some? ==> r.value in rs && r.value.key == key
    ensures r.None? ==> forall q :: q in rs ==> q.key != key
  {
    if rs == [] then None else if rs[0].key == key then Some(rs[0]) else Lookup(rs[1..], key)
  }

  ghost predicate UniqueKeys(ds: seq<Draft>) {
    forall i, j :: 0 <= i < j < |ds| ==> ds[i].key != ds[j].key
  }

  ghost predicate AllPositive(rs: seq<Rect>) {
    forall r :: r in rs ==> Positive(r)
  }

  /** No two different displays overlap. */
  ghost predicate Separated(rs: seq<Rect>) {
    forall a, b :: a in rs && b in rs && a.key != b.key ==> !Overlaps(a, b)
  }

  ghost predicate Chain(rs: seq<Rect>, path: seq<Rect>) {
    && path != []
    && (forall i :: 0 <= i < |path| ==> path[i] in rs)
    && (forall i :: 0 < i < |path| ==> Touches(path[i - 1], path[i]))
  }

  ghost predicate Joins(rs: seq<Rect>, path: seq<Rect>, a: Rect, b: Rect) {
    Chain(rs, path) && path[0] == a && path[|path| - 1] == b
  }

  ghost predicate Linked(rs: seq<Rect>, a: Rect, b: Rect) {
    exists path :: Joins(rs, path, a, b)
  }

  /** The pointer can travel between any two displays. */
  ghost predicate Connected(rs: seq<Rect>) {
    forall a, b {:trigger Linked(rs, a, b)} :: a in rs && b in rs ==> Linked(rs, a, b)
  }

  ghost predicate CornerAtOrigin(rs: seq<Rect>) {
    && (forall r :: r in rs ==> r.x >= 0 && r.y >= 0)
    && (exists r :: r in rs && r.x == 0)
    && (exists r :: r in rs && r.y == 0)
  }

  ghost predicate GoodLayout(rs: seq<Rect>) {
    Separated(rs) && Connected(rs) && (rs != [] ==> CornerAtOrigin(rs))
  }

  /** `after` is `before` moved by one common offset. */
  ghost predicate IsShift(before: seq<Rect>, after: seq<Rect>, dx: int, dy: int) {
    forall r :: r in after <==> Shift(r, -dx, -dy) in before
  }

  lemma {:induction false} RectsMember(ds: seq<Draft>, r: Rect)
    ensures r in Rects(ds) <==> exists i :: 0 <= i < |ds| && Placed(ds[i]) && RectOf(ds[i]) == r
    decreases |ds|
  {
    if ds != [] {
      var init := ds[..|ds| - 1];
      RectsMember(init, r);
      if i :| 0 <= i < |ds| && Placed(ds[i]) && RectOf(ds[i]) == r {
        assert i == |ds| - 1 || init[i] == ds[i];
      }
    }
  }

  /** Exactly the displays that are on and mirror no other one occupy space. */
  lemma {:induction false} SpaceIsTaken(ds: seq<Draft>, r: Rect)
    ensures r in Rects(ds) <==> exists i :: 0 <= i < |ds| && ds[i].enabled && ds[i].mirror == None && RectOf(ds[i]) == r
  {
    RectsMember(ds, r);
    if i :| 0 <= i < |ds| && ds[i].enabled && ds[i].mirror == None && RectOf(ds[i]) == r {
      assert Placed(ds[i]);
    }
  }

  /** Rectangles keep their drafts' distinct keys. */
  lemma {:induction false} RectsUnique(ds: seq<Draft>)
    requires UniqueKeys(ds)
    ensures KeysDiffer(Rects(ds))
    decreases |ds|
  {
    if ds != [] {
      var init, last := ds[..|ds| - 1], ds[|ds| - 1];
      RectsUnique(init);
      forall r | r in Rects(init)
        ensures r.key != last.key
      {
        RectsMember(init, r);
      }
    }
  }

  // ---- normalisation ------------------------------------------------------------

  function MinX(rs: seq<Rect>): int
    requires rs != []
  {
    if |rs| == 1 then rs[0].x else Min(rs[0].x, MinX(rs[1..]))
  }

  function MinY(rs: seq<Rect>): int
    requires rs != []
  {
    if |rs| == 1 then rs[0].y else Min(rs[0].y, MinY(rs[1..]))
  }

  lemma {:induction false} MinAttained(rs: seq<Rect>)
    requires rs != []
    ensures forall i :: 0 <= i < |rs| ==> MinX(rs) <= rs[i].x && MinY(rs) <= rs[i].y
    ensures exists i :: 0 <= i < |rs| && rs[i].x == MinX(rs)
    ensures exists i :: 0 <= i < |rs| && rs[i].y == MinY(rs)
    decreases |rs|
  {
    assert |rs| == 1 ==> rs[0].x == MinX(rs) && rs[0].y == MinY(rs);
    assert rs[0].x == MinX(rs) || |rs| > 1;
    if |rs| > 1 {
      var tail := rs[1..];
      MinAttained(tail);
      var i :| 0 <= i < |tail| && tail[i].x == MinX(tail);
      var j :| 0 <= j < |tail| && tail[j].y == MinY(tail);
      assert rs[i + 1] == tail[i] && rs[j + 1] == tail[j];
      assert forall k :: 0 < k < |rs| ==> rs[k] == tail[k - 1];
    }
  }

  function MoveDraft(d: Draft, dx: int, dy: int): Draft {
    if Placed(d) then d.(x := d.x + dx, y := d.y + dy) else d
  }

  function MoveAll(ds: seq<Draft>, dx: int, dy: int): (out: seq<Draft>)
    ensures |out| == |ds|
  {
    seq(|ds|, i requires 0 <= i < |ds| => MoveDraft(ds[i], dx, dy))
  }

  function ShiftAll(rs: seq<Rect>, dx: int, dy: int): (out: seq<Rect>)
    ensures |out| == |rs|
  {
    seq(|rs|, i requires 0 <= i < |rs| => Shift(rs[i], dx, dy))
  }

  /** One translation of all placed displays, after which the least coordinates
      are zero. */
  function Normalize(ds: seq<Draft>): (out: seq<Draft>)
    ensures |out| == |ds|
    ensures forall i :: 0 <= i < |ds| ==> out[i] == ds[i].(x := out[i].x, y := out[i].y)
  {
    var list := Rects(ds);
    if list == [] then ds else MoveAll(ds, -MinX(list), -MinY(list))
  }

  lemma {:induction false} RectsMoveAll(ds: seq<Draft>, dx: int, dy: int)
    ensures Rects(MoveAll(ds, dx, dy)) == ShiftAll(Rects(ds), dx, dy)
    decreases |ds|
  {
    if ds != [] {
      var n := |ds| - 1;
      RectsMoveAll(ds[..n], dx, dy);
      assert MoveAll(ds, dx, dy)[..n] == MoveAll(ds[..n], dx, dy);
    }
  }

  lemma {:induction false} ShiftAllMember(rs: seq<Rect>, dx: int, dy: int, r: Rect)
    ensures r in ShiftAll(rs, dx, dy) <==> Shift(r, -dx, -dy) in rs
  {
    if r in ShiftAll(rs, dx, dy) {
      var i :| 0 <= i < |rs| && r == Shift(rs[i], dx, dy);
      assert rs[i] == Shift(r, -dx, -dy);
    }
    if Shift(r, -dx, -dy) in rs {
      var i :| 0 <= i < |rs| && rs[i] == Shift(r, -dx, -dy);
      assert ShiftAll(rs, dx, dy)[i] == r;
    }
  }

  lemma {:induction false} ShiftAllIsShift(rs: seq<Rect>, qs: seq<Rect>, dx: int, dy: int)
    requires forall r :: r in rs <==> r in qs
    ensures IsShift(qs, ShiftAll(rs, dx, dy), dx, dy)
  {
    forall r: Rect
      ensures r in ShiftAll(rs, dx, dy) <==> Shift(r, -dx, -dy) in qs
    {
      ShiftAllMember(rs, dx, dy, r);
    }
  }

  lemma {:induction false} CornerShift(rs: seq<Rect>)
    requires rs != []
    ensures CornerAtOrigin(ShiftAll(rs, -MinX(rs), -MinY(rs)))
  {
    var out := ShiftAll(rs, -MinX(rs), -MinY(rs));
    MinAttained(rs);
    var i :| 0 <= i < |rs| && rs[i].x == MinX(rs);
    var j :| 0 <= j < |rs| && rs[j].y == MinY(rs);
    assert out[i] in out && out[j] in out;
  }

  /** Normalising is one common translation of the placed displays, to the
      origin, and touches nothing else. */
  lemma {:induction false} NormalizeShifts(ds: seq<Draft>)
    requires Rects(ds) != []
    ensures Rects(Normalize(ds)) == ShiftAll(Rects(ds), -MinX(Rects(ds)), -MinY(Rects(ds)))
    ensures CornerAtOrigin(Rects(Normalize(ds)))
    ensures forall i :: 0 <= i < |ds| && !Placed(ds[i]) ==> Normalize(ds)[i] == ds[i]
  {
    var rs := Rects(ds);
    var dx, dy := -MinX(rs), -MinY(rs);
    assert Normalize(ds) == MoveAll(ds, dx, dy);
    RectsMoveAll(ds, dx, dy);
    CornerShift(rs);
  }

  // ---- connectivity -----------------------------------------------------------

  lemma {:induction false} Path(rs: seq<Rect>, a: Rect, b: Rect) returns (path: seq<Rect>)
    requires Connected(rs) && a in rs && b in rs
    ensures Joins(rs, path, a, b)
  {
    assert Linked(rs, a, b);
    path :| Joins(rs, path, a, b);
  }

  lemma {:induction false} ConnectedGrows(rs: seq<Rect>, r: Rect)
    requires Connected(rs) && exists o :: o in rs && Touches(r, o)
    ensures Connected(rs + [r])
  {
    var o :| o in rs && Touches(r, o);
    forall a, b | a in rs + [r] && b in rs + [r]
      ensures Linked(rs + [r], a, b)
    {
      if a in rs && b in rs {
        var path := Path(rs, a, b);
        assert Joins(rs + [r], path, a, b);
      } else if a in rs {
        var path := Path(rs, a, o);
        assert Joins(rs + [r], path + [r], a, b);
      } else if b in rs {
        var path := Path(rs, o, b);
        assert Joins(rs + [r], [r] + path, a, b);
      } else {
        assert Joins(rs + [r], [r], a, b);
      }
    }
  }

  lemma {:induction false} ShiftJoins(before: seq<Rect>, after: seq<Rect>, path: seq<Rect>, a: Rect, b: Rect, dx: int, dy: int)
    requires IsShift(before, after, dx, dy) && Joins(before, path, a, b)
    ensures Joins(after, ShiftAll(path, dx, dy), Shift(a, dx, dy), Shift(b, dx, dy))
  {
  }

  /** Translation keeps non-overlap and connectivity. */
  lemma {:induction false} ShiftKeepsLayout(before: seq<Rect>, after: seq<Rect>, dx: int, dy: int)
    requires IsShift(before, after, dx, dy) && Separated(before) && Connected(before)
    ensures Separated(after) && Connected(after)
  {
    forall a, b | a in after && b in after && a.key != b.key
      ensures !Overlaps(a, b)
    {
      assert !Overlaps(Shift(a, -dx, -dy), Shift(b, -dx, -dy));
    }
    forall a, b | a in after && b in after
      ensures Linked(after, a, b)
    {
      var a0, b0 := Shift(a, -dx, -dy), Shift(b, -dx, -dy);
      var path := Path(before, a0, b0);
      ShiftJoins(before, after, path, a0, b0, dx, dy);
      assert Joins(after, ShiftAll(path, dx, dy), a, b);
    }
  }

  // ---- relayout ----------------------------------------------------------------

  function AnchorIndex(all: seq<Rect>, key: Key): (i: nat)
    requires all != []
    ensures i < |all|
    ensures (all[i].key == key && forall j :: 0 <= j < i ==> all[j].key != key)
            || (i == 0 && forall j :: 0 <= j < |all| ==> all[j].key != key)
  {
    if all[0].key == key then 0
    else if |all| == 1 then 0
    else
      var rest := all[1..];
      var k := AnchorIndex(rest, key);
      if rest[k].key == key then assert all[k + 1] == rest[k]; k + 1 else
        assert forall j :: 0 < j < |all| ==> all[j] == rest[j - 1];
        0
  }

  function DistanceTo(anchor: Rect, r: Rect): int {
    Distance(anchor, Point(r.x, r.y))
  }

  /** The comparator: nearer first, then the smaller key. */
  predicate Before(anchor: Rect, a: Rect, b: Rect) {
    DistanceTo(anchor, a) < DistanceTo(anchor, b)
    || (DistanceTo(anchor, a) == DistanceTo(anchor, b) && a.key < b.key)
  }

  /** With unique keys two displays are never tied: one top-left corner is nearer to
      the anchor's, or both are as near and one key is smaller. */
  lemma {:induction false} BeforeMeans(anchor: Rect, a: Rect, b: Rect)
    ensures var (ax, ay) := (a.x - anchor.x, a.y - anchor.y);
            var (bx, bz) := (b.x - anchor.x, b.y - anchor.y);
            var (da, db) := (ax * ax + ay * ay, bx * bx + bz * bz);
            && (da < db ==> Before(anchor, a, b))
            && (da > db ==> !Before(anchor, a, b))
            && (da == db ==> (Before(anchor, a, b) <==> a.key < b.key))
    ensures a.key != b.key ==> Before(anchor, a, b) != Before(anchor, b, a)
  {
  }

  function Insert(anchor: Rect, sorted: seq<Rect>, r: Rect): (out: seq<Rect>)
    ensures multiset(out) == multiset(sorted) + multiset{r}
  {
    if sorted == [] then [r]
    else if Before(anchor, r, sorted[0]) then [r] + sorted
    else
      assert sorted == [sorted[0]] + sorted[1..];
      [sorted[0]] + Insert(anchor, sorted[1..], r)
  }

  function NearestFirst(anchor: Rect, rs: seq<Rect>): (out: seq<Rect>)
    ensures multiset(out) == multiset(rs)
  {
    if rs == [] then []
    else
      assert rs == rs[..|rs| - 1] + [rs[|rs| - 1]];
      Insert(anchor, NearestFirst(anchor, rs[..|rs| - 1]), rs[|rs| - 1])
  }

  ghost predicate Ordered(anchor: Rect, rs: seq<Rect>) {
    forall i, j :: 0 <= i < j < |rs| ==> !Before(anchor, rs[j], rs[i])
  }

  lemma {:induction false} InsertOrdered(anchor: Rect, sorted: seq<Rect>, r: Rect)
    requires Ordered(anchor, sorted)
    ensures Ordered(anchor, Insert(anchor, sorted, r))
    decreases |sorted|
  {
    if sorted != [] && !Before(anchor, r, sorted[0]) {
      var tail := Insert(anchor, sorted[1..], r);
      InsertOrdered(anchor, sorted[1..], r);
      forall q | q in tail
        ensures !Before(anchor, q, sorted[0])
      {
        assert q in multiset(tail);
        assert q == r || q in sorted[1..];
      }
    }
  }

  /** The displays are re-attached nearest first. */
  lemma {:induction false} NearestFirstOrdered(anchor: Rect, rs: seq<Rect>)
    ensures Ordered(anchor, NearestFirst(anchor, rs))
    decreases |rs|
  {
    if rs != [] {
      NearestFirstOrdered(anchor, rs[..|rs| - 1]);
      InsertOrdered(anchor, NearestFirst(anchor, rs[..|rs| - 1]), rs[|rs| - 1]);
    }
  }

  /** The side on which a display lies: along the axis on which the centres are
      further apart, measured in units of the mean extent. */
  function SideOf(r: Rect, anchor: Rect): Side {
    var dx := (r.x as real + r.width as real / 2.0) - (anchor.x as real + anchor.width as real / 2.0);
    var dy := (r.y as real + r.height as real / 2.0) - (anchor.y as real + anchor.height as real / 2.0);
    var nx := dx / MaxReal(1.0, (r.width + anchor.width) as real / 2.0);
    var ny := dy / MaxReal(1.0, (r.height + anchor.height) as real / 2.0);
    if AbsReal(nx) >= AbsReal(ny) then (if dx >= 0.0 then Right else Left)
    else if dy >= 0.0 then Down else Up
  }

  function MaxReal(a: real, b: real): real { if a < b then b else a }
  function AbsReal(a: real): real { if a < 0.0 then -a else a }

  /** `r` lies wholly on that side of `anchor`, across a stretch of its edge. */
  predicate Faces(r: Rect, anchor: Rect, side: Side) {
    var acrossY := r.y < anchor.y + anchor.height && anchor.y < r.y + r.height;
    var acrossX := r.x < anchor.x + anchor.width && anchor.x < r.x + r.width;
    match side
    case Right => acrossY && r.x >= anchor.x + anchor.width
    case Left => acrossY && r.x + r.width <= anchor.x
    case Down => acrossX && r.y >= anchor.y + anchor.height
    case Up => acrossX && r.y + r.height <= anchor.y
  }

  /** A display facing the anchor across an edge is judged to be on that side. */
  lemma {:induction false} SideOfFacing(r: Rect, anchor: Rect, side: Side)
    requires Positive(r) && Positive(anchor) && Faces(r, anchor, side)
    ensures SideOf(r, anchor) == side
  {
    var dx := (r.x as real + r.width as real / 2.0) - (anchor.x as real + anchor.width as real / 2.0);
    var dy := (r.y as real + r.height as real / 2.0) - (anchor.y as real + anchor.height as real / 2.0);
    var hx := MaxReal(1.0, (r.width + anchor.width) as real / 2.0);
    var hy := MaxReal(1.0, (r.height + anchor.height) as real / 2.0);
    Ratio(dx, hx);
    Ratio(dy, hy);
  }

  lemma {:induction false} Ratio(a: real, b: real)
    requires b > 0.0
    ensures AbsReal(a) >= b ==> AbsReal(a / b) >= 1.0
    ensures AbsReal(a) < b ==> AbsReal(a / b) < 1.0
  {
  }

  /** Which side a display counts as being on when it faces none: the centres'
      distances, doubled and divided by the summed extents, decide the axis, a tie
      goes to the horizontal one, and equal centres count as right or down. */
  lemma {:induction false} SideOfMeans(r: Rect, anchor: Rect)
    requires Positive(r) && Positive(anchor)
    ensures var (dx, dy) := (2 * r.x + r.width - 2 * anchor.x - anchor.width, 2 * r.y + r.height - 2 * anchor.y - anchor.height);
            var (w, h) := (r.width + anchor.width, r.height + anchor.height);
            var side := SideOf(r, anchor);
            && (side in {Left, Right} <==> Abs(dx) * h >= Abs(dy) * w)
            && (side == Right ==> dx >= 0) && (side == Left ==> dx < 0)
            && (side == Down ==> dy >= 0) && (side == Up ==> dy < 0)
  {
    var dx, dy := 2 * r.x + r.width - 2 * anchor.x - anchor.width, 2 * r.y + r.height - 2 * anchor.y - anchor.height;
    var w, h := r.width + anchor.width, r.height + anchor.height;
    var mx := (r.x as real + r.width as real / 2.0) - (anchor.x as real + anchor.width as real / 2.0);
    var my := (r.y as real + r.height as real / 2.0) - (anchor.y as real + anchor.height as real / 2.0);
    assert mx * 2.0 == dx as real && my * 2.0 == dy as real;
    assert MaxReal(1.0, w as real / 2.0) == w as real / 2.0;
    assert MaxReal(1.0, h as real / 2.0) == h as real / 2.0;
    Share(mx, w);
    Share(my, h);
    CrossAtLeast(dx, w, dy, h);
  }

  lemma {:induction false} Share(a: real, w: int)
    requires w > 0
    ensures AbsReal(a / (w as real / 2.0)) == AbsReal(a * 2.0) / w as real
  {
    assert a / (w as real / 2.0) == a * 2.0 / w as real;
  }

  lemma {:induction false} CrossAtLeast(a: int, w: int, b: int, h: int)
    requires w > 0 && h > 0
    ensures AbsReal(a as real) / w as real >= AbsReal(b as real) / h as real <==> Abs(a) * h >= Abs(b) * w
  {
    var x, y, p, q := Abs(a) as real, Abs(b) as real, w as real, h as real;
    assert x / p * (p * q) == x * q;
    assert y / q * (p * q) == y * p;
    assert x * q == (Abs(a) * h) as real && y * p == (Abs(b) * w) as real;
    if x / p < y / q {
      assert x / p * (p * q) < y / q * (p * q);
    } else {
      assert x / p * (p * q) >= y / q * (p * q);
    }
  }

  function Preference(r: Rect, anchor: Rect, previous: seq<Rect>): Option<Side> {
    var oldAnchor := Lookup(previous, anchor.key);
    var oldRect := Lookup(previous, r.key);
    if oldAnchor.Some? && oldRect.Some? then Some(SideOf(oldRect.value, oldAnchor.value)) else None
  }

  /** A display that fits the ones already done stays; any other is placed. */
  ghost predicate AttachStep(r: Rect, done: seq<Rect>, prefer: Option<Side>, placed: Rect) {
    if Fits(r, done) then placed == r
    else exists p :: PlacedBy(r, done, prefer, p) && placed == At(r, p)
  }

  /** `done` is the anchor followed by the rest, attached one after another. */
  ghost predicate Attached(anchor: Rect, rest: seq<Rect>, previous: seq<Rect>, done: seq<Rect>) {
    && |done| == |rest| + 1
    && if rest == [] then done == [anchor]
       else
         var n := |rest| - 1;
         && Attached(anchor, rest[..n], previous, done[..n + 1])
         && AttachStep(rest[n], done[..n + 1], Preference(rest[n], anchor, previous), done[n + 1])
  }

  predicate SameBox(a: Rect, b: Rect) {
    a.key == b.key && a.width == b.width && a.height == b.height
  }

  lemma {:induction false} AttachedKeepsBoxes(anchor: Rect, rest: seq<Rect>, previous: seq<Rect>, done: seq<Rect>)
    requires Attached(anchor, rest, previous, done)
    ensures SameBoxes(done, [anchor] + rest)
    decreases |rest|
  {
    hide PlacedBy, Fits;
    if rest != [] {
      var n := |rest| - 1;
      AttachedKeepsBoxes(anchor, rest[..n], previous, done[..n + 1]);
      assert SameBox(done[n + 1], rest[n]);
      forall i | 0 <= i < |done|
        ensures SameBox(done[i], ([anchor] + rest)[i])
      {
        if i <= n {
          assert done[..n + 1][i] == done[i];
          assert ([anchor] + rest[..n])[i] == ([anchor] + rest)[i];
        }
      }
    }
  }

  ghost predicate SameBoxes(done: seq<Rect>, line: seq<Rect>) {
    |line| == |done| && forall i :: 0 <= i < |done| ==> SameBox(done[i], line[i])
  }

  lemma {:induction false} AttachStepFits(r: Rect, done: seq<Rect>, prefer: Option<Side>, placed: Rect)
    requires AttachStep(r, done, prefer, placed)
    requires Positive(r) && AllPositive(done) && done != []
    ensures Positive(placed) && Fits(placed, done)
  {
    if !Fits(r, done) {
      var p :| PlacedBy(r, done, prefer, p) && placed == At(r, p);
      PlacementFits(r, done, prefer, p);
    }
  }

  /** Pairwise, by position: the form the one-at-a-time construction gives. */
  ghost predicate Apart(rs: seq<Rect>) {
    forall i, j :: 0 <= i < j < |rs| ==> !Overlaps(rs[i], rs[j])
  }

  lemma {:induction false} ApartGrows(rs: seq<Rect>, r: Rect)
    requires Apart(rs) && Fits(r, rs)
    ensures Apart(rs + [r])
  {
    forall i, j | 0 <= i < j < |rs| + 1
      ensures !Overlaps((rs + [r])[i], (rs + [r])[j])
    {
      if j == |rs| {
        assert rs[i] in rs;
        assert !Overlaps(r, rs[i]);
      }
    }
  }

  /** Attaching one display at a time keeps the whole layout apart and joined. */
  lemma {:induction false} AttachedIsGood(anchor: Rect, rest: seq<Rect>, previous: seq<Rect>, done: seq<Rect>)
    requires Attached(anchor, rest, previous, done)
    requires Positive(anchor) && AllPositive(rest)
    ensures done != [] && AllPositive(done) && Connected(done) && Apart(done)
    decreases |rest|
  {
    hide PlacedBy, AttachStep, Positive;
    if rest == [] {
      assert done == [anchor];
      SingleConnected(anchor);
    } else {
      var n := |rest| - 1;
      assert done == done[..n + 1] + [done[n + 1]];
      AttachedIsGood(anchor, rest[..n], previous, done[..n + 1]);
      AttachStepFits(rest[n], done[..n + 1], Preference(rest[n], anchor, previous), done[n + 1]);
      ConnectedGrows(done[..n + 1], done[n + 1]);
      ApartGrows(done[..n + 1], done[n + 1]);
    }
  }

  lemma {:induction false} SingleConnected(r: Rect)
    ensures Connected([r])
  {
    assert Joins([r], [r], r, r);
  }

  function WriteBack(ds: seq<Draft>, done: seq<Rect>): (out: seq<Draft>)
    ensures |out| == |ds|
    ensures forall i :: 0 <= i < |ds| ==> out[i] == ds[i].(x := out[i].x, y := out[i].y)
  {
    seq(|ds|, i requires 0 <= i < |ds| => Moved(ds[i], Lookup(done, ds[i].key)))
  }

  function Moved(d: Draft, to: Option<Rect>): Draft {
    if to.Some? then d.(x := to.value.x, y := to.value.y) else d
  }

  /** `done` holds each rectangle of `all` exactly once, possibly moved, in
      the order of `line`. */
  ghost predicate Rearranged(all: seq<Rect>, line: seq<Rect>, done: seq<Rect>) {
    multiset(line) == multiset(all) && SameBoxes(done, line)
  }

  ghost predicate KeysDiffer(rs: seq<Rect>) {
    forall i, j :: 0 <= i < j < |rs| ==> rs[i].key != rs[j].key
  }

  lemma {:induction false} LookupUnique(done: seq<Rect>, m: Rect)
    requires m in done && KeysDiffer(done)
    ensures Lookup(done, m.key) == Some(m)
  {
  }

  /** A placed draft takes the position its rectangle was given. */
  lemma {:induction false} WrittenDraft(ds: seq<Draft>, line: seq<Rect>, done: seq<Rect>, i: nat) returns (m: Rect)
    requires Rearranged(Rects(ds), line, done) && KeysDiffer(done) && i < |ds| && Placed(ds[i])
    ensures m in done && Placed(WriteBack(ds, done)[i]) && RectOf(WriteBack(ds, done)[i]) == m
  {
    RectsMember(ds, RectOf(ds[i]));
    assert RectOf(ds[i]) in multiset(line);
    var k :| 0 <= k < |line| && line[k] == RectOf(ds[i]);
    m := done[k];
    LookupUnique(done, m);
  }

  /** Every rectangle that was placed belongs to one placed draft. */
  lemma {:induction false} DraftOf(ds: seq<Draft>, line: seq<Rect>, done: seq<Rect>, m: Rect) returns (i: nat)
    requires Rearranged(Rects(ds), line, done) && m in done
    ensures i < |ds| && Placed(ds[i]) && SameBox(m, RectOf(ds[i]))
  {
    var k :| 0 <= k < |done| && done[k] == m;
    assert line[k] in multiset(Rects(ds));
    RectsMember(ds, line[k]);
    i :| 0 <= i < |ds| && Placed(ds[i]) && RectOf(ds[i]) == line[k];
  }

  lemma {:induction false} WriteBackRects(ds: seq<Draft>, line: seq<Rect>, done: seq<Rect>)
    requires UniqueKeys(ds) && Rearranged(Rects(ds), line, done) && KeysDiffer(done)
    ensures forall r :: r in Rects(WriteBack(ds, done)) <==> r in done
    ensures forall i :: 0 <= i < |ds| && !Placed(ds[i]) ==> WriteBack(ds, done)[i] == ds[i]
  {
    var out := WriteBack(ds, done);
    forall r | r in Rects(out)
      ensures r in done
    {
      RectsMember(out, r);
      var i :| 0 <= i < |out| && Placed(out[i]) && RectOf(out[i]) == r;
      var m := WrittenDraft(ds, line, done, i);
    }
    forall m | m in done
      ensures m in Rects(out)
    {
      var i := DraftOf(ds, line, done, m);
      var q := WrittenDraft(ds, line, done, i);
      LookupUnique(done, m);
      LookupUnique(done, q);
      RectsMember(out, m);
    }
    forall i | 0 <= i < |ds| && !Placed(ds[i])
      ensures out[i] == ds[i]
    {
      if m :| m in done && m.key == ds[i].key {
        var k := DraftOf(ds, line, done, m);
      }
    }
  }

  /** Re-attaching neither drops nor duplicates a display. */
  lemma {:induction false} AttachedRearranges(all: seq<Rect>, a: nat, previous: seq<Rect>, done: seq<Rect>)
    requires a < |all| && KeysDiffer(all)
    requires Attached(all[a], NearestFirst(all[a], all[..a] + all[a + 1..]), previous, done)
    ensures Rearranged(all, [all[a]] + NearestFirst(all[a], all[..a] + all[a + 1..]), done)
    ensures KeysDiffer(done)
  {
    hide Attached, NearestFirst;
    var rest := NearestFirst(all[a], all[..a] + all[a + 1..]);
    AttachedKeepsBoxes(all[a], rest, previous, done);
    SameElements(all, a, rest);
    PermutedKeysUnique(all, [all[a]] + rest);
  }

  lemma {:induction false} SameElements(all: seq<Rect>, a: nat, rest: seq<Rect>)
    requires a < |all| && multiset(rest) == multiset(all[..a] + all[a + 1..])
    ensures multiset([all[a]] + rest) == multiset(all)
  {
    assert all == all[..a] + [all[a]] + all[a + 1..];
  }

  lemma {:induction false} PermutedKeysUnique(rs: seq<Rect>, qs: seq<Rect>)
    requires multiset(rs) == multiset(qs) && KeysDiffer(rs)
    ensures KeysDiffer(qs)
  {
    forall i, j | 0 <= i < j < |qs|
      ensures qs[i].key != qs[j].key
    {
      assert qs[i] in multiset(rs) && qs[j] in multiset(rs);
      if qs[i] == qs[j] {
        TwiceInMultiset(qs, i, j);
        OnceInMultiset(rs, qs[i]);
      }
    }
  }

  lemma {:induction false} TwiceInMultiset(qs: seq<Rect>, i: nat, j: nat)
    requires i < j < |qs| && qs[i] == qs[j]
    ensures multiset(qs)[qs[i]] >= 2
  {
    assert qs == qs[..j] + [qs[j]] + qs[j + 1..];
    assert qs[..j][i] in multiset(qs[..j]);
  }

  lemma {:induction false} OnceInMultiset(rs: seq<Rect>, r: Rect)
    requires KeysDiffer(rs) && r in rs
    ensures multiset(rs)[r] == 1
  {
    var k :| 0 <= k < |rs| && rs[k] == r;
    assert rs == rs[..k] + [rs[k]] + rs[k + 1..];
    assert r !in multiset(rs[..k]) && r !in multiset(rs[k + 1..]);
  }

  /** `next` re-attaches every display of `drafts` around the changed one, which
      does not move relative to `done`. */
  ghost predicate Reattached(drafts: seq<Draft>, key: Key, previous: seq<Rect>, done: seq<Rect>, next: seq<Draft>) {
    var all := Rects(drafts);
    if all == [] then next == drafts && done == []
    else
      var a := AnchorIndex(all, key);
      && Attached(all[a], NearestFirst(all[a], all[..a] + all[a + 1..]), previous, done)
      && next == Normalize(WriteBack(drafts, done))
  }

  /** The changed display is where it was in `done`. */
  ghost predicate AnchorStays(drafts: seq<Draft>, key: Key, done: seq<Rect>) {
    var all := Rects(drafts);
    all != [] ==> done != [] && done[0] == all[AnchorIndex(all, key)]
  }

  lemma {:induction false} AttachedAnchor(anchor: Rect, rest: seq<Rect>, previous: seq<Rect>, done: seq<Rect>)
    requires Attached(anchor, rest, previous, done)
    ensures done != [] && done[0] == anchor
    decreases |rest|
  {
    if rest != [] {
      var n := |rest| - 1;
      AttachedAnchor(anchor, rest[..n], previous, done[..n + 1]);
    }
  }

  /** `r` lies edge to edge with `o`, on that side of it. */
  predicate Flush(r: Rect, o: Rect, side: Side) {
    && Faces(r, o, side)
    && match side
       case Right => r.x == o.x + o.width
       case Left => r.x + r.width == o.x
       case Down => r.y == o.y + o.height
       case Up => r.y + r.height == o.y
  }

  lemma {:induction false} BesideFlush(r: Rect, o: Rect, c: Candidate)
    requires Positive(r) && Positive(o) && c in Beside(r, o)
    ensures Flush(At(r, c.at), o, c.side)
  {
  }

  /** A candidate of a side is edge to edge with a display, on that side of it. */
  lemma {:induction false} CandidateFlush(r: Rect, others: seq<Rect>, c: Candidate) returns (o: Rect)
    requires Positive(r) && (forall o :: o in others ==> Positive(o)) && c in Candidates(r, others)
    ensures o in others && Flush(At(r, c.at), o, c.side)
    decreases |others|
  {
    hide Beside, Flush, Positive;
    var init, last := others[..|others| - 1], others[|others| - 1];
    assert others == init + [last];
    if c in Beside(r, last) {
      o := last;
      BesideFlush(r, o, c);
    } else {
      o := CandidateFlush(r, init, c);
    }
  }

  /** In `previous` the display faced the anchor on that side. */
  ghost predicate Faced(previous: seq<Rect>, key: Key, anchor: Key, side: Side) {
    var r, a := Lookup(previous, key), Lookup(previous, anchor);
    r.Some? && a.Some? && Positive(r.value) && Positive(a.value) && Faces(r.value, a.value, side)
  }

  /** A display stays where it is if it fits there, and is otherwise put, edge to
      edge with one of those already done, on the side of the anchor on which it
      was before. */
  ghost predicate KeepsSide(r: Rect, anchor: Rect, previous: seq<Rect>, done: seq<Rect>, placed: Rect) {
    if Fits(r, done) then placed == r
    else
      && SameBox(placed, r) && Fits(placed, done)
      && forall side :: Faced(previous, r.key, anchor.key, side) ==> exists o :: o in done && Flush(placed, o, side)
  }

  lemma {:induction false} StepKeepsSide(r: Rect, anchor: Rect, previous: seq<Rect>, done: seq<Rect>, placed: Rect)
    requires Positive(r) && done != [] && (forall o :: o in done ==> Positive(o))
    requires AttachStep(r, done, Preference(r, anchor, previous), placed)
    ensures KeepsSide(r, anchor, previous, done, placed)
  {
    hide SideOf, Flush, Candidates, Borders, Pool, Faces;
    if !Fits(r, done) {
      var prefer := Preference(r, anchor, previous);
      var p :| PlacedBy(r, done, prefer, p) && placed == At(r, p);
      PlacementFits(r, done, prefer, p);
      forall side | Faced(previous, r.key, anchor.key, side)
        ensures exists o :: o in done && Flush(placed, o, side)
      {
        SideOfFacing(Lookup(previous, r.key).value, Lookup(previous, anchor.key).value, side);
        var o := CandidateFlush(r, done, Candidate(side, p));
      }
    }
  }

  /** Every display in turn keeps its side. */
  ghost predicate SidesKept(anchor: Rect, rest: seq<Rect>, previous: seq<Rect>, done: seq<Rect>) {
    && |done| == |rest| + 1 && done[0] == anchor
    && forall k :: 0 <= k < |rest| ==> KeepsSide(rest[k], anchor, previous, done[..k + 1], done[k + 1])
  }

  lemma {:induction false} AttachedKeepsSides(anchor: Rect, rest: seq<Rect>, previous: seq<Rect>, done: seq<Rect>)
    requires Attached(anchor, rest, previous, done) && Positive(anchor) && AllPositive(rest)
    ensures SidesKept(anchor, rest, previous, done) && AllPositive(done)
    decreases |rest|
  {
    hide KeepsSide, AttachStep, Positive, Preference;
    if rest != [] {
      var n := |rest| - 1;
      assert rest == rest[..n] + [rest[n]];
      AttachedKeepsSides(anchor, rest[..n], previous, done[..n + 1]);
      StepKeepsSide(rest[n], anchor, previous, done[..n + 1], done[n + 1]);
      forall k | 0 <= k < n
        ensures KeepsSide(rest[k], anchor, previous, done[..k + 1], done[k + 1])
      {
        assert done[..n + 1][..k + 1] == done[..k + 1] && rest[..n][k] == rest[k];
      }
      BoxPositive(rest[n], anchor, previous, done[..n + 1], done[n + 1]);
      assert done == done[..n + 1] + [done[n + 1]];
    } else {
      assert done == [anchor];
    }
  }

  lemma BoxPositive(r: Rect, anchor: Rect, previous: seq<Rect>, done: seq<Rect>, placed: Rect)
    requires Positive(r) && KeepsSide(r, anchor, previous, done, placed)
    ensures Positive(placed)
  {
  }

  /** The displays other than the changed one, nearest first. */
  function Rest(all: seq<Rect>, key: Key): seq<Rect>
    requires all != []
  {
    var a := AnchorIndex(all, key);
    NearestFirst(all[a], all[..a] + all[a + 1..])
  }

  /** After a display changed size, every other one is re-attached around it:
      nothing overlaps or floats free, and the change is a layout with the
      anchor in place moved by one common offset. */
  method Relayout(drafts: seq<Draft>, key: Key, previous: Option<seq<Draft>>) returns (next: seq<Draft>, ghost done: seq<Rect>)
    ensures |next| == |drafts|
    ensures Reattached(drafts, key, if previous.Some? then Rects(previous.value) else [], done, next)
    ensures AnchorStays(drafts, key, done)
    ensures AllPositive(Rects(drafts)) && Rects(drafts) != [] ==>
              SidesKept(Rects(drafts)[AnchorIndex(Rects(drafts), key)], Rest(Rects(drafts), key),
                        if previous.Some? then Rects(previous.value) else [], done)
    ensures UniqueKeys(drafts) && AllPositive(Rects(drafts)) ==> Relaid(drafts, done, next)
  {
    hide Attached, Relaid, Normalize, WriteBack, NearestFirst;
    var before := if previous.Some? then Rects(previous.value) else [];
    var all := Rects(drafts);
    if all == [] {
      next, done := drafts, [];
    } else {
      var a := AnchorIndex(all, key);
      var placed := AttachAll(all[a], NearestFirst(all[a], all[..a] + all[a + 1..]), before);
      done := placed;
      AttachedAnchor(all[a], NearestFirst(all[a], all[..a] + all[a + 1..]), before, done);
      if AllPositive(all) {
        RestPositive(all, key);
        AttachedKeepsSides(all[a], Rest(all, key), before, done);
      }
      next := Normalize(WriteBack(drafts, placed));
    }
    if UniqueKeys(drafts) && AllPositive(all) {
      RelayoutGood(drafts, key, before, done, next);
    }
  }

  lemma {:induction false} RestPositive(all: seq<Rect>, key: Key)
    requires all != [] && AllPositive(all)
    ensures AllPositive(Rest(all, key))
  {
    hide Positive;
    var a := AnchorIndex(all, key);
    forall r | r in Rest(all, key)
      ensures r in all
    {
      assert r in multiset(Rest(all, key));
      assert r in all[..a] + all[a + 1..];
    }
  }

  /** With two displays, one that does not fit any more ends up on the side of the
      changed one on which it was, edge to edge with it. */
  lemma {:induction false} TwoKeepSide(drafts: seq<Draft>, key: Key, previous: seq<Rect>, done: seq<Rect>, next: seq<Draft>, side: Side)
    returns (other: Rect, anchor: Rect)
    requires UniqueKeys(drafts) && AllPositive(Rects(drafts)) && |Rects(drafts)| == 2
    requires Reattached(drafts, key, previous, done, next)
    requires var all := Rects(drafts);
             var a := AnchorIndex(all, key);
             !Fits(all[1 - a], [all[a]]) && Faced(previous, all[1 - a].key, all[a].key, side)
    ensures var all := Rects(drafts);
            var a := AnchorIndex(all, key);
            && other in Rects(next) && anchor in Rects(next) && SameBox(other, all[1 - a]) && SameBox(anchor, all[a])
            && Flush(other, anchor, side)
  {
    hide Attached, Normalize, WriteBack, Fits, Flush, Faced, NearestFirst, Relaid, IsShift, AnchorStays;
    var all := Rects(drafts);
    var a := AnchorIndex(all, key);
    DoneOfTwo(all, key, previous, done, side);
    RelayoutGood(drafts, key, previous, done, next);
    other, anchor := ShiftedPair(drafts, done, next, side);
  }

  lemma {:induction false} DoneOfTwo(all: seq<Rect>, key: Key, previous: seq<Rect>, done: seq<Rect>, side: Side)
    requires |all| == 2 && AllPositive(all)
    requires var a := AnchorIndex(all, key);
             && Attached(all[a], NearestFirst(all[a], all[..a] + all[a + 1..]), previous, done)
             && !Fits(all[1 - a], [all[a]]) && Faced(previous, all[1 - a].key, all[a].key, side)
    ensures var a := AnchorIndex(all, key);
            |done| == 2 && done[0] == all[a] && SameBox(done[1], all[1 - a]) && Flush(done[1], done[0], side)
  {
    hide Attached, Fits, Flush, Faced, NearestFirst, Positive;
    var a := AnchorIndex(all, key);
    RestOfTwo(all, key);
    RestPositive(all, key);
    AttachedKeepsSides(all[a], Rest(all, key), previous, done);
    assert done[..1] == [all[a]];
    assert KeepsSide(Rest(all, key)[0], all[a], previous, done[..1], done[1]);
  }

  lemma {:induction false} ShiftedPair(drafts: seq<Draft>, done: seq<Rect>, next: seq<Draft>, side: Side) returns (other: Rect, anchor: Rect)
    requires |next| == |drafts| && Relaid(drafts, done, next) && |done| == 2 && Flush(done[1], done[0], side)
    ensures other in Rects(next) && anchor in Rects(next) && SameBox(other, done[1]) && SameBox(anchor, done[0]) && Flush(other, anchor, side)
  {
    hide Flush, GoodLayout, Apart;
    var dx, dy :| IsShift(done, Rects(next), dx, dy);
    other, anchor := Shift(done[1], dx, dy), Shift(done[0], dx, dy);
    ShiftBack(done[1], dx, dy);
    ShiftBack(done[0], dx, dy);
    FlushShift(done[1], done[0], side, dx, dy);
  }

  lemma {:induction false} RestOfTwo(all: seq<Rect>, key: Key)
    requires |all| == 2
    ensures Rest(all, key) == [all[1 - AnchorIndex(all, key)]]
  {
    var a := AnchorIndex(all, key);
    var others := all[..a] + all[a + 1..];
    assert others == [all[1 - a]];
    assert NearestFirst(all[a], others[..0]) == [];
  }

  lemma ShiftBack(r: Rect, dx: int, dy: int)
    ensures Shift(Shift(r, dx, dy), -dx, -dy) == r
  {
  }

  lemma FlushShift(r: Rect, o: Rect, side: Side, dx: int, dy: int)
    ensures Flush(Shift(r, dx, dy), Shift(o, dx, dy), side) <==> Flush(r, o, side)
  {
  }

  method AttachAll(anchor: Rect, rest: seq<Rect>, before: seq<Rect>) returns (done: seq<Rect>)
    ensures Attached(anchor, rest, before, done)
  {
    hide PlacedBy, Fits, Preference;
    done := [anchor];
    for i := 0 to |rest|
      invariant Attached(anchor, rest[..i], before, done)
    {
      var r := rest[i];
      if !Fits(r, done) {
        var p := PlaceRect(r, done, Preference(r, anchor, before));
        r := At(r, p);
      }
      assert rest[..i + 1][..i] == rest[..i] && (done + [r])[..i + 1] == done;
      done := done + [r];
    }
    assert rest[..|rest|] == rest;
  }

  /** What a relaid layout promises. */
  ghost predicate Relaid(drafts: seq<Draft>, done: seq<Rect>, next: seq<Draft>)
    requires |next| == |drafts|
  {
    && GoodLayout(Rects(next)) && Apart(Rects(next))
    && (forall i :: 0 <= i < |drafts| ==> next[i] == drafts[i].(x := next[i].x, y := next[i].y))
    && (exists dx, dy :: IsShift(done, Rects(next), dx, dy))
    && (forall i :: 0 <= i < |drafts| && !Placed(drafts[i]) ==> next[i] == drafts[i])
  }

  /** Every re-attached layout is a good one. */
  lemma {:induction false} RelayoutGood(drafts: seq<Draft>, key: Key, previous: seq<Rect>, done: seq<Rect>, next: seq<Draft>)
    requires UniqueKeys(drafts) && AllPositive(Rects(drafts))
    requires Reattached(drafts, key, previous, done, next)
    ensures |next| == |drafts| && Relaid(drafts, done, next) && AnchorStays(drafts, key, done)
  {
    hide Attached, Relaid, Normalize, WriteBack, NearestFirst, Rearranged, Separated, Connected;
    var all := Rects(drafts);
    if all == [] {
      RelaidEmpty(drafts);
    } else {
      var a := AnchorIndex(all, key);
      RectsUnique(drafts);
      AttachedAnchor(all[a], NearestFirst(all[a], all[..a] + all[a + 1..]), previous, done);
      AttachedRearranges(all, a, previous, done);
      AttachedWhole(all, a, previous, done);
      WriteBackRects(drafts, [all[a]] + NearestFirst(all[a], all[..a] + all[a + 1..]), done);
      RelaidFrom(drafts, done, WriteBack(drafts, done));
    }
  }

  lemma {:induction false} RelaidEmpty(drafts: seq<Draft>)
    requires Rects(drafts) == []
    ensures Relaid(drafts, [], drafts)
  {
    assert IsShift([], Rects(drafts), 0, 0);
  }

  lemma {:induction false} AttachedWhole(all: seq<Rect>, a: nat, previous: seq<Rect>, done: seq<Rect>)
    requires a < |all| && AllPositive(all)
    requires Attached(all[a], NearestFirst(all[a], all[..a] + all[a + 1..]), previous, done)
    ensures done != [] && Separated(done) && Connected(done)
  {
    hide Attached, NearestFirst, Connected;
    var others := all[..a] + all[a + 1..];
    var rest := NearestFirst(all[a], others);
    forall q | q in rest
      ensures Positive(q)
    {
      assert q in multiset(others);
    }
    AttachedIsGood(all[a], rest, previous, done);
    ApartSeparated(done);
  }

  lemma {:induction false} ApartSeparated(rs: seq<Rect>)
    requires Apart(rs)
    ensures Separated(rs)
  {
  }

  lemma {:induction false} RelaidFrom(drafts: seq<Draft>, done: seq<Rect>, written: seq<Draft>)
    requires |written| == |drafts| && done != [] && Separated(done) && Connected(done)
    requires forall r :: r in Rects(written) <==> r in done
    requires forall i :: 0 <= i < |drafts| && !Placed(drafts[i]) ==> written[i] == drafts[i]
    requires UniqueKeys(drafts)
    requires forall i :: 0 <= i < |drafts| ==> written[i] == drafts[i].(x := written[i].x, y := written[i].y)
    ensures Relaid(drafts, done, Normalize(written))
  {
    hide Connected, Separated, Overlaps, Touches, Normalize, ShiftAll, Rects, MinX, MinY, CornerAtOrigin, IsShift;
    assert done[0] in Rects(written);
    NormalizeShifts(written);
    var dx, dy := -MinX(Rects(written)), -MinY(Rects(written));
    var after := Rects(Normalize(written));
    ShiftAllIsShift(Rects(written), done, dx, dy);
    assert IsShift(done, after, dx, dy);
    ShiftKeepsLayout(done, after, dx, dy);
    SeparatedApart(Normalize(written));
  }

  /** With distinct keys, separated rectangles pass the pairwise check. */
  lemma {:induction false} SeparatedApart(ds: seq<Draft>)
    requires UniqueKeys(ds) && Separated(Rects(ds))
    ensures Apart(Rects(ds))
  {
    RectsUnique(ds);
  }
}
