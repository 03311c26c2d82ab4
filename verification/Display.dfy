/** Attaching one rectangle to a layout (`placeRect` of DisplayHelpers.js).
    Coordinates are integers (logical pixels); a draft carries its logical
    size. */
module Display {
  import opened Common

  /** Display keys are only compared, so a number stands for each string. */
  type Key = nat

  datatype Side = Left | Right | Up | Down
  datatype Point = Point(x: int, y: int)
  datatype Rect = Rect(key: Key, x: int, y: int, width: int, height: int)
  datatype Candidate = Candidate(side: Side, at: Point)
  datatype Draft = Draft(key: Key, enabled: bool, mirror: Option<Key>, x: int, y: int, width: int, height: int)

  const SNAP_DISTANCE := 48
  const MIN_SHARED_EDGE := 64

  // ---- geometry -------------------------------------------------------------

  predicate Overlaps(a: Rect, b: Rect) {
    a.x < b.x + b.width && b.x < a.x + a.width && a.y < b.y + b.height && b.y < a.y + a.height
  }

  predicate Touches(a: Rect, b: Rect) {
    || ((a.x + a.width == b.x || b.x + b.width == a.x) && a.y < b.y + b.height && b.y < a.y + a.height)
    || ((a.y + a.height == b.y || b.y + b.height == a.y) && a.x < b.x + b.width && b.x < a.x + a.width)
  }

  predicate Positive(r: Rect) {
    r.width > 0 && r.height > 0
  }

  function Min(a: int, b: int): int { if a < b then a else b }
  function Max(a: int, b: int): int { if a < b then b else a }
  function Abs(a: int): int { if a < 0 then -a else a }
  function Clamp(value: int, low: int, high: int): int { Max(low, Min(high, value)) }

  /** Within the snap distance the start, else the end, of the neighbour's edge;
      otherwise the value itself. */
  function Align(value: int, size: int, start: int, extent: int): int {
    if Abs(value - start) <= SNAP_DISTANCE then start
    else if Abs(value + size - (start + extent)) <= SNAP_DISTANCE then start + extent - size
    else value
  }

  function At(r: Rect, p: Point): Rect {
    r.(x := p.x, y := p.y)
  }

  function Shift(r: Rect, dx: int, dy: int): Rect {
    r.(x := r.x + dx, y := r.y + dy)
  }

  predicate Fits(r: Rect, others: seq<Rect>) {
    && (forall o :: o in others ==> !Overlaps(r, o))
    && (exists o :: o in others && Touches(r, o))
  }

  // ---- candidates -------------------------------------------------------------

  /** The four positions beside one display. */
  function Beside(r: Rect, o: Rect): seq<Candidate> {
    var shareY := Min(MIN_SHARED_EDGE, Min(r.height, o.height));
    var shareX := Min(MIN_SHARED_EDGE, Min(r.width, o.width));
    var y := Align(Clamp(r.y, o.y - r.height + shareY, o.y + o.height - shareY), r.height, o.y, o.height);
    var x := Align(Clamp(r.x, o.x - r.width + shareX, o.x + o.width - shareX), r.width, o.x, o.width);
    [ Candidate(Right, Point(o.x + o.width, y)),
      Candidate(Left, Point(o.x - r.width, y)),
      Candidate(Down, Point(x, o.y + o.height)),
      Candidate(Up, Point(x, o.y - r.height)) ]
  }

  function SideIndex(side: Side): nat {
    match side case Right => 0 case Left => 1 case Down => 2 case Up => 3
  }

  function Candidates(r: Rect, others: seq<Rect>): seq<Candidate> {
    if others == [] then [] else Candidates(r, others[..|others| - 1]) + Beside(r, others[|others| - 1])
  }

  function UsableOf(r: Rect, others: seq<Rect>, cs: seq<Candidate>): seq<Candidate> {
    if cs == [] then [] else
      var last := cs[|cs| - 1];
      UsableOf(r, others, cs[..|cs| - 1]) + (if Fits(At(r, last.at), others) then [last] else [])
  }

  function OnSide(side: Side, cs: seq<Candidate>): seq<Candidate> {
    if cs == [] then [] else
      var last := cs[|cs| - 1];
      OnSide(side, cs[..|cs| - 1]) + (if last.side == side then [last] else [])
  }

  /** The positions `placeRect` chooses from, in the order it looks at them. */
  function Pool(r: Rect, others: seq<Rect>, prefer: Option<Side>): seq<Candidate> {
    var usable := UsableOf(r, others, Candidates(r, others));
    if prefer.Some? && OnSide(prefer.value, usable) != [] then OnSide(prefer.value, usable) else usable
  }

  function Distance(r: Rect, p: Point): int {
    (p.x - r.x) * (p.x - r.x) + (p.y - r.y) * (p.y - r.y)
  }

  /** Index `c` is the nearest of the pool, and the first of the nearest. */
  ghost predicate FirstNearest(r: Rect, pool: seq<Candidate>, c: int) {
    && 0 <= c < |pool|
    && (forall i :: 0 <= i < |pool| ==> Distance(r, pool[c].at) <= Distance(r, pool[i].at))
    && (forall i :: 0 <= i < c ==> Distance(r, pool[c].at) < Distance(r, pool[i].at))
  }

  function RightEdge(others: seq<Rect>): int
    requires others != []
  {
    var last := others[|others| - 1];
    if |others| == 1 then last.x + last.width else Max(RightEdge(others[..|others| - 1]), last.x + last.width)
  }

  /** What `placeRect` answers. */
  ghost predicate PlacedBy(r: Rect, others: seq<Rect>, prefer: Option<Side>, p: Point) {
    if others == [] then p == Point(r.x, r.y)
    else
      var pool := Pool(r, others, prefer);
      if pool == [] then p == Point(RightEdge(others), others[0].y)
      else exists c :: FirstNearest(r, pool, c) && p == pool[c].at
  }

  lemma {:induction false} UsableMember(r: Rect, others: seq<Rect>, cs: seq<Candidate>, c: Candidate)
    ensures c in UsableOf(r, others, cs) <==> c in cs && Fits(At(r, c.at), others)
    decreases |cs|
  {
    if cs != [] {
      var init, last := cs[..|cs| - 1], cs[|cs| - 1];
      UsableMember(r, others, init, c);
      assert cs == init + [last];
    }
  }

  lemma {:induction false} OnSideMember(side: Side, cs: seq<Candidate>, c: Candidate)
    ensures c in OnSide(side, cs) <==> c in cs && c.side == side
    decreases |cs|
  {
    if cs != [] {
      var init, last := cs[..|cs| - 1], cs[|cs| - 1];
      OnSideMember(side, init, c);
      assert cs == init + [last];
    }
  }

  /** The displays lie edge to edge over at least 64 pixels, or over the whole of
      the shorter edge. */
  predicate Borders(a: Rect, b: Rect) {
    || ((a.x + a.width == b.x || b.x + b.width == a.x)
        && Min(a.y + a.height, b.y + b.height) - Max(a.y, b.y) >= Min(MIN_SHARED_EDGE, Min(a.height, b.height)))
    || ((a.y + a.height == b.y || b.y + b.height == a.y)
        && Min(a.x + a.width, b.x + b.width) - Max(a.x, b.x) >= Min(MIN_SHARED_EDGE, Min(a.width, b.width)))
  }

  /** Clamping and snapping keep the shared stretch. */
  lemma {:induction false} BesideBorders(r: Rect, o: Rect, c: Candidate)
    requires Positive(r) && Positive(o) && c in Beside(r, o)
    ensures Borders(At(r, c.at), o)
  {
  }

  lemma {:induction false} CandidateBorders(r: Rect, others: seq<Rect>, c: Candidate) returns (o: Rect)
    requires Positive(r) && (forall o :: o in others ==> Positive(o)) && c in Candidates(r, others)
    ensures o in others && Borders(At(r, c.at), o)
    decreases |others|
  {
    hide Beside, Borders, Positive;
    var init, last := others[..|others| - 1], others[|others| - 1];
    assert others == init + [last];
    if c in Beside(r, last) {
      o := last;
      BesideBorders(r, o, c);
    } else {
      o := CandidateBorders(r, init, c);
    }
  }

  /** Along the shared edge: `at` leaves the shorter of 64 pixels and the two
      lengths in common, no position that does is nearer to `from` by more than the
      snap distance, and a free position moves to the neighbour's start or, failing
      that, to its end if one of them is within 48 pixels, and else nowhere. */
  ghost predicate LinedUp(from: int, size: int, start: int, extent: int, at: int) {
    var share := if 64 <= size && 64 <= extent then 64 else if size <= extent then size else extent;
    var low, high := start - size + share, start + extent - share;
    && low <= at <= high
    && (from < low ==> at - low <= 48)
    && (high < from ==> high - at <= 48)
    && (at != start && at != start + extent - size ==> at == if from < low then low else if high < from then high else from)
    && (low <= from <= high ==>
          if start - 48 <= from <= start + 48 then at == start
          else if start + extent - 48 <= from + size <= start + extent + 48 then at + size == start + extent
          else at == from)
  }

  /** Each candidate is flush with its neighbour and lined up along the edge. */
  lemma {:induction false} BesideLinedUp(r: Rect, o: Rect, c: Candidate)
    requires Positive(r) && Positive(o) && c in Beside(r, o)
    ensures c.side in {Left, Right} ==> LinedUp(r.y, r.height, o.y, o.height, c.at.y)
    ensures c.side in {Up, Down} ==> LinedUp(r.x, r.width, o.x, o.width, c.at.x)
  {
    hide LinedUp, Align, Clamp;
    AlignLinedUp(r.y, r.height, o.y, o.height);
    AlignLinedUp(r.x, r.width, o.x, o.width);
  }

  lemma {:induction false} AlignLinedUp(from: int, size: int, start: int, extent: int)
    requires size > 0 && extent > 0
    ensures var share := Min(MIN_SHARED_EDGE, Min(size, extent));
            LinedUp(from, size, start, extent,
              Align(Clamp(from, start - size + share, start + extent - share), size, start, extent))
  {
  }

  lemma {:induction false} CandidateMember(r: Rect, others: seq<Rect>, o: Rect, c: Candidate)
    requires o in others && c in Beside(r, o)
    ensures c in Candidates(r, others)
    decreases |others|
  {
    var init, last := others[..|others| - 1], others[|others| - 1];
    assert others == init + [last];
    if o in init {
      CandidateMember(r, init, o, c);
    }
  }

  /** The display that no other one passes on a given side. */
  lemma {:induction false} Outermost(others: seq<Rect>, side: Side) returns (edge: Rect)
    requires others != []
    ensures edge in others && forall o :: o in others ==> !Beyond(side, o, edge)
    decreases |others|
  {
    var init, last := others[..|others| - 1], others[|others| - 1];
    assert others == init + [last];
    if init == [] {
      edge := last;
    } else {
      edge := Outermost(init, side);
      if Beyond(side, last, edge) {
        edge := last;
      }
    }
  }

  predicate Beyond(side: Side, o: Rect, edge: Rect) {
    match side
    case Left => o.x < edge.x
    case Right => o.x + o.width > edge.x + edge.width
    case Up => o.y < edge.y
    case Down => o.y + o.height > edge.y + edge.height
  }

  /** Beside the outermost display there is always room on that side. */
  lemma {:induction false} OutermostFits(r: Rect, others: seq<Rect>, side: Side, edge: Rect)
    requires Positive(r) && forall o :: o in others ==> Positive(o)
    requires edge in others && forall o :: o in others ==> !Beyond(side, o, edge)
    ensures Beside(r, edge)[SideIndex(side)].side == side
    ensures Fits(At(r, Beside(r, edge)[SideIndex(side)].at), others)
  {
  }

  /** Every side has a usable candidate, so the search never comes up empty. */
  lemma {:induction false} SideHasRoom(r: Rect, others: seq<Rect>, side: Side)
    requires Positive(r) && others != [] && forall o :: o in others ==> Positive(o)
    ensures OnSide(side, UsableOf(r, others, Candidates(r, others))) != []
  {
    var edge := Outermost(others, side);
    OutermostFits(r, others, side, edge);
    var c := Beside(r, edge)[SideIndex(side)];
    CandidateMember(r, others, edge, c);
    UsableMember(r, others, Candidates(r, others), c);
    OnSideMember(side, UsableOf(r, others, Candidates(r, others)), c);
  }

  /** Wherever the rectangle was, it ends up on a real edge of the layout, over
      nothing, on the side asked for, and the last-resort position is dead. */
  lemma {:induction false} PlacementFits(r: Rect, others: seq<Rect>, prefer: Option<Side>, p: Point)
    requires Positive(r) && others != [] && forall o :: o in others ==> Positive(o)
    requires PlacedBy(r, others, prefer, p)
    ensures Pool(r, others, prefer) != []
    ensures Fits(At(r, p), others) && exists o :: o in others && Borders(At(r, p), o)
    ensures exists side :: (prefer.Some? ==> side == prefer.value) && Candidate(side, p) in Candidates(r, others)
  {
    var usable := UsableOf(r, others, Candidates(r, others));
    var pool := Pool(r, others, prefer);
    SideHasRoom(r, others, if prefer.Some? then prefer.value else Right);
    assert usable != [];
    var c :| FirstNearest(r, pool, c) && p == pool[c].at;
    assert pool[c] in pool;
    if prefer.Some? {
      OnSideMember(prefer.value, usable, pool[c]);
    }
    UsableMember(r, others, Candidates(r, others), pool[c]);
    assert pool[c] == Candidate(pool[c].side, p);
    var o := CandidateBorders(r, others, pool[c]);
  }

  /** A usable candidate that is already where the rectangle is wins. */
  lemma {:induction false} ZeroDistanceWins(r: Rect, others: seq<Rect>, side: Side, p: Point)
    requires others != [] && PlacedBy(r, others, Some(side), p)
    requires Candidate(side, Point(r.x, r.y)) in Candidates(r, others) && Fits(r, others)
    ensures p == Point(r.x, r.y)
  {
    var here := Candidate(side, Point(r.x, r.y));
    var usable := UsableOf(r, others, Candidates(r, others));
    assert At(r, here.at) == r;
    UsableMember(r, others, Candidates(r, others), here);
    OnSideMember(side, usable, here);
    var pool := Pool(r, others, Some(side));
    var c :| FirstNearest(r, pool, c) && p == pool[c].at;
    var h :| 0 <= h < |pool| && pool[h] == here;
    ZeroDistance(r, here.at);
    ZeroDistance(r, p);
  }

  lemma ZeroDistance(r: Rect, p: Point)
    ensures Distance(r, p) >= 0
    ensures Distance(r, p) == 0 <==> p == Point(r.x, r.y)
  {
  }

  method Nearest(r: Rect, pool: seq<Candidate>) returns (best: Option<nat>)
    ensures best.None? <==> pool == []
    ensures best.Some? ==> FirstNearest(r, pool, best.value)
  {
    best := None;
    for c := 0 to |pool|
      invariant best.None? <==> c == 0
      invariant best.Some? ==> best.value < c && FirstNearest(r, pool[..c], best.value)
    {
      if best.None? || Distance(r, pool[c].at) < Distance(r, pool[best.value].at) {
        best := Some(c);
      }
    }
    assert pool[..|pool|] == pool;
  }

  method PlaceRect(r: Rect, others: seq<Rect>, prefer: Option<Side>) returns (p: Point)
    ensures PlacedBy(r, others, prefer, p)
    ensures Positive(r) && others != [] && (forall o :: o in others ==> Positive(o)) ==>
              Fits(At(r, p), others) && exists o :: o in others && Borders(At(r, p), o)
  {
    if others == [] {
      return Point(r.x, r.y);
    }
    var candidates := [];
    for i := 0 to |others|
      invariant candidates == Candidates(r, others[..i])
    {
      assert others[..i + 1][..i] == others[..i];
      candidates := candidates + Beside(r, others[i]);
    }
    assert others[..|others|] == others;
    var usable := UsableOf(r, others, candidates);
    if prefer.Some? {
      var preferred := OnSide(prefer.value, usable);
      if preferred != [] {
        usable := preferred;
      }
    }
    var best := Nearest(r, usable);
    if best.Some? {
      p := usable[best.value].at;
    } else {
      var right := others[0].x + others[0].width;
      for i := 1 to |others|
        invariant right == RightEdge(others[..i])
      {
        assert others[..i + 1][..i] == others[..i];
        right := Max(right, others[i].x + others[i].width);
      }
      assert others[..|others|] == others;
      p := Point(right, others[0].y);
    }
    if Positive(r) && forall o :: o in others ==> Positive(o) {
      PlacementFits(r, others, prefer, p);
    }
  }
}
