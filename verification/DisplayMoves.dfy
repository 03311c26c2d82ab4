/** Moving one display of a layout (`moveDisplay`, `nudge`) and the checks of
    `validate` in DisplayHelpers.js. */
module DisplayMoves {
  import opened Common
  import opened Display
  import opened Arrangement

  function FirstDraft(ds: seq<Draft>, key: Key): (i: Option<nat>)
    ensures i.Some? ==> i.value < |ds| && ds[i.value].key == key && forall k :: 0 <= k < i.value ==> ds[k].key != key
    ensures i.None? ==> forall d :: d in ds ==> d.key != key
  {
    if ds == [] then None
    else if ds[0].key == key then Some(0)
    else
      match FirstDraft(ds[1..], key)
      case None => None
      case Some(k) =>
        assert forall n :: 0 < n <= k ==> ds[n] == ds[1..][n - 1];
        Some(k + 1)
  }

  function Others(rs: seq<Rect>, key: Key): seq<Rect> {
    if rs == [] then [] else
      var last := rs[|rs| - 1];
      Others(rs[..|rs| - 1], key) + (if last.key != key then [last] else [])
  }

  lemma {:induction false} OthersMember(rs: seq<Rect>, key: Key)
    ensures forall r :: r in Others(rs, key) <==> r in rs && r.key != key
    decreases |rs|
  {
    if rs != [] {
      var init, last := rs[..|rs| - 1], rs[|rs| - 1];
      OthersMember(init, key);
      assert rs == init + [last];
    }
  }

  lemma {:induction false} OthersShift(rs: seq<Rect>, key: Key, dx: int, dy: int)
    ensures Others(ShiftAll(rs, dx, dy), key) == ShiftAll(Others(rs, key), dx, dy)
    decreases |rs|
  {
    if rs != [] {
      var n := |rs| - 1;
      OthersShift(rs[..n], key, dx, dy);
      assert ShiftAll(rs, dx, dy)[..n] == ShiftAll(rs[..n], dx, dy);
    }
  }

  lemma {:induction false} OthersOfLast(ds: seq<Draft>, key: Key)
    requires ds != []
    ensures var last := ds[|ds| - 1];
            Others(Rects(ds), key)
            == Others(Rects(ds[..|ds| - 1]), key) + (if Placed(last) && last.key != key then [RectOf(last)] else [])
  {
    var rs, last := Rects(ds[..|ds| - 1]), ds[|ds| - 1];
    if Placed(last) {
      assert (rs + [RectOf(last)])[..|rs|] == rs;
    } else {
      assert rs + [] == rs;
    }
  }

  /** Moving one display moves no other. */
  lemma {:induction false} OthersUnmoved(ds: seq<Draft>, i: nat, d: Draft)
    requires i < |ds| && d.key == ds[i].key
    ensures Others(Rects(ds[i := d]), d.key) == Others(Rects(ds), d.key)
    decreases |ds|
  {
    hide Others;
    var n := |ds| - 1;
    var out := ds[i := d];
    OthersOfLast(ds, d.key);
    OthersOfLast(out, d.key);
    if i < n {
      OthersUnmoved(ds[..n], i, d);
      assert out[..n] == ds[..n][i := d] && out[n] == ds[n];
    } else {
      assert out[..n] == ds[..n];
    }
  }

  function PutAt(ds: seq<Draft>, i: nat, p: Point): (out: seq<Draft>)
    requires i < |ds|
    ensures |out| == |ds|
  {
    ds[i := ds[i].(x := p.x, y := p.y)]
  }

  /** The moved display shares an edge with the rest and covers none of it, and
      the rest moved by one common offset. */
  ghost predicate Attaches(ds: seq<Draft>, i: nat, p: Point, next: seq<Draft>)
    requires i < |ds| == |next|
  {
    var key := ds[i].key;
    && Fits(RectOf(next[i]), Others(Rects(next), key))
    && CornerAtOrigin(Rects(next))
    && exists dx, dy ::
         && RectOf(next[i]) == Shift(At(RectOf(ds[i]), p), dx, dy)
         && Others(Rects(next), key) == ShiftAll(Others(Rects(ds), key), dx, dy)
  }

  lemma {:induction false} FitsShift(r: Rect, others: seq<Rect>, dx: int, dy: int)
    requires Fits(r, others)
    ensures Fits(Shift(r, dx, dy), ShiftAll(others, dx, dy))
  {
    var moved := ShiftAll(others, dx, dy);
    var o :| o in others && Touches(r, o);
    var i :| 0 <= i < |others| && others[i] == o;
    assert moved[i] in moved && Touches(Shift(r, dx, dy), moved[i]);
    forall q | q in moved
      ensures !Overlaps(Shift(r, dx, dy), q)
    {
      var k :| 0 <= k < |moved| && moved[k] == q;
      assert others[k] in others;
    }
  }

  lemma {:induction false} NormalizedOthers(ds: seq<Draft>, i: nat, p: Point) returns (dx: int, dy: int)
    requires i < |ds| && Placed(ds[i])
    ensures var next := Normalize(PutAt(ds, i, p));
            && RectOf(next[i]) == Shift(At(RectOf(ds[i]), p), dx, dy)
            && Others(Rects(next), ds[i].key) == ShiftAll(Others(Rects(ds), ds[i].key), dx, dy)
            && CornerAtOrigin(Rects(next))
  {
    hide Normalize, Others, CornerAtOrigin, MinX, MinY;
    var mid := PutAt(ds, i, p);
    assert Placed(mid[i]);
    RectsMember(mid, RectOf(mid[i]));
    var rs := Rects(mid);
    dx, dy := -MinX(rs), -MinY(rs);
    NormalizedDraft(mid, i);
    NormalizedKey(mid, ds[i].key);
    OthersUnmoved(ds, i, mid[i]);
  }

  lemma {:induction false} NormalizedDraft(mid: seq<Draft>, i: nat)
    requires i < |mid| && Placed(mid[i]) && Rects(mid) != []
    ensures RectOf(Normalize(mid)[i]) == Shift(RectOf(mid[i]), -MinX(Rects(mid)), -MinY(Rects(mid)))
  {
  }

  lemma {:induction false} NormalizedKey(mid: seq<Draft>, key: Key)
    requires Rects(mid) != []
    ensures Others(Rects(Normalize(mid)), key) == ShiftAll(Others(Rects(mid), key), -MinX(Rects(mid)), -MinY(Rects(mid)))
    ensures CornerAtOrigin(Rects(Normalize(mid)))
  {
    NormalizeShifts(mid);
    OthersShift(Rects(mid), key, -MinX(Rects(mid)), -MinY(Rects(mid)));
  }

  lemma {:induction false} PutAtAttaches(ds: seq<Draft>, i: nat, p: Point)
    requires i < |ds| && Placed(ds[i])
    requires Fits(At(RectOf(ds[i]), p), Others(Rects(ds), ds[i].key))
    ensures Attaches(ds, i, p, Normalize(PutAt(ds, i, p)))
  {
    var dx, dy := NormalizedOthers(ds, i, p);
    FitsShift(At(RectOf(ds[i]), p), Others(Rects(ds), ds[i].key), dx, dy);
  }

  /** Puts a display at the place nearest to (x, y) that fits; the other displays
      keep their positions relative to each other. */
  method MoveDisplay(drafts: seq<Draft>, key: Key, x: int, y: int, prefer: Option<Side>) returns (next: seq<Draft>, ghost p: Point)
    ensures |next| == |drafts|
    ensures var i := FirstDraft(drafts, key);
            if i.None? || !Placed(drafts[i.value]) then next == drafts
            else
              && PlacedBy(At(RectOf(drafts[i.value]), Point(x, y)), Others(Rects(drafts), key), prefer, p)
              && next == Normalize(PutAt(drafts, i.value, p))
              && (AllPositive(Rects(drafts)) && Others(Rects(drafts), key) != [] ==>
                    Attaches(drafts, i.value, p, next))
  {
    p := Point(x, y);
    var found := FirstDraft(drafts, key);
    if found.None? || !Placed(drafts[found.value]) {
      return drafts, p;
    }
    var i := found.value;
    var others := Others(Rects(drafts), key);
    var target := At(RectOf(drafts[i]), Point(x, y));
    var position := PlaceRect(target, others, prefer);
    p := position;
    next := Normalize(PutAt(drafts, i, position));
    if AllPositive(Rects(drafts)) && others != [] {
      OthersMember(Rects(drafts), key);
      RectsMember(drafts, RectOf(drafts[i]));
      assert Positive(RectOf(drafts[i]));
      assert At(target, p) == At(RectOf(drafts[i]), p);
      PutAtAttaches(drafts, i, p);
    }
  }

  // ---- nudging ----------------------------------------------------------------

  /** The first of the displays that none passes on that side. */
  ghost predicate FirstOutermost(others: seq<Rect>, side: Side, e: int) {
    && 0 <= e < |others|
    && (forall i :: 0 <= i < |others| ==> !Beyond(side, others[i], others[e]))
    && (forall i :: 0 <= i < e ==> Beyond(side, others[e], others[i]))
  }

  /** Where `nudge` aims: top-aligned beside the edge display, or centred above
      or below it. */
  function Target(self: Rect, edge: Rect, side: Side): Point {
    match side
    case Left => Point(edge.x - self.width, edge.y)
    case Right => Point(edge.x + edge.width, edge.y)
    case Up => Point(edge.x + (edge.width - self.width + 1) / 2, edge.y - self.height)
    case Down => Point(edge.x + (edge.width - self.width + 1) / 2, edge.y + edge.height)
  }

  method EdgeDisplay(others: seq<Rect>, side: Side) returns (e: nat)
    requires others != []
    ensures FirstOutermost(others, side, e)
  {
    e := 0;
    for i := 1 to |others|
      invariant FirstOutermost(others[..i], side, e)
    {
      if Beyond(side, others[i], others[e]) {
        e := i;
      }
    }
    assert others[..|others|] == others;
  }

  /** Left and right targets are candidates as they stand, at distance zero. */
  lemma {:induction false} FlushIsCandidate(self: Rect, others: seq<Rect>, side: Side, e: nat)
    requires Positive(self) && AllPositive(others) && (side == Left || side == Right)
    requires FirstOutermost(others, side, e)
    ensures var r := At(self, Target(self, others[e], side));
            Candidate(side, Point(r.x, r.y)) in Candidates(r, others) && Fits(r, others)
  {
    var edge := others[e];
    var r := At(self, Target(self, edge, side));
    var c := Beside(r, edge)[SideIndex(side)];
    assert c == Candidate(side, Point(r.x, r.y));
    OutermostFits(r, others, side, edge);
    assert At(r, c.at) == r;
    CandidateMember(r, others, edge, c);
  }

  method Nudge(drafts: seq<Draft>, key: Key, side: Side) returns (next: seq<Draft>)
    ensures |next| == |drafts|
    ensures (Lookup(Rects(drafts), key).None? || Others(Rects(drafts), key) == []) ==> next == drafts
    ensures UniqueKeys(drafts) && AllPositive(Rects(drafts))
            && Lookup(Rects(drafts), key).Some? && Others(Rects(drafts), key) != [] ==>
              Nudged(drafts, key, side, next)
  {
    hide Attaches, PlacedBy, Nudged, Candidates, Normalize, PutAt, Others, Rects;
    var all := Rects(drafts);
    var others := Others(all, key);
    var found := Lookup(all, key);
    if found.None? || others == [] {
      return drafts;
    }
    var self := found.value;
    var e := EdgeDisplay(others, side);
    var t := Target(self, others[e], side);
    ghost var p;
    next, p := MoveDisplay(drafts, key, t.x, t.y, Some(side));
    if UniqueKeys(drafts) && AllPositive(all) {
      SelfDraft(drafts, key);
      NudgedWell(drafts, key, side, e, p, next);
    }
  }

  lemma {:induction false} NudgedWell(drafts: seq<Draft>, key: Key, side: Side, e: nat, p: Point, next: seq<Draft>)
    requires UniqueKeys(drafts) && AllPositive(Rects(drafts)) && Lookup(Rects(drafts), key).Some? && |next| == |drafts|
    requires var others := Others(Rects(drafts), key);
             && others != [] && FirstOutermost(others, side, e)
             && FirstDraft(drafts, key).Some?
             && var i := FirstDraft(drafts, key).value;
                var t := Target(Lookup(Rects(drafts), key).value, others[e], side);
                && Placed(drafts[i]) ==>
                     && PlacedBy(At(RectOf(drafts[i]), t), others, Some(side), p)
                     && next == Normalize(PutAt(drafts, i, p)) && Attaches(drafts, i, p, next)
    ensures Nudged(drafts, key, side, next)
  {
    hide Attaches, PlacedBy, Candidates, Normalize, PutAt, Others, Rects, Target, Flush, Aims, FirstOutermost;
    var others := Others(Rects(drafts), key);
    SelfDraft(drafts, key);
    var i := FirstDraft(drafts, key).value;
    var self := RectOf(drafts[i]);
    assert 0 <= e < |others| by { OutermostWithin(others, side, e); }
    var t := Target(self, others[e], side);
    OthersMember(Rects(drafts), key);
    if side == Left || side == Right {
      FlushIsCandidate(self, others, side, e);
      ZeroDistanceWins(At(self, t), others, side, p);
    }
    LandsOnSide(At(self, t), others, side, p);
    assert At(At(self, t), p) == At(self, p);
    CentredTarget(self, others[e], side);
  }

  lemma OutermostWithin(others: seq<Rect>, side: Side, e: int)
    requires FirstOutermost(others, side, e)
    ensures 0 <= e < |others|
  {
  }

  /** The target lies on that side of the edge display: top-aligned beside it, or
      above or below it with the centres in line, to the pixel. */
  predicate Aims(self: Rect, edge: Rect, side: Side, t: Point) {
    match side
    case Left => t.x + self.width == edge.x && t.y == edge.y
    case Right => t.x == edge.x + edge.width && t.y == edge.y
    case Up => t.y + self.height == edge.y && 0 <= 2 * t.x + self.width - (2 * edge.x + edge.width) <= 1
    case Down => t.y == edge.y + edge.height && 0 <= 2 * t.x + self.width - (2 * edge.x + edge.width) <= 1
  }

  lemma {:induction false} CentredTarget(self: Rect, edge: Rect, side: Side)
    ensures Aims(self, edge, side, Target(self, edge, side))
  {
  }

  lemma {:induction false} LandsOnSide(r: Rect, others: seq<Rect>, side: Side, p: Point)
    requires Positive(r) && others != [] && AllPositive(others) && PlacedBy(r, others, Some(side), p)
    ensures exists o :: o in others && Flush(At(r, p), o, side)
  {
    hide Candidates, Flush, PlacedBy, Borders;
    PlacementFits(r, others, Some(side), p);
    var o := CandidateFlush(r, others, Candidate(side, p));
  }

  /** The display lands edge to edge with another one, on that side of it, as near
      as possible to the place aimed at: beside or in line with the outermost
      display. Sideways it lands exactly there. */
  ghost predicate Nudged(drafts: seq<Draft>, key: Key, side: Side, next: seq<Draft>)
    requires |next| == |drafts|
  {
    var others := Others(Rects(drafts), key);
    var found := FirstDraft(drafts, key);
    && found.Some?
    && var i := found.value;
       exists p ::
         && next == Normalize(PutAt(drafts, i, p)) && Attaches(drafts, i, p, next)
         && (exists o :: o in others && Flush(At(RectOf(drafts[i]), p), o, side))
         && exists e, t ::
              && FirstOutermost(others, side, e) && Aims(RectOf(drafts[i]), others[e], side, t)
              && PlacedBy(At(RectOf(drafts[i]), t), others, Some(side), p)
              && (side == Left || side == Right ==> p == t)
  }

  lemma {:induction false} SelfDraft(drafts: seq<Draft>, key: Key)
    requires UniqueKeys(drafts) && Lookup(Rects(drafts), key).Some?
    ensures var i := FirstDraft(drafts, key);
            i.Some? && Placed(drafts[i.value]) && RectOf(drafts[i.value]) == Lookup(Rects(drafts), key).value
  {
    var self := Lookup(Rects(drafts), key).value;
    RectsMember(drafts, self);
    var k :| 0 <= k < |drafts| && Placed(drafts[k]) && RectOf(drafts[k]) == self;
    assert drafts[k] in drafts;
  }

  // ---- validation ---------------------------------------------------------------

  datatype Verdict = Valid | NoDisplays | AllOff | MirrorMissing | MirrorsItself | MirrorOff | MirrorOfMirror
                   | NothingShown | Overlapping

  /** The display that a mirror shows: the first one with that key. */
  ghost predicate ShownBy(drafts: seq<Draft>, d: Draft, i: nat) {
    && d.enabled && d.mirror.Some? && i < |drafts| && drafts[i].key == d.mirror.value
    && forall k :: 0 <= k < i ==> drafts[k].key != d.mirror.value
  }

  /** A mirror is sound if what it shows is another display, switched on, that is
      not a mirror itself. */
  ghost predicate SoundMirror(drafts: seq<Draft>, d: Draft) {
    d.enabled && d.mirror.Some? ==>
      exists i: nat :: ShownBy(drafts, d, i) && drafts[i].key != d.key && drafts[i].enabled && drafts[i].mirror.None?
  }

  /** What is wrong with a mirror that is not sound. */
  ghost predicate Complains(drafts: seq<Draft>, d: Draft, v: Verdict) {
    match v
    case MirrorMissing => d.mirror.Some? && forall i :: 0 <= i < |drafts| ==> drafts[i].key != d.mirror.value
    case MirrorsItself => d.mirror == Some(d.key)
    case MirrorOff => exists i: nat :: ShownBy(drafts, d, i) && drafts[i].key != d.key && !drafts[i].enabled
    case MirrorOfMirror => exists i: nat :: ShownBy(drafts, d, i) && drafts[i].key != d.key && drafts[i].enabled && drafts[i].mirror.Some?
    case _ => false
  }

  lemma {:induction false} MirrorJudged(drafts: seq<Draft>, d: Draft)
    requires d in drafts
    ensures MirrorVerdict(drafts, d) == Valid <==> SoundMirror(drafts, d)
    ensures MirrorVerdict(drafts, d) != Valid ==> Complains(drafts, d, MirrorVerdict(drafts, d))
  {
    if d.enabled && d.mirror.Some? {
      var source := FirstDraft(drafts, d.mirror.value);
      if source.Some? {
        assert ShownBy(drafts, d, source.value);
        forall i: nat | ShownBy(drafts, d, i)
          ensures i == source.value
        {
        }
      }
    }
  }

  function MirrorVerdict(drafts: seq<Draft>, d: Draft): Verdict {
    if !d.enabled || d.mirror.None? then Valid
    else
      var source := FirstDraft(drafts, d.mirror.value);
      if source.None? then MirrorMissing
      else if drafts[source.value].key == d.key then MirrorsItself
      else if !drafts[source.value].enabled then MirrorOff
      else if drafts[source.value].mirror.Some? then MirrorOfMirror
      else Valid
  }

  /** Everything `validate` checks before it looks at the arrangement. */
  ghost predicate Showable(drafts: seq<Draft>) {
    && (exists d :: d in drafts && d.enabled)
    && (forall d :: d in drafts ==> SoundMirror(drafts, d))
    && (exists d :: d in drafts && Placed(d))
  }

  lemma {:induction false} SomethingPlaced(drafts: seq<Draft>)
    ensures Rects(drafts) != [] <==> exists d :: d in drafts && Placed(d)
  {
    if Rects(drafts) != [] {
      RectsMember(drafts, Rects(drafts)[0]);
    } else {
      forall d | d in drafts
        ensures !Placed(d)
      {
        if Placed(d) {
          RectsMember(drafts, RectOf(d));
        }
      }
    }
  }

  lemma MirrorComplaint(drafts: seq<Draft>, d: Draft)
    ensures MirrorVerdict(drafts, d) in {Valid, MirrorMissing, MirrorsItself, MirrorOff, MirrorOfMirror}
  {
  }

  method Validate(drafts: seq<Draft>) returns (v: Verdict)
    ensures v == Valid <==> Showable(drafts) && Apart(Rects(drafts))
    ensures v == Overlapping <==> Showable(drafts) && !Apart(Rects(drafts))
    ensures v == NoDisplays <==> drafts == []
    ensures v == AllOff <==> drafts != [] && forall d :: d in drafts ==> !d.enabled
    ensures v == NothingShown <==>
              && (exists d :: d in drafts && d.enabled) && (forall d :: d in drafts ==> SoundMirror(drafts, d))
              && forall d :: d in drafts ==> !Placed(d)
    ensures v in {MirrorMissing, MirrorsItself, MirrorOff, MirrorOfMirror} ==>
              exists i :: 0 <= i < |drafts| && Complains(drafts, drafts[i], v) && forall k :: 0 <= k < i ==> SoundMirror(drafts, drafts[k])
  {
    hide SoundMirror, Complains, MirrorVerdict;
    if drafts == [] {
      return NoDisplays;
    }
    if !(exists d :: d in drafts && d.enabled) {
      return AllOff;
    }
    for i := 0 to |drafts|
      invariant forall k :: 0 <= k < i ==> SoundMirror(drafts, drafts[k])
    {
      var problem := MirrorVerdict(drafts, drafts[i]);
      MirrorJudged(drafts, drafts[i]);
      MirrorComplaint(drafts, drafts[i]);
      if problem != Valid {
        return problem;
      }
    }
    var list := Rects(drafts);
    SomethingPlaced(drafts);
    if list == [] {
      return NothingShown;
    }
    assert Showable(drafts);
    for a := 0 to |list|
      invariant forall i, j :: 0 <= i < a && i < j < |list| ==> !Overlaps(list[i], list[j])
    {
      for b := a + 1 to |list|
        invariant forall j :: a < j < b ==> !Overlaps(list[a], list[j])
      {
        if Overlaps(list[a], list[b]) {
          return Overlapping;
        }
      }
    }
    return Valid;
  }
}
