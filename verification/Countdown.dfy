/** Reminder countdowns (CountdownHelpers.js): what a label reads and exactly when
    it next reads differently. Times are milliseconds, as reals. */
module Countdown {
  import opened Decimal

  function Ceil(x: real): (c: int)
    ensures (c - 1) as real < x <= c as real
  {
    -((-x).Floor)
  }

  lemma CeilUnique(x: real, c: int)
    requires (c - 1) as real < x <= c as real
    ensures Ceil(x) == c
  {
  }

  datatype Label = Seconds(n: nat) | Minutes(n: nat) | Hours(h: nat, m: nat)

  function SecondsLeft(left: real): nat {
    var s := Ceil(left / 1000.0);
    if s < 0 then 0 else s
  }

  function MinuteLabel(minutes: nat): Label {
    if minutes < 60 then Minutes(minutes) else Hours(minutes / 60, minutes % 60)
  }

  function RemainingLabel(left: real): Label {
    var seconds := SecondsLeft(left);
    if seconds < 60 then Seconds(seconds) else MinuteLabel((seconds + 59) / 60)
  }

  function Text(l: Label): string {
    match l
    case Seconds(n) => Print(n) + "s"
    case Minutes(n) => Print(n) + "m"
    case Hours(h, m) => Print(h) + ("h " + Print(m) + "m")
  }

  /** The delay, in milliseconds, after which another label is due; 0 for none. */
  function NextChange(left: real): real {
    if left <= 0.0 then 0.0
    else
      var unit := if left > 60000.0 then 60000.0 else 1000.0;
      left - unit * (Ceil(left / unit) - 1) as real
  }

  // ---- labels as text -------------------------------------------------------------------

  lemma {:induction false} PrintInjective(a: nat, b: nat)
    requires Print(a) == Print(b)
    ensures a == b
  {
    PrintValue(a);
    PrintValue(b);
  }

  /** A run of digits ends at the first other character. */
  lemma {:induction false} DigitsEnd(a: string, b: string, s: string, t: string)
    requires AllDigits(a) && AllDigits(b) && s != "" && t != "" && !IsDigit(s[0]) && !IsDigit(t[0])
    requires a + s == b + t
    ensures a == b && s == t
  {
    var whole := a + s;
    assert whole[|a|] == s[0] && (b + t)[|b|] == t[0];
    assert a == whole[..|a|] && b == (b + t)[..|b|] && s == whole[|a|..] && t == (b + t)[|b|..];
  }

  /** Different labels read differently. */
  lemma {:induction false} TextInjective(a: Label, b: Label)
    requires Text(a) == Text(b)
    ensures a == b
  {
    hide Print, Value;
    var (x, s) := Parts(a);
    var (y, t) := Parts(b);
    DigitsEnd(Print(x), Print(y), s, t);
    PrintInjective(x, y);
    if a.Hours? && b.Hours? {
      assert s[2..] == Print(a.m) + "m" && t[2..] == Print(b.m) + "m";
      DigitsEnd(Print(a.m), Print(b.m), "m", "m");
      PrintInjective(a.m, b.m);
    } else {
      assert s[0] == t[0];
      assert a.Hours? <==> s[0] == 'h';
    }
  }

  function Parts(l: Label): (p: (nat, string))
    ensures Text(l) == Print(p.0) + p.1 && p.1 != "" && !IsDigit(p.1[0])
  {
    match l
    case Seconds(n) => (n, "s")
    case Minutes(n) => (n, "m")
    case Hours(h, m) => (h, "h " + Print(m) + "m")
  }

  // ---- exactness -----------------------------------------------------------------------------

  /** Rounding up to seconds and then to minutes is rounding up to minutes. */
  lemma {:induction false} MinutesOf(left: real)
    requires left > 0.0
    ensures (SecondsLeft(left) + 59) / 60 == Ceil(left / 60000.0)
  {
  }

  lemma {:induction false} LabelIs(left: real)
    requires left > 0.0
    ensures left <= 59000.0 ==> RemainingLabel(left) == Seconds(Ceil(left / 1000.0)) && 1 <= Ceil(left / 1000.0) <= 59
    ensures left > 59000.0 ==> RemainingLabel(left) == MinuteLabel(Ceil(left / 60000.0)) && Ceil(left / 60000.0) >= 1
    ensures left > 60000.0 ==> Ceil(left / 60000.0) >= 2
  {
    MinutesOf(left);
    var s := Ceil(left / 1000.0);
    assert s >= 1;
    assert left <= 59000.0 ==> s <= 59;
    assert left > 59000.0 ==> s >= 60;
  }

  /** What a label says, in milliseconds. */
  function Says(l: Label): int {
    match l
    case Seconds(n) => 1000 * n
    case Minutes(n) => 60000 * n
    case Hours(h, m) => 60000 * (60 * h + m)
  }

  /** The label says the time left, rounded up: to seconds in the final minute, to
      minutes before, with hours split off from the first full hour on. */
  lemma {:induction false} LabelMeans(left: real)
    ensures left <= 0.0 ==> RemainingLabel(left) == Seconds(0)
    ensures left > 0.0 ==>
              var l := RemainingLabel(left);
              var unit := if l.Seconds? then 1000 else 60000;
              && (Says(l) - unit) as real < left <= Says(l) as real
              && (l.Seconds? <==> left <= 59000.0)
              && (l.Hours? <==> left > 3540000.0)
              && (l.Hours? ==> l.h >= 1 && l.m < 60)
  {
    if left > 0.0 {
      LabelIs(left);
      var c := Ceil(left / 60000.0);
      if left > 59000.0 {
        assert (c - 1) as real * 60000.0 < left <= c as real * 60000.0;
        assert c < 60 <==> left <= 3540000.0;
      } else {
        var s := Ceil(left / 1000.0);
        assert (s - 1) as real * 1000.0 < left <= s as real * 1000.0;
      }
    }
  }

  /** The delay is positive and not longer than the time left. */
  lemma {:induction false} NextChangeRange(left: real)
    requires left > 0.0
    ensures 0.0 < NextChange(left) <= left
  {
  }

  /** Strictly before the delay the label reads the same, ... */
  lemma {:induction false} ConstantBefore(left: real, passed: real)
    requires left > 0.0 && 0.0 <= passed < NextChange(left)
    ensures RemainingLabel(left - passed) == RemainingLabel(left)
  {
    var later := left - passed;
    var unit := if left > 60000.0 then 60000.0 else 1000.0;
    var k := Ceil(left / unit);
    assert unit * (k - 1) as real < later <= left <= unit * k as real;
    CeilUnique(later / unit, k);
    LabelIs(left);
    if left > 60000.0 {
      assert k >= 2 && later > 60000.0;
      LabelIs(later);
    } else {
      assert SecondsLeft(later) == SecondsLeft(left);
    }
  }

  /** ... and at the delay it reads differently. */
  lemma {:induction false} ChangesAt(left: real)
    requires left > 0.0
    ensures RemainingLabel(left - NextChange(left)) != RemainingLabel(left)
  {
    var unit := if left > 60000.0 then 60000.0 else 1000.0;
    var k := Ceil(left / unit);
    var later := left - NextChange(left);
    assert later == unit * (k - 1) as real;
    CeilUnique(later / unit, k - 1);
    LabelIs(left);
    if left > 60000.0 {
      assert later >= 60000.0;
      LabelIs(later);
    } else if k == 1 {
      assert later == 0.0;
    } else {
      assert later <= 59000.0;
      LabelIs(later);
    }
  }

  // ---- several reminders ---------------------------------------------------------------------

  function LeftOf(due: real, now: real): real {
    due * 1000.0 - now
  }

  /** A reminder runs out at its due second, and a minute before that a minute is
      left. */
  lemma {:induction false} DueMeans(due: real)
    ensures LeftOf(due, due * 1000.0) == 0.0
    ensures RemainingLabel(LeftOf(due + 60.0, due * 1000.0)) == Minutes(1)
  {
    LabelIs(60000.0);
    CeilUnique(60000.0 / 60000.0, 1);
  }

  /** The soonest change over due times in seconds, 0 when none counts down. */
  method SoonestChange(dues: seq<real>, now: real) returns (wait: real)
    ensures wait == 0.0 <==> forall i :: 0 <= i < |dues| ==> LeftOf(dues[i], now) <= 0.0
    ensures wait >= 0.0
    ensures wait > 0.0 ==> exists i :: 0 <= i < |dues| && LeftOf(dues[i], now) > 0.0 && NextChange(LeftOf(dues[i], now)) == wait
    ensures forall i :: 0 <= i < |dues| && LeftOf(dues[i], now) > 0.0 ==> wait <= NextChange(LeftOf(dues[i], now))
  {
    hide NextChange;
    wait := 0.0;
    for n := 0 to |dues|
      invariant wait == 0.0 <==> forall i :: 0 <= i < n ==> LeftOf(dues[i], now) <= 0.0
      invariant wait >= 0.0
      invariant wait > 0.0 ==> exists i :: 0 <= i < n && LeftOf(dues[i], now) > 0.0 && NextChange(LeftOf(dues[i], now)) == wait
      invariant forall i :: 0 <= i < n && LeftOf(dues[i], now) > 0.0 ==> wait <= NextChange(LeftOf(dues[i], now))
    {
      var left := LeftOf(dues[n], now);
      NextChangeSign(left);
      var next := NextChange(left);
      if next > 0.0 && (wait == 0.0 || next < wait) {
        wait := next;
      }
    }
  }

  lemma {:induction false} NextChangeSign(left: real)
    ensures NextChange(left) > 0.0 <==> left > 0.0
    ensures NextChange(left) >= 0.0
  {
  }

  lemma {:induction false} ExpiredIsConstant(left: real, passed: real)
    requires left <= 0.0 && passed >= 0.0
    ensures RemainingLabel(left - passed) == RemainingLabel(left) == Seconds(0)
  {
  }

  /** No label changes before the answer, and at it one does: the answer is the
      first instant any label on screen reads differently. */
  lemma {:induction false} FirstInstant(dues: seq<real>, now: real, wait: real, i: nat, passed: real)
    requires i < |dues| && 0.0 <= passed
    requires forall k :: 0 <= k < |dues| && LeftOf(dues[k], now) > 0.0 ==> wait <= NextChange(LeftOf(dues[k], now))
    requires passed < wait || wait == 0.0
    requires wait == 0.0 ==> forall k :: 0 <= k < |dues| ==> LeftOf(dues[k], now) <= 0.0
    ensures RemainingLabel(LeftOf(dues[i], now + passed)) == RemainingLabel(LeftOf(dues[i], now))
  {
    hide NextChange, RemainingLabel;
    var left := LeftOf(dues[i], now);
    assert LeftOf(dues[i], now + passed) == left - passed;
    if left > 0.0 {
      ConstantBefore(left, passed);
    } else {
      ExpiredIsConstant(left, passed);
    }
  }

  lemma {:induction false} SomeLabelChanges(dues: seq<real>, now: real, wait: real, i: nat)
    requires i < |dues| && LeftOf(dues[i], now) > 0.0 && NextChange(LeftOf(dues[i], now)) == wait
    ensures Text(RemainingLabel(LeftOf(dues[i], now + wait))) != Text(RemainingLabel(LeftOf(dues[i], now)))
  {
    hide NextChange, RemainingLabel, Text;
    var left := LeftOf(dues[i], now);
    assert LeftOf(dues[i], now + wait) == left - wait;
    ChangesAt(left);
    if Text(RemainingLabel(left - wait)) == Text(RemainingLabel(left)) {
      TextInjective(RemainingLabel(left - wait), RemainingLabel(left));
    }
  }
}
