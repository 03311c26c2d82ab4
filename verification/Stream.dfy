/** The event-stream reader of hermes_bridge.py: the line parser and dispatcher of
    `_consume_remote_sse` and the event handlers that touch the transcript, over
    one connection. The wire format is section 9.2.6 of the WHATWG HTML
    standard. */
module Stream {
  import opened Common

  const MAX_SSE_EVENT: nat := 4 * 1024 * 1024
  const MAX_STREAM_TEXT: nat := 4 * 1024 * 1024

  /** The fields of a decoded JSON object that the handlers read; "" stands for
      a missing one. */
  datatype Data = Data(text: string, token: string, content: string, alreadyStreamed: bool)

  datatype Event = Event(name: string, data: seq<string>, id: string)

  /** `json.loads`, or None where it raises. */
  type Decoder = string -> Option<Data>

  /** What the reader depends on: the decoder, and in whose handler saving the
      conversation fails. An event with an id is handled at most once, so a
      function of the event covers every way the saves can go. */
  datatype World = World(decode: Decoder, breaks: Event -> bool)

  /** What one attached reader keeps: its cursor, the accumulated text, whether
      the turn-completion fence was crossed, and the text of each completion it
      published. */
  datatype Reader = Reader(cursor: string, text: string, completed: bool, published: seq<string>)

  // ---- event catalogue -----------------------------------------------------

  datatype Kind = Token | Interim | Done | Cancel | Failure | StreamEnd | Other

  function Lower(c: char): char {
    if 'A' <= c <= 'Z' then c - 'A' + 'a' else c
  }

  function Fold(s: string): string {
    if s == "" then "" else [if s[0] == '-' then '_' else Lower(s[0])] + Fold(s[1..])
  }

  function Strip(s: string): string {
    if s == "" then ""
    else if IsSpace(s[0]) then Strip(s[1..])
    else if IsSpace(s[|s| - 1]) then Strip(s[..|s| - 1])
    else s
  }

  function Named(event: string): Kind {
    if event == "token" || event == "text" || event == "assistant_delta" then Token
    else if event == "interim_assistant" then Interim
    else if event == "done" then Done
    else if event == "cancel" || event == "cancelled" then Cancel
    else if event == "apperror" || event == "error" then Failure
    else if event == "stream_end" then StreamEnd
    else Other
  }

  function KindOf(name: string): Kind {
    Named(Fold(Strip(name)))
  }

  /** Letters in either case, and the dash for the underscore. */
  predicate SameLetter(a: char, b: char) {
    || a == b
    || ('a' <= a <= 'z' && (b as int) + 32 == a as int) || ('a' <= b <= 'z' && (a as int) + 32 == b as int)
    || (a == '-' && b == '_') || (a == '_' && b == '-')
  }

  /** Event names count in any case and with dashes. */
  lemma {:induction false} FoldsAlike(a: string, b: string)
    requires |a| == |b| && forall i :: 0 <= i < |a| ==> SameLetter(a[i], b[i])
    ensures Fold(a) == Fold(b)
    decreases |a|
  {
    if a != "" {
      assert SameLetter(a[0], b[0]);
      FoldsAlike(a[1..], b[1..]);
    }
  }

  /** White space around a name does not count. */
  lemma {:induction false} StripsAround(before: string, name: string, after: string)
    requires forall c :: c in before + after ==> IsSpace(c)
    requires name != "" && !IsSpace(name[0]) && !IsSpace(name[|name| - 1])
    ensures Strip(before + name + after) == name
    decreases |before| + |after|
  {
    var s := before + name + after;
    if before != "" {
      assert s[0] == before[0] && s[1..] == before[1..] + name + after;
      StripsAround(before[1..], name, after);
    } else if after != "" {
      assert s[0] == name[0] && s[|s| - 1] == after[|after| - 1] && s[..|s| - 1] == before + name + after[..|after| - 1];
      StripsAround(before, name, after[..|after| - 1]);
    } else {
      assert s == name;
    }
  }

  /** So a name and its spelling variants are one kind of event. */
  lemma {:induction false} KindOfVariant(before: string, name: string, after: string, plain: string)
    requires forall c :: c in before + after ==> IsSpace(c)
    requires name != "" && !IsSpace(name[0]) && !IsSpace(name[|name| - 1])
    requires plain != "" && !IsSpace(plain[0]) && !IsSpace(plain[|plain| - 1])
    requires |name| == |plain| && forall i :: 0 <= i < |name| ==> SameLetter(name[i], plain[i])
    ensures KindOf(before + name + after) == KindOf(plain)
  {
    StripsAround(before, name, after);
    StripsAround("", plain, "");
    assert "" + plain + "" == plain;
    FoldsAlike(name, plain);
  }

  function Join(lines: seq<string>): string {
    if lines == [] then "" else if |lines| == 1 then lines[0] else lines[0] + "\n" + Join(lines[1..])
  }

  /** Joined data lines can be told apart again: no line break is lost or added. */
  lemma {:induction false} JoinInjective(a: seq<string>, b: seq<string>)
    requires a != [] && b != [] && Join(a) == Join(b)
    requires (forall l :: l in a ==> '\n' !in l) && (forall l :: l in b ==> '\n' !in l)
    ensures a == b
    decreases |a| + |b|
  {
    var x, y := a[0], b[0];
    assert x in a && y in b;
    if |a| > 1 && |b| > 1 {
      var s, t := Join(a[1..]), Join(b[1..]);
      FirstBreak(x, s, y, t);
      assert x + "\n" + s == x + ("\n" + s) && y + "\n" + t == y + ("\n" + t);
      JoinInjective(a[1..], b[1..]);
      assert a == [x] + a[1..] && b == [y] + b[1..];
    } else {
      JoinBreaks(a);
      JoinBreaks(b);
    }
  }

  lemma {:induction false} JoinBreaks(a: seq<string>)
    ensures |a| > 1 ==> '\n' in Join(a)
  {
    if |a| > 1 {
      assert (a[0] + "\n" + Join(a[1..]))[|a[0]|] == '\n';
    }
  }

  lemma {:induction false} FirstBreak(x: string, s: string, y: string, t: string)
    requires '\n' !in x && '\n' !in y && x + "\n" + s == y + "\n" + t
    ensures x == y && s == t
  {
    var l, r := x + "\n" + s, y + "\n" + t;
    assert l[|x|] == '\n' && r[|y|] == '\n';
    assert forall k :: 0 <= k < |x| ==> l[k] == x[k];
    assert forall k :: 0 <= k < |y| ==> r[k] == y[k];
    assert |x| == |y|;
    assert x == l[..|x|] && y == r[..|y|] && s == l[|x| + 1..] && t == r[|y| + 1..];
  }

  /** The text an event adds to the transcript. */
  function Chunk(kind: Kind, d: Data): string {
    match kind
    case Token => if d.text != "" then d.text else d.token
    case Interim => if d.alreadyStreamed then "" else if d.text != "" then d.text else d.content
    case _ => ""
  }

  function Capped(s: string): string {
    if |s| <= MAX_STREAM_TEXT then s else s[..MAX_STREAM_TEXT]
  }

  /** As much of the chunk as the cap leaves room for. */
  function Fitting(text: string, chunk: string): string {
    var remaining := if |text| < MAX_STREAM_TEXT then MAX_STREAM_TEXT - |text| else 0;
    if |chunk| <= remaining then chunk else chunk[..remaining]
  }

  predicate Ends(kind: Kind) {
    kind == Cancel || kind == Failure || kind == StreamEnd
  }

  /** The handler saves the conversation, after it published and before it sets
      the fence or reports the end. */
  predicate Saves(kind: Kind, r: Reader) {
    match kind
    case Token => false
    case Interim => false
    case Done => !r.completed
    case StreamEnd => !r.completed
    case _ => true
  }

  /** What handling an event does: the text it adds, whether it publishes a
      completion, and whether it crosses the fence. */
  datatype Effect = Effect(added: string, publishes: bool, fences: bool)

  const NOTHING := Effect("", false, false)

  function EffectOf(kind: Kind, d: Data, broken: bool, r: Reader): Effect {
    match kind
    case Token => Effect(Fitting(r.text, Chunk(kind, d)), false, false)
    case Interim => Effect(Fitting(r.text, Chunk(kind, d)), false, false)
    case Done => Effect("", !r.completed, !r.completed && !broken)
    case Cancel => Effect("", true, false)
    case Failure => Effect("", true, false)
    case StreamEnd => Effect("", !r.completed, false)
    case Other => NOTHING
  }

  function Apply(x: Effect, r: Reader): Reader {
    r.(text := r.text + x.added, completed := r.completed || x.fences,
       published := if x.publishes then r.published + [r.text] else r.published)
  }

  /** The outcome of one dispatch: the new state, whether the stream is over,
      whether an event was seen, and whether it raised a fault. */
  datatype Outcome = Outcome(reader: Reader, terminal: bool, saw: bool, fault: bool)

  predicate Broken(w: World, e: Event, r: Reader) {
    w.breaks(e) && Saves(KindOf(e.name), r)
  }

  /** The event does not raise before anything changed. */
  predicate Readable(w: World, e: Event) {
    e.data == [] || w.decode(Join(e.data)).Some?
  }

  function Effects(w: World, e: Event, r: Reader): Effect
    requires Readable(w, e)
  {
    if e.data == [] then NOTHING
    else EffectOf(KindOf(e.name), w.decode(Join(e.data)).value, Broken(w, e, r), r)
  }

  predicate Closes(w: World, e: Event, r: Reader) {
    e.data != [] && Ends(KindOf(e.name)) && !Broken(w, e, r)
  }

  function Dispatch(w: World, e: Event, r: Reader): Outcome {
    if !Readable(w, e) then Outcome(r, false, false, true)
    else
      var moved := if e.id != "" then r.(cursor := e.id) else r;
      Outcome(Apply(Effects(w, e, r), moved), Closes(w, e, r), e.data != [], e.data != [] && Broken(w, e, r))
  }

  // ---- the line parser -------------------------------------------------------

  datatype Pending = Pending(event: Event, size: nat)
  const FRESH := Pending(Event("message", [], ""), 0)

  datatype Fed = Blank | TooLarge | More(p: Pending)

  function RStrip(raw: string): string {
    if raw != "" && (raw[|raw| - 1] == '\r' || raw[|raw| - 1] == '\n') then RStrip(raw[..|raw| - 1]) else raw
  }

  /** The index of the first colon, or the length when there is none. */
  function Colon(line: string): (i: nat)
    ensures i <= |line| && (i < |line| ==> line[i] == ':')
    ensures forall k :: 0 <= k < i ==> line[k] != ':'
  {
    if line == "" || line[0] == ':' then 0 else 1 + Colon(line[1..])
  }

  function FieldValue(line: string): string {
    var c := Colon(line);
    if c == |line| then ""
    else if c + 1 < |line| && line[c + 1] == ' ' then line[c + 2..]
    else line[c + 1..]
  }

  function Prefix(s: string, n: nat): string {
    if |s| <= n then s else s[..n]
  }

  function FeedLine(p: Pending, raw: string): Fed {
    if |raw| > MAX_SSE_EVENT then TooLarge
    else
      var line := RStrip(raw);
      if line == "" then Blank
      else if line[0] == ':' then More(p)
      else
        var field := line[..Colon(line)];
        var value := FieldValue(line);
        if field == "event" then
          More(p.(event := p.event.(name := if value == "" then "message" else Prefix(value, 256))))
        else if field == "data" then
          if p.size + |raw| > MAX_SSE_EVENT then TooLarge
          else More(Pending(p.event.(data := p.event.data + [value]), p.size + |raw|))
        else if field == "id" && '\0' !in value then
          More(p.(event := p.event.(id := Prefix(value, 1024))))
        else More(p)
  }

  datatype Ending = Eof | TransportError

  /** What reading these lines and then the ending does, from a given parser and
      reader state. At a clean end a pending block is dispatched. */
  function ReadLines(w: World, lines: seq<string>, ending: Ending, p: Pending, r: Reader, saw: bool): Outcome
    decreases |lines|
  {
    if lines == [] then
      if ending == TransportError then Outcome(r, false, saw, true)
      else
        var out := Dispatch(w, p.event, r);
        out.(saw := saw || out.saw)
    else
      match FeedLine(p, lines[0])
      case TooLarge => Outcome(r, false, saw, true)
      case More(next) => ReadLines(w, lines[1..], ending, next, r, saw)
      case Blank =>
        var out := Dispatch(w, p.event, r);
        if out.fault || out.terminal then out.(saw := saw || out.saw)
        else ReadLines(w, lines[1..], ending, FRESH, out.reader, saw || out.saw)
  }

  // ---- frames and journals -----------------------------------------------------

  /** The lines of one event block, and the blank line that closes it. */
  datatype Frame = Frame(lines: seq<string>, blank: string)

  ghost predicate IsBlock(lines: seq<string>) {
    forall i :: 0 <= i < |lines| ==> RStrip(lines[i]) != ""
  }

  ghost predicate IsFrame(f: Frame) {
    IsBlock(f.lines) && RStrip(f.blank) == "" && |f.blank| <= MAX_SSE_EVENT
  }

  /** What a block parses to; None where one of its lines is too large. */
  function ParseFrom(p: Pending, lines: seq<string>): Option<Event>
    decreases |lines|
  {
    if lines == [] then Some(p.event)
    else
      match FeedLine(p, lines[0])
      case More(next) => ParseFrom(next, lines[1..])
      case _ => None
  }

  function Parse(lines: seq<string>): Option<Event> {
    ParseFrom(FRESH, lines)
  }

  /** Comments kept alive in blocks of their own carry neither id nor data. */
  predicate Silent(e: Event) {
    e.id == "" && e.data == []
  }

  /** The block carries an event of the journal. */
  predicate Carries(f: Frame) {
    Parse(f.lines).Some? && !Silent(Parse(f.lines).value)
  }

  ghost predicate Journal(j: seq<Event>) {
    && (forall i :: 0 <= i < |j| ==> j[i].id != "")
    && (forall i, k :: 0 <= i < k < |j| ==> j[i].id != j[k].id)
  }

  const START := Reader("", "", false, [])

  /** The state after exactly the first `n` events of the journal. */
  function Replay(w: World, j: seq<Event>, n: nat): Reader
    requires n <= |j|
  {
    if n == 0 then START else Dispatch(w, j[n - 1], Replay(w, j, n - 1)).reader
  }

  predicate ClosesAt(w: World, j: seq<Event>, i: nat)
    requires i < |j|
  {
    Closes(w, j[i], Replay(w, j, i))
  }

  /** A reader can stand after `n` events: each was readable and only the last
      can have closed the stream. */
  ghost predicate Reachable(w: World, j: seq<Event>, n: nat) {
    && n <= |j|
    && (forall i :: 0 <= i < n ==> Readable(w, j[i]))
    && (forall i :: 0 <= i < n - 1 ==> !ClosesAt(w, j, i))
  }

  ghost predicate Open(w: World, j: seq<Event>, n: nat) {
    Reachable(w, j, n) && (n > 0 ==> !ClosesAt(w, j, n - 1))
  }

  // ---- clean ends inside a block ---------------------------------------------------

  /** What the part does is what the events from `at` to `m` do together. */
  ghost predicate StandsFor(w: World, j: seq<Event>, at: nat, m: nat, x: Event)
    requires at <= m < |j| && Readable(w, x)
  {
    var r := Replay(w, j, at);
    && Reachable(w, j, m + 1)
    && Apply(Effects(w, x, r), r) == Replay(w, j, m + 1).(cursor := r.cursor)
    && (ClosesAt(w, j, m) ==> Closes(w, x, r))
  }

  /** A clean end after part of a block does no harm: the part raises before
      anything changes, or it has no id or the cursor's and nothing to do, or it
      has the id of an event ahead and stands for everything up to that. */
  ghost predicate Harmless(w: World, j: seq<Event>, at: nat, part: Option<Event>)
    requires at <= |j|
  {
    part.Some? && Readable(w, part.value) ==>
      var x, r := part.value, Replay(w, j, at);
      if x.id == "" || x.id == r.cursor then Effects(w, x, r) == NOTHING
      else exists m :: at <= m < |j| && j[m].id == x.id && StandsFor(w, j, at, m, x)
  }

  /** The reader stands after a prefix of the journal, and has stopped if that
      prefix closed the stream. */
  ghost predicate Consistent(w: World, j: seq<Event>, out: Outcome, n: nat) {
    Reachable(w, j, n) && out.reader == Replay(w, j, n) && (out.terminal || Open(w, j, n))
  }

  lemma {:induction false} CleanEnd(w: World, lines: seq<string>, p: Pending, r: Reader, saw: bool)
    requires IsBlock(lines)
    ensures var out := ReadLines(w, lines, Eof, p, r, saw);
            var e := ParseFrom(p, lines);
            if e.None? then out == Outcome(r, false, saw, true)
            else out == Dispatch(w, e.value, r).(saw := saw || Dispatch(w, e.value, r).saw)
    decreases |lines|
  {
    if lines != [] {
      match FeedLine(p, lines[0])
      case More(next) => CleanEnd(w, lines[1..], next, r, saw);
      case _ =>
    }
  }

  lemma {:induction false} EffectsDiffer(w: World, e: Event, x: Effect, r: Reader)
    requires Readable(w, e) && (x.fences ==> !r.completed)
    ensures Apply(Effects(w, e, r), r) == Apply(x, r) <==> Effects(w, e, r) == x
  {
    var y := Effects(w, e, r);
    if Apply(y, r) == Apply(x, r) {
      assert y.added == (r.text + y.added)[|r.text|..] == x.added;
    }
  }

  /** Standing for the next event alone is having the same effect. */
  lemma {:induction false} StandsForOne(w: World, j: seq<Event>, at: nat, x: Event)
    requires at < |j| && Readable(w, x) && Readable(w, j[at]) && j[at].id != ""
    ensures var r := Replay(w, j, at);
            Apply(Effects(w, x, r), r) == Replay(w, j, at + 1).(cursor := r.cursor) <==> Effects(w, x, r) == Effects(w, j[at], r)
  {
    hide KindOf, Join;
    EffectsDiffer(w, x, Effects(w, j[at], Replay(w, j, at)), Replay(w, j, at));
  }

  lemma {:induction false} HarmlessLands(w: World, j: seq<Event>, at: nat, part: seq<string>, saw: bool) returns (n: nat)
    requires Journal(j) && Open(w, j, at) && IsBlock(part) && Harmless(w, j, at, Parse(part))
    ensures at <= n && Consistent(w, j, ReadLines(w, part, Eof, FRESH, Replay(w, j, at), saw), n)
  {
    hide ParseFrom, FeedLine, ReadLines, KindOf, Join, EffectOf, Replay;
    var r := Replay(w, j, at);
    CleanEnd(w, part, FRESH, r, saw);
    var x := Parse(part);
    n := at;
    if x.Some? && Readable(w, x.value) {
      if x.value.id == "" || x.value.id == r.cursor {
        assert r.text + "" == r.text;
      } else {
        var m :| at <= m < |j| && j[m].id == x.value.id && StandsFor(w, j, at, m, x.value);
        n := m + 1;
        CursorNames(w, j, n);
      }
    }
  }

  /** Exactly when a clean end inside a block, in the middle of a line or between
      two, leaves the reader at a prefix of the journal no shorter than before, so
      that no event is repeated or skipped. */
  lemma {:induction false} CleanEndExactly(w: World, j: seq<Event>, at: nat, part: seq<string>, saw: bool)
    requires Journal(j) && Open(w, j, at) && IsBlock(part)
    ensures (exists n :: at <= n && Consistent(w, j, ReadLines(w, part, Eof, FRESH, Replay(w, j, at), saw), n))
            <==> Harmless(w, j, at, Parse(part))
  {
    hide ParseFrom, FeedLine, ReadLines, KindOf, Join, EffectOf, Replay;
    var r := Replay(w, j, at);
    var out := ReadLines(w, part, Eof, FRESH, r, saw);
    if Harmless(w, j, at, Parse(part)) {
      var n := HarmlessLands(w, j, at, part, saw);
    } else {
      CleanEnd(w, part, FRESH, r, saw);
      forall n | at <= n
        ensures !Consistent(w, j, out, n)
      {
        if Consistent(w, j, out, n) {
          LandsHarmless(w, j, at, Parse(part).value, n);
        }
      }
    }
  }

  lemma {:induction false} LandsHarmless(w: World, j: seq<Event>, at: nat, x: Event, n: nat)
    requires Journal(j) && Open(w, j, at) && Readable(w, x) && at <= n
    requires Consistent(w, j, Dispatch(w, x, Replay(w, j, at)), n)
    ensures Harmless(w, j, at, Some(x))
  {
    hide KindOf, Join, EffectOf, Replay;
    var r := Replay(w, j, at);
    CursorNames(w, j, n);
    CursorNames(w, j, at);
    if x.id == "" || x.id == r.cursor {
      assert n == at;
      assert Apply(NOTHING, r) == r by { assert r.text + "" == r.text; }
      EffectsDiffer(w, x, NOTHING, r);
    } else {
      assert StandsFor(w, j, at, n - 1, x);
    }
  }

  /** The cursor names the last event taken. */
  lemma {:induction false} CursorNames(w: World, j: seq<Event>, n: nat)
    requires Journal(j) && Reachable(w, j, n)
    ensures Replay(w, j, n).cursor == if n == 0 then "" else j[n - 1].id
  {
    hide KindOf, Join, EffectOf;
    if n > 0 {
      assert Readable(w, j[n - 1]);
    }
  }

  // ---- one connection ------------------------------------------------------------

  /** The first lines of a block, the last of them perhaps cut. */
  ghost predicate CutOf(lines: seq<string>, whole: seq<string>) {
    && |lines| <= |whole|
    && (lines != [] ==>
          var n := |lines| - 1;
          lines[..n] <= whole && "" != lines[n] <= whole[n])
  }

  /** The lines read are a prefix of frames whose events are those of the journal
      from `at` on; a clean end may fall anywhere it does no harm. */
  ghost predicate Delivered(w: World, j: seq<Event>, at: nat, frames: seq<Frame>, lines: seq<string>, ending: Ending)
    decreases |frames|
  {
    if frames == [] then lines == []
    else
      var f := frames[0];
      && IsFrame(f) && at <= |j|
      && (Carries(f) ==> at < |j| && j[at] == Parse(f.lines).value)
      && if |lines| <= |f.lines| then
           if ending == Eof then CutOf(lines, f.lines) && IsBlock(lines) && Harmless(w, j, at, Parse(lines))
           else lines <= f.lines
         else
           && f.lines + [f.blank] <= lines
           && Delivered(w, j, if Carries(f) then at + 1 else at, frames[1..], lines[|f.lines| + 1..], ending)
  }

  /** How many events arrive in whole blocks. */
  function Wholes(frames: seq<Frame>, lines: seq<string>): nat {
    if frames == [] || |lines| <= |frames[0].lines| then 0
    else (if Carries(frames[0]) then 1 else 0) + Wholes(frames[1..], lines[|frames[0].lines| + 1..])
  }

  /** What stops a reader short of the lines' end: an event that cannot be
      decoded, one that closed the stream, one whose save failed, or a block that
      is too large. */
  ghost predicate Halts(w: World, j: seq<Event>, at: nat, n: nat, frames: seq<Frame>)
    requires n <= |j|
  {
    || (n < |j| && !Readable(w, j[n]))
    || (at < n && (ClosesAt(w, j, n - 1) || Broken(w, j[n - 1], Replay(w, j, n - 1))))
    || exists f :: f in frames && Parse(f.lines).None?
  }

  lemma {:induction false} EndFresh(w: World, r: Reader, saw: bool)
    ensures ReadLines(w, [], Eof, FRESH, r, saw) == Outcome(r, false, saw, false)
  {
    assert r.text + "" == r.text;
  }

  /** Unreadable data raises before anything changes; a failing save raises after
      everything but the fence; a silent block does nothing. */
  lemma {:induction false} DispatchShape(w: World, e: Event, r: Reader)
    ensures var out := Dispatch(w, e, r);
            && (!Readable(w, e) ==> out == Outcome(r, false, false, true))
            && (out.fault <==> !Readable(w, e) || (e.data != [] && Broken(w, e, r)))
            && (out.terminal <==> Readable(w, e) && Closes(w, e, r))
            && (Silent(e) ==> out == Outcome(r, false, false, false))
  {
    assert r.text + "" == r.text;
  }

  /** A cut inside a block leaves the reader as it was. */
  lemma {:induction false} CutBlock(w: World, lines: seq<string>, p: Pending, r: Reader, saw: bool)
    requires IsBlock(lines)
    ensures ReadLines(w, lines, TransportError, p, r, saw) == Outcome(r, false, saw, true)
    decreases |lines|
  {
    if lines != [] {
      match FeedLine(p, lines[0])
      case More(next) => CutBlock(w, lines[1..], next, r, saw);
      case _ =>
    }
  }

  /** A whole block is dispatched as the event it parses to. */
  lemma {:induction false} WholeBlock(w: World, f: Frame, rest: seq<string>, ending: Ending, p: Pending, r: Reader, saw: bool)
    requires IsFrame(f)
    ensures var e := ParseFrom(p, f.lines);
            var out := ReadLines(w, f.lines + [f.blank] + rest, ending, p, r, saw);
            if e.None? then out == Outcome(r, false, saw, true)
            else
              var d := Dispatch(w, e.value, r);
              if d.fault || d.terminal then out == d.(saw := saw || d.saw)
              else out == ReadLines(w, rest, ending, FRESH, d.reader, saw || d.saw)
    decreases |f.lines|
  {
    hide Dispatch;
    var b := f.lines;
    var lines := b + [f.blank] + rest;
    if b == [] {
      assert lines[0] == f.blank && lines[1..] == rest;
    } else {
      assert lines[0] == b[0] && lines[1..] == b[1..] + [f.blank] + rest;
      match FeedLine(p, b[0])
      case More(next) => WholeBlock(w, Frame(b[1..], f.blank), rest, ending, next, r, saw);
      case _ =>
    }
  }

  /** Reading any delivery advances the reader over whole journal events, each
      taken once and in order, and over all that arrived whole unless it halts. */
  lemma {:induction false} ReadFrames(w: World, j: seq<Event>, at: nat, frames: seq<Frame>, lines: seq<string>,
                                      ending: Ending, saw: bool) returns (n: nat)
    requires Journal(j) && Open(w, j, at) && Delivered(w, j, at, frames, lines, ending)
    ensures at <= n && Consistent(w, j, ReadLines(w, lines, ending, FRESH, Replay(w, j, at), saw), n)
    ensures at + Wholes(frames, lines) <= n || Halts(w, j, at, n, frames)
    decreases |frames|
  {
    hide FeedLine, Dispatch, ReadLines, ParseFrom, Readable, Closes, Effects, Harmless, CutOf, Broken;
    var r := Replay(w, j, at);
    n := at;
    if frames == [] {
      EndFresh(w, r, saw);
      CutBlock(w, [], FRESH, r, saw);
    } else {
      var f, rest := frames[0], frames[1..];
      if |lines| <= |f.lines| {
        if ending == Eof {
          n := HarmlessLands(w, j, at, lines, saw);
        } else {
          assert IsBlock(lines);
          CutBlock(w, lines, FRESH, r, saw);
        }
      } else {
        var tail := lines[|f.lines| + 1..];
        assert lines == f.lines + [f.blank] + tail;
        WholeBlock(w, f, tail, ending, FRESH, r, saw);
        var e := Parse(f.lines);
        if e.Some? {
          var d := Dispatch(w, e.value, r);
          DispatchShape(w, e.value, r);
          if Silent(e.value) {
            n := ReadFrames(w, j, at, rest, tail, ending, saw);
          } else if Readable(w, e.value) {
            n := at + 1;
            assert d.reader == Replay(w, j, n);
            if !d.terminal && !d.fault {
              n := ReadFrames(w, j, n, rest, tail, ending, saw || d.saw);
            }
          }
        } else {
          assert f in frames;
        }
      }
    }
  }

  // ---- rendering an event ------------------------------------------------------

  function RenderField(field: string, value: string): string {
    field + ": " + value + "\n"
  }

  function DataLines(data: seq<string>): seq<string> {
    if data == [] then [] else [RenderField("data", data[0])] + DataLines(data[1..])
  }

  function Render(e: Event): seq<string> {
    [RenderField("id", e.id), RenderField("event", e.name)] + DataLines(e.data)
  }

  function DataSize(data: seq<string>): nat {
    if data == [] then 0 else |RenderField("data", data[0])| + DataSize(data[1..])
  }

  /** What a server can send through the format and its limits. */
  ghost predicate Sendable(e: Event) {
    && OneLine(e.id) && '\0' !in e.id && |e.id| <= 1024
    && OneLine(e.name) && 0 < |e.name| <= 256
    && (forall i :: 0 <= i < |e.data| ==> OneLine(e.data[i]))
    && DataSize(e.data) <= MAX_SSE_EVENT
  }

  lemma {:induction false} FieldParts(field: string, value: string)
    requires OneLine(field) && OneLine(value) && ':' !in field && field != ""
    ensures var line := field + ": " + value;
            && RStrip(RenderField(field, value)) == RStrip(line) == line
            && line[..Colon(line)] == field && FieldValue(line) == value
  {
    var line := field + ": " + value;
    var raw := RenderField(field, value);
    assert raw[..|raw| - 1] == line;
    assert line[|line| - 1] != '\n' && line[|line| - 1] != '\r' by {
      if value != "" {
        assert line[|line| - 1] == value[|value| - 1];
      } else {
        assert line[|line| - 1] == ' ';
      }
    }
    assert RStrip(raw) == line;
    assert line[|field|] == ':';
    assert forall k :: 0 <= k < |field| ==> line[k] == field[k];
    assert line[|field| + 1] == ' ' && line[|field| + 2..] == value;
  }

  /** An id line takes effect whether or not its line break arrived. */
  lemma {:induction false} FeedCutId(p: Pending, value: string)
    requires OneLine(value) && '\0' !in value && |value| <= 1024
    ensures FeedLine(p, "id: " + value) == More(p.(event := p.event.(id := value)))
  {
    FieldParts("id", value);
    assert "id" + ": " + value == "id: " + value;
  }

  lemma {:induction false} FeedId(p: Pending, value: string)
    requires OneLine(value) && '\0' !in value && |value| <= 1024
    ensures FeedLine(p, RenderField("id", value)) == More(p.(event := p.event.(id := value)))
  {
    FieldParts("id", value);
  }

  lemma {:induction false} FeedName(p: Pending, value: string)
    requires OneLine(value) && 0 < |value| <= 256
    ensures FeedLine(p, RenderField("event", value)) == More(p.(event := p.event.(name := value)))
  {
    FieldParts("event", value);
  }

  lemma {:induction false} FeedData(p: Pending, value: string)
    requires OneLine(value) && p.size + |RenderField("data", value)| <= MAX_SSE_EVENT
    ensures FeedLine(p, RenderField("data", value))
            == More(Pending(p.event.(data := p.event.data + [value]), p.size + |RenderField("data", value)|))
  {
    FieldParts("data", value);
  }

  lemma {:induction false} ParseCons(p: Pending, raw: string, rest: seq<string>)
    requires FeedLine(p, raw).More?
    ensures ParseFrom(p, [raw] + rest) == ParseFrom(FeedLine(p, raw).p, rest)
  {
  }

  lemma {:induction false} ParseData(data: seq<string>, p: Pending)
    requires forall i :: 0 <= i < |data| ==> OneLine(data[i])
    requires p.size + DataSize(data) <= MAX_SSE_EVENT
    ensures ParseFrom(p, DataLines(data)) == Some(p.event.(data := p.event.data + data))
    decreases |data|
  {
    hide FeedLine, RenderField, ParseFrom;
    if data != [] {
      FeedData(p, data[0]);
      var raw := RenderField("data", data[0]);
      var next := Pending(p.event.(data := p.event.data + [data[0]]), p.size + |raw|);
      ParseCons(p, raw, DataLines(data[1..]));
      ParseData(data[1..], next);
      assert p.event.data + [data[0]] + data[1..] == p.event.data + data;
    } else {
      assert p.event.data + data == p.event.data;
      NothingToParse(p);
    }
  }

  lemma NothingToParse(p: Pending)
    ensures ParseFrom(p, []) == Some(p.event)
  {
  }

  /** Event names are cut at their limit, and an empty one means `message`. */
  lemma {:induction false} NameLimit(p: Pending, value: string)
    requires OneLine(value) && |value| <= 4096
    ensures FeedLine(p, RenderField("event", value))
            == More(p.(event := p.event.(name := if value == "" then "message" else if |value| <= 256 then value else value[..256])))
  {
    FieldParts("event", value);
  }

  /** So are ids, and one with a NUL is ignored. */
  lemma {:induction false} IdLimit(p: Pending, value: string)
    requires OneLine(value) && |value| <= 4096
    ensures FeedLine(p, RenderField("id", value))
            == More(if '\0' in value then p else p.(event := p.event.(id := if |value| <= 1024 then value else value[..1024])))
  {
    FieldParts("id", value);
  }

  /** Data lines are refused exactly once an event holds more than the limit. */
  lemma {:induction false} DataLimit(p: Pending, value: string)
    requires OneLine(value)
    ensures FeedLine(p, RenderField("data", value)).TooLarge? <==> p.size + |RenderField("data", value)| > MAX_SSE_EVENT
  {
    FieldParts("data", value);
  }

  /** Comments and unknown fields are skipped. */
  lemma {:induction false} SkippedLines(p: Pending, field: string, value: string)
    requires OneLine(field) && OneLine(value) && ':' !in field && |field| + |value| <= 4096
    ensures field != "" && field !in {"event", "data", "id"} ==> FeedLine(p, RenderField(field, value)) == More(p)
    ensures FeedLine(p, ":" + value + "\n") == More(p)
  {
    if field != "" {
      FieldParts(field, value);
    }
    var line := ":" + value;
    assert (line + "\n")[..|line|] == line;
    assert line[|line| - 1] != '\n' && line[|line| - 1] != '\r' by {
      if value != "" {
        assert line[|line| - 1] == value[|value| - 1];
      }
    }
    assert RStrip(line + "\n") == line;
  }

  /** The parser undoes the format. */
  lemma {:induction false} RenderParses(e: Event)
    requires Sendable(e)
    ensures Parse(Render(e)) == Some(e)
  {
    hide FeedLine, RenderField, ParseFrom, DataLines;
    FeedId(FRESH, e.id);
    var p1 := Pending(FRESH.event.(id := e.id), 0);
    FeedName(p1, e.name);
    var p2 := Pending(p1.event.(name := e.name), 0);
    var id, name, data := RenderField("id", e.id), RenderField("event", e.name), DataLines(e.data);
    ParseCons(FRESH, id, [name] + data);
    ParseCons(p1, name, data);
    assert Render(e) == [id] + ([name] + data);
    ParseData(e.data, p2);
    assert [] + e.data == e.data;
  }
}
