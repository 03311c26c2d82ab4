/** A whole attachment to one run: what the accumulated text and the published
    completions are after any number of interrupted connections. */
module StreamReader {
  import opened Common
  import opened Stream

  // ---- the accumulated text ----------------------------------------------------

  function EventChunk(w: World, e: Event): string {
    if e.data == [] || w.decode(Join(e.data)).None? then ""
    else Chunk(KindOf(e.name), w.decode(Join(e.data)).value)
  }

  /** The tokens of the first `n` events, uncapped. */
  function Transcript(w: World, j: seq<Event>, n: nat): string
    requires n <= |j|
  {
    if n == 0 then "" else Transcript(w, j, n - 1) + EventChunk(w, j[n - 1])
  }

  lemma AppendCapped(s: string, chunk: string)
    ensures Capped(s) + Fitting(Capped(s), chunk) == Capped(s + chunk)
  {
  }

  /** The text is the capped concatenation of a journal prefix's tokens and the
      cursor names that prefix's last event: nothing is repeated or skipped. */
  lemma {:induction false} ReplayText(w: World, j: seq<Event>, n: nat)
    requires Journal(j) && Reachable(w, j, n)
    ensures Replay(w, j, n).text == Capped(Transcript(w, j, n))
    ensures Replay(w, j, n).cursor == if n == 0 then "" else j[n - 1].id
    decreases n
  {
    hide KindOf, Join, Fitting;
    CursorNames(w, j, n);
    if n > 0 {
      var e := j[n - 1];
      ReplayText(w, j, n - 1);
      AppendCapped(Transcript(w, j, n - 1), EventChunk(w, e));
      assert Readable(w, e);
      var text := Replay(w, j, n - 1).text;
      assert text + "" == text;
      assert Transcript(w, j, n - 1) + "" == Transcript(w, j, n - 1);
    }
  }

  /** What an event adds to the transcript: a token its text, an interim message
      its text unless that was streamed already, and nothing else anything. */
  lemma {:induction false} EventAdds(w: World, e: Event, r: Reader)
    requires e.data != [] && w.decode(Join(e.data)).Some? && |r.text| + |EventChunk(w, e)| <= MAX_STREAM_TEXT
    ensures var d, t := w.decode(Join(e.data)).value, Dispatch(w, e, r).reader.text;
            match KindOf(e.name)
            case Token => t == r.text + (if d.text != "" then d.text else d.token)
            case Interim => t == r.text + (if d.alreadyStreamed then "" else if d.text != "" then d.text else d.content)
            case _ => t == r.text
  {
    hide KindOf, Join;
    assert r.text + "" == r.text;
  }

  /** Only a handler that saves can fail, so text never gets lost that way and a
      completed turn stays completed. */
  lemma {:induction false} OnlySavesFail(w: World, e: Event, r: Reader)
    requires Readable(w, e) && Dispatch(w, e, r).fault
    ensures KindOf(e.name) !in {Token, Interim} && (KindOf(e.name) in {Done, StreamEnd} ==> !r.completed)
    ensures !Dispatch(w, e, r).terminal && Dispatch(w, e, r).reader.completed == r.completed
  {
    hide KindOf, Join;
  }

  /** The other names under which the server reports the same things. */
  lemma {:induction false} Synonyms()
    ensures KindOf("text") == KindOf("assistant_delta") == Token && KindOf("interim_assistant") == Interim
    ensures KindOf("cancelled") == Cancel && KindOf("apperror") == Failure
  {
    hide KindOf;
    PlainKind("text");
    PlainKind("assistant_delta");
    PlainKind("interim_assistant");
    PlainKind("cancelled");
    PlainKind("apperror");
  }

  // ---- completions ---------------------------------------------------------------

  /** Events that complete the turn. */
  predicate Completing(e: Event) {
    e.data != [] && KindOf(e.name) in {Done, Cancel, Failure, StreamEnd}
  }

  /** Errors and cancellations do not look at the fence. */
  predicate Unfenced(e: Event) {
    e.data != [] && KindOf(e.name) in {Cancel, Failure}
  }

  predicate IsDone(e: Event) {
    e.data != [] && KindOf(e.name) == Done
  }

  /** The fence was crossed: some `done` was handled to its end. */
  ghost predicate Fenced(w: World, j: seq<Event>, n: nat)
    requires n <= |j|
  {
    exists i :: 0 <= i < n && IsDone(j[i]) && !w.breaks(j[i])
  }

  lemma {:induction false} FenceCrossed(w: World, j: seq<Event>, n: nat)
    requires Reachable(w, j, n)
    ensures Replay(w, j, n).completed <==> Fenced(w, j, n)
    decreases n
  {
    hide KindOf, Join, Fitting;
    if n > 0 {
      FenceCrossed(w, j, n - 1);
      assert Readable(w, j[n - 1]);
      assert Fenced(w, j, n) <==> Fenced(w, j, n - 1) || (IsDone(j[n - 1]) && !w.breaks(j[n - 1]));
    }
  }

  /** The journal's event `i` publishes a completion. */
  ghost predicate Publishing(w: World, j: seq<Event>, i: nat)
    requires i < |j|
  {
    Unfenced(j[i]) || (Completing(j[i]) && !Fenced(w, j, i))
  }

  lemma {:induction false} PublishedStep(w: World, j: seq<Event>, n: nat)
    requires 0 < n && Reachable(w, j, n)
    ensures var before := Replay(w, j, n - 1);
            Replay(w, j, n).published
            == if Publishing(w, j, n - 1) then before.published + [before.text] else before.published
  {
    hide KindOf, Join, Fitting;
    FenceCrossed(w, j, n - 1);
    assert Readable(w, j[n - 1]);
  }

  /** Nothing is published exactly while no event published, and at most one
      completion exactly while no two did. */
  lemma {:induction false} PublishedCount(w: World, j: seq<Event>, n: nat)
    requires Reachable(w, j, n)
    ensures Replay(w, j, n).published == [] <==> forall i :: 0 <= i < n ==> !Publishing(w, j, i)
    ensures |Replay(w, j, n).published| <= 1
            <==> forall i, k :: 0 <= i < k < n ==> !(Publishing(w, j, i) && Publishing(w, j, k))
    decreases n
  {
    hide Publishing, Dispatch, Closes, Readable;
    if n > 0 {
      PublishedCount(w, j, n - 1);
      PublishedStep(w, j, n);
    }
  }

  /** Every published completion carries the capped text of a journal prefix. */
  lemma {:induction false} PublishedText(w: World, j: seq<Event>, n: nat, c: nat)
    requires Journal(j) && Reachable(w, j, n) && c < |Replay(w, j, n).published|
    ensures exists k :: 0 <= k <= n && Replay(w, j, n).published[c] == Capped(Transcript(w, j, k))
    decreases n
  {
    hide Publishing, Capped, Transcript, Dispatch, Closes, Readable;
    if n > 0 {
      PublishedStep(w, j, n);
      ReplayText(w, j, n - 1);
      if c < |Replay(w, j, n - 1).published| {
        PublishedText(w, j, n - 1, c);
      }
    }
  }

  /** A completing event has published itself or found an earlier one published. */
  lemma {:induction false} SomePublished(w: World, j: seq<Event>, i: nat) returns (p: nat)
    requires i < |j| && Completing(j[i])
    ensures p <= i && Publishing(w, j, p)
    decreases i
  {
    p := i;
    if !Publishing(w, j, i) {
      var d :| 0 <= d < i && IsDone(j[d]) && !w.breaks(j[d]);
      p := SomePublished(w, j, d);
    }
  }

  /** What a finished or interrupted attachment has published: the journal
      prefix's completions, and one more when the server reported the run over
      before the fence. */
  function Settle(r: Reader, settled: bool): Reader {
    if settled then r.(published := r.published + [r.text]) else r
  }

  /** After a completing event `i` the turn is completed again at `k`: by an error
      or a cancellation, or by `done`, `stream_end` or the server's status, the
      last standing at `n`, when no earlier `done` was handled to its end. */
  ghost predicate Again(w: World, j: seq<Event>, n: nat, settled: bool, i: nat, k: nat)
    requires n <= |j|
  {
    && i < k <= n && Completing(j[i])
    && if k == n then settled && !Fenced(w, j, n)
       else Unfenced(j[k]) || (Completing(j[k]) && !Fenced(w, j, k))
  }

  /** Completion happens at most once, exactly unless some completing event is
      followed by another one that the fence does not hold back. */
  lemma {:induction false} CompletedAtMostOnce(w: World, j: seq<Event>, n: nat, settled: bool)
    requires Reachable(w, j, n)
    requires settled ==> !Replay(w, j, n).completed
    ensures |Settle(Replay(w, j, n), settled).published| <= 1 <==> forall i: nat, k: nat :: !Again(w, j, n, settled, i, k)
  {
    hide Replay, Fenced, Completing, Unfenced;
    PublishedCount(w, j, n);
    FenceCrossed(w, j, n);
    if |Settle(Replay(w, j, n), settled).published| <= 1 {
      forall i: nat, k: nat
        ensures !Again(w, j, n, settled, i, k)
      {
        if Again(w, j, n, settled, i, k) {
          assert k < n ==> Publishing(w, j, k);
          var p := SomePublished(w, j, i);
        }
      }
    } else if |Replay(w, j, n).published| > 1 {
      var i, k :| 0 <= i < k < n && Publishing(w, j, i) && Publishing(w, j, k);
      PublishingCompletes(w, j, i);
      assert Again(w, j, n, settled, i, k);
    } else {
      var i :| 0 <= i < n && Publishing(w, j, i);
      PublishingCompletes(w, j, i);
      assert Again(w, j, n, settled, i, n);
    }
  }

  lemma PublishingCompletes(w: World, j: seq<Event>, i: nat)
    requires i < |j| && Publishing(w, j, i)
    ensures Completing(j[i])
  {
  }

  /** An error or cancellation reported after `done`. */
  ghost predicate FailsAfterDone(j: seq<Event>, n: nat)
    requires n <= |j|
  {
    n > 0 && Unfenced(j[n - 1]) && exists i :: 0 <= i < n - 1 && IsDone(j[i])
  }

  /** Where every save succeeds, only an error or cancellation after `done`
      completes the turn again. */
  lemma {:induction false} WithoutFaults(w: World, j: seq<Event>, n: nat, settled: bool)
    requires Reachable(w, j, n) && forall i :: 0 <= i < n ==> !w.breaks(j[i])
    requires settled ==> Open(w, j, n) && !Replay(w, j, n).completed
    ensures |Settle(Replay(w, j, n), settled).published| <= 1 <==> !FailsAfterDone(j, n)
  {
    hide KindOf, Replay;
    CompletedAtMostOnce(w, j, n, settled);
    if FailsAfterDone(j, n) {
      var i :| 0 <= i < n - 1 && IsDone(j[i]);
      assert Again(w, j, n, settled, i, n - 1);
    }
    forall i: nat, k: nat | Again(w, j, n, settled, i, k)
      ensures FailsAfterDone(j, n)
    {
      OnlyDoneGoesOn(w, j, n, i, k);
      assert k < n;
      UnfencedCloses(w, j, k);
    }
  }

  /** Where every save succeeds, any completing event but `done` ends the stream. */
  lemma {:induction false} OnlyDoneGoesOn(w: World, j: seq<Event>, n: nat, i: nat, k: nat)
    requires Reachable(w, j, n) && i < k <= n && !w.breaks(j[i]) && Completing(j[i])
    requires k == n ==> Open(w, j, n)
    ensures IsDone(j[i]) && Fenced(w, j, k)
  {
    hide KindOf, Replay;
    assert i < n - 1 ==> !ClosesAt(w, j, i);
  }

  lemma {:induction false} UnfencedCloses(w: World, j: seq<Event>, k: nat)
    requires k < |j| && Unfenced(j[k]) && !w.breaks(j[k])
    ensures ClosesAt(w, j, k)
  {
    hide KindOf, Replay;
  }

  /** A turn that was read to its closing event is completed, and exactly once
      where nothing completes it again. */
  lemma {:induction false} CompletedOnce(w: World, j: seq<Event>, n: nat)
    requires 0 < n && Reachable(w, j, n) && ClosesAt(w, j, n - 1)
    ensures |Replay(w, j, n).published| >= 1
    ensures |Replay(w, j, n).published| == 1 <==> forall i: nat, k: nat :: !Again(w, j, n, false, i, k)
  {
    hide Replay, Again, KindOf, Publishing, Completing, ClosesAt;
    PublishedCount(w, j, n);
    CompletedAtMostOnce(w, j, n, false);
    ClosingCompletes(w, j, n - 1);
    var p := SomePublished(w, j, n - 1);
  }

  lemma ClosingCompletes(w: World, j: seq<Event>, i: nat)
    requires i < |j| && ClosesAt(w, j, i)
    ensures Completing(j[i])
  {
  }

  // ---- turns that complete twice -----------------------------------------------------

  const DONE := Event("done", ["{}"], "1")
  const CANCEL := Event("cancel", ["{}"], "1")
  const FAILURE := Event("error", ["{}"], "2")
  const STREAM_END := Event("stream_end", ["{}"], "2")

  ghost predicate Plain(name: string) {
    forall i :: 0 <= i < |name| ==> name[i] == '_' || 'a' <= name[i] <= 'z'
  }

  lemma {:induction false} PlainFolds(name: string)
    requires Plain(name)
    ensures Fold(name) == name
  {
    if name != "" {
      PlainFolds(name[1..]);
    }
  }

  lemma {:induction false} PlainKind(name: string)
    requires Plain(name) && name != ""
    ensures KindOf(name) == Named(name)
  {
    PlainFolds(name);
  }

  lemma {:induction false} TokenKind()
    ensures KindOf("token") == Token && Join(["hi"]) == "hi" && Join(["a"]) == "a"
  {
    hide KindOf;
    PlainKind("token");
  }

  lemma {:induction false} Kinds()
    ensures KindOf("done") == Done && KindOf("cancel") == Cancel
    ensures KindOf("error") == Failure && KindOf("stream_end") == StreamEnd
  {
    hide KindOf;
    PlainKind("done");
    PlainKind("cancel");
    PlainKind("error");
    PlainKind("stream_end");
    assert "error"[0] != "token"[0];
  }

  /** All saves fail, or none does. */
  function Saving(fails: bool): World {
    World(s => Some(Data("", "", "", false)), e => fails)
  }

  /** The save fails after `done` published, so `stream_end` publishes again. */
  lemma {:induction false} DoneThenStreamEnd()
    ensures var j := [DONE, STREAM_END];
            Journal(j) && Reachable(Saving(true), j, 2) && |Replay(Saving(true), j, 2).published| == 2
  {
    Kinds();
    hide KindOf, Join;
    TwoEvents(Saving(true), DONE, STREAM_END);
  }

  /** Any completing event whose save fails is completed again by the server's
      status. */
  lemma {:induction false} FailedSaveThenStatus(e: Event)
    requires e in {DONE, CANCEL, FAILURE, STREAM_END}
    ensures var r := Replay(Saving(true), [e], 1);
            Open(Saving(true), [e], 1) && !r.completed && |Settle(r, true).published| == 2
  {
    Kinds();
    hide KindOf, Join;
    OneEvent(Saving(true), e);
  }

  /** An error after `done` completes again although every save succeeds. */
  lemma {:induction false} DoneThenError()
    ensures var j := [DONE, FAILURE];
            Journal(j) && Reachable(Saving(false), j, 2) && |Replay(Saving(false), j, 2).published| == 2
  {
    Kinds();
    hide KindOf, Join;
    TwoEvents(Saving(false), DONE, FAILURE);
  }

  lemma {:induction false} OneEvent(w: World, e: Event)
    requires Readable(w, e)
    ensures Replay(w, [e], 1) == Dispatch(w, e, START).reader
    ensures ClosesAt(w, [e], 0) <==> Closes(w, e, START)
  {
    hide Dispatch, Closes;
    assert Replay(w, [e], 0) == START;
  }

  lemma {:induction false} TwoEvents(w: World, e: Event, e': Event)
    requires Readable(w, e) && Readable(w, e')
    ensures Replay(w, [e, e'], 2) == Dispatch(w, e', Dispatch(w, e, START).reader).reader
    ensures ClosesAt(w, [e, e'], 0) <==> Closes(w, e, START)
  {
    hide Dispatch, Closes;
    assert Replay(w, [e, e'], 0) == START;
    assert Replay(w, [e, e'], 1) == Dispatch(w, e, START).reader;
  }

  // ---- clean ends that do harm -----------------------------------------------------

  function Echo(): World {
    World(s => Some(Data(s, "", "", false)), e => false)
  }

  /** A clean end before the id line of a token: the token is taken, and taken
      again after the reconnect. */
  lemma {:induction false} PartialBlockRepeats()
    ensures var b := [RenderField("event", "token"), RenderField("data", "hi"), RenderField("id", "1")];
            && Parse(b) == Some(Event("token", ["hi"], "1"))
            && Parse(b[..2]) == Some(Event("token", ["hi"], ""))
            && !Harmless(Echo(), [Event("token", ["hi"], "1")], 0, Parse(b[..2]))
            && var cut := ReadLines(Echo(), b[..2], Eof, FRESH, START, false).reader;
               && cut == START.(text := "hi")
               && ReadLines(Echo(), b + ["\n"], Eof, FRESH, cut, false).reader.text == "hihi"
  {
    hide FeedLine, Dispatch, ParseFrom, ReadLines, RenderField, RStrip, Harmless;
    var name, data, id := RenderField("event", "token"), RenderField("data", "hi"), RenderField("id", "1");
    FeedName(FRESH, "token");
    var named := Pending(Event("token", [], ""), 0);
    SmallField("data", "hi");
    FeedData(named, "hi");
    var texted := Pending(Event("token", ["hi"], ""), |data|);
    FeedId(texted, "1");
    var whole := Pending(Event("token", ["hi"], "1"), |data|);
    var b := [name, data, id];
    ThreeLines(name, data, id, named, texted, whole);
    FieldBlock("event", "token");
    FieldBlock("data", "hi");
    FieldBlock("id", "1");
    assert b[..2] == [name, data];
    TakenTwice(b);
  }

  lemma {:induction false} TakenTwice(b: seq<string>)
    requires |b| == 3 && IsBlock(b)
    requires Parse(b) == Some(Event("token", ["hi"], "1")) && Parse(b[..2]) == Some(Event("token", ["hi"], ""))
    ensures !Harmless(Echo(), [Event("token", ["hi"], "1")], 0, Parse(b[..2]))
    ensures var cut := ReadLines(Echo(), b[..2], Eof, FRESH, START, false).reader;
            && cut == START.(text := "hi")
            && ReadLines(Echo(), b + ["\n"], Eof, FRESH, cut, false).reader.text == "hihi"
  {
    hide FeedLine, Dispatch, ParseFrom, ReadLines, RStrip, Effects, Readable;
    TokenText();
    var cut := START.(text := "hi");
    CleanEnd(Echo(), b[..2], FRESH, START, false);
    BlankLine();
    WholeBlock(Echo(), Frame(b, "\n"), [], Eof, FRESH, cut, false);
    assert b + ["\n"] + [] == b + ["\n"];
    EndFresh(Echo(), cut.(cursor := "1", text := "hihi"), true);
  }

  /** A clean end after the id line of a token: the cursor passes the token, so
      it is never taken. */
  lemma {:induction false} PartialBlockSkips()
    ensures var b := Render(Event("token", ["hi"], "1"));
            && Parse(b) == Some(Event("token", ["hi"], "1"))
            && !Harmless(Echo(), [Event("token", ["hi"], "1")], 0, Parse(b[..1]))
            && ReadLines(Echo(), b[..1], Eof, FRESH, START, false).reader == START.(cursor := "1")
  {
    var e := Event("token", ["hi"], "1");
    var id := RenderField("id", "1");
    assert Sendable(e) by {
      assert DataSize(["hi"]) == |RenderField("data", "hi")| + DataSize(["hi"][1..]);
    }
    RenderParses(e);
    FeedId(FRESH, "1");
    TokenText();
    hide FeedLine, ParseFrom, ReadLines, RenderField, Effects;
    var b := Render(e);
    var named := Pending(Event("message", [], "1"), 0);
    assert b[..1] == [id] == [id] + [];
    ParseCons(FRESH, id, []);
    NothingToParse(named);
    FieldBlock("id", "1");
    CleanEnd(Echo(), b[..1], FRESH, START, false);
    IdOnly();
    NotStandingFor(Event("message", [], "1"));
  }

  /** A part that has the id and no effect does not stand for the token. */
  lemma {:induction false} NotStandingFor(x: Event)
    requires Readable(Echo(), x) && x.id == "1" && Effects(Echo(), x, START) == NOTHING
    ensures !Harmless(Echo(), [Event("token", ["hi"], "1")], 0, Some(x))
  {
    var j := [Event("token", ["hi"], "1")];
    TokenText();
    hide Effects, KindOf, Join;
    StandsForOne(Echo(), j, 0, x);
  }

  /** A clean end inside the id line of a token, after `id: 1` of `id: 12`: the
      token is taken, and the cursor names the event before it, so it is taken
      again after the reconnect. */
  lemma {:induction false} CutIdRepeats()
    ensures var j := [Event("token", ["a"], "1"), Event("token", ["hi"], "12")];
            var b := [RenderField("event", "token"), RenderField("data", "hi"), RenderField("id", "12")];
            var part := b[..2] + ["id: 1"];
            && Journal(j) && Open(Echo(), j, 1) && Parse(b) == Some(j[1]) && IsBlock(part) && CutOf(part, b)
            && !Harmless(Echo(), j, 1, Parse(part))
            && ReadLines(Echo(), part, Eof, FRESH, Replay(Echo(), j, 1), false).reader == Reader("1", "ahi", false, [])
            && After(j, "1") == 1
  {
    hide FeedLine, Dispatch, ParseFrom, ReadLines, RenderField, RStrip, Harmless, Replay;
    var name, data, id := RenderField("event", "token"), RenderField("data", "hi"), RenderField("id", "12");
    FeedName(FRESH, "token");
    var named := Pending(Event("token", [], ""), 0);
    SmallField("data", "hi");
    FeedData(named, "hi");
    var texted := Pending(Event("token", ["hi"], ""), |data|);
    FeedId(texted, "12");
    FeedCutId(texted, "1");
    assert "id: " + "1" == "id: 1";
    ThreeLines(name, data, id, named, texted, Pending(Event("token", ["hi"], "12"), |data|));
    ThreeLines(name, data, "id: 1", named, texted, Pending(Event("token", ["hi"], "1"), |data|));
    var b, part := [name, data, id], [name, data, "id: 1"];
    assert b[..2] + ["id: 1"] == part;
    FieldBlock("event", "token");
    FieldBlock("data", "hi");
    FieldParts("id", "1");
    assert "id" + ": " + "1" == "id: 1";
    assert "id: 1" <= id by { CutId(); }
    assert part[..2] == b[..2];
    CutTaken(part);
  }

  lemma {:induction false} CutId()
    ensures "id: 1" <= RenderField("id", "12")
  {
  }

  lemma {:induction false} CutTaken(part: seq<string>)
    requires IsBlock(part) && Parse(part) == Some(Event("token", ["hi"], "1"))
    ensures var j := [Event("token", ["a"], "1"), Event("token", ["hi"], "12")];
            && Journal(j) && Open(Echo(), j, 1) && After(j, "1") == 1
            && !Harmless(Echo(), j, 1, Parse(part))
            && ReadLines(Echo(), part, Eof, FRESH, Replay(Echo(), j, 1), false).reader == Reader("1", "ahi", false, [])
  {
    hide ParseFrom, ReadLines, RStrip;
    var e, j := Event("token", ["a"], "1"), [Event("token", ["a"], "1"), Event("token", ["hi"], "12")];
    var r := Reader("1", "a", false, []);
    TokenTexts(r);
    hide KindOf, Join;
    assert Replay(Echo(), j, 0) == START && Replay(Echo(), j, 1) == r;
    hide Dispatch, Replay, Effects;
    CleanEnd(Echo(), part, FRESH, r, false);
    AfterCursor(j, 1);
  }

  lemma {:induction false} TokenTexts(r: Reader)
    requires r == Reader("1", "a", false, [])
    ensures var e, x := Event("token", ["a"], "1"), Event("token", ["hi"], "1");
            && Readable(Echo(), e) && Readable(Echo(), x) && !Closes(Echo(), e, START)
            && Dispatch(Echo(), e, START) == Outcome(r, false, true, false)
            && Effects(Echo(), x, r) == Effect("hi", false, false)
            && Dispatch(Echo(), x, r) == Outcome(Reader("1", "ahi", false, []), false, true, false)
  {
    TokenKind();
    hide KindOf, Join;
    assert "" + "a" == "a";
    assert "a" + "hi" == "ahi";
  }

  lemma {:induction false} IdOnly()
    ensures var x := Event("message", [], "1");
            Readable(Echo(), x) && Effects(Echo(), x, START) == NOTHING
            && Dispatch(Echo(), x, START) == Outcome(START.(cursor := "1"), false, false, false)
  {
    assert "" + "" == "";
  }

  lemma {:induction false} SmallField(field: string, value: string)
    requires |field| + |value| < 100
    ensures |RenderField(field, value)| <= MAX_SSE_EVENT
  {
  }

  lemma {:induction false} FieldBlock(field: string, value: string)
    requires OneLine(field) && OneLine(value) && ':' !in field && field != ""
    ensures RStrip(RenderField(field, value)) != ""
  {
    FieldParts(field, value);
  }

  lemma {:induction false} BlankLine()
    ensures RStrip("\n") == ""
  {
    assert RStrip("\n") == RStrip("\n"[..0]);
  }

  lemma {:induction false} ThreeLines(l1: string, l2: string, l3: string, p1: Pending, p2: Pending, p3: Pending)
    requires FeedLine(FRESH, l1) == More(p1) && FeedLine(p1, l2) == More(p2) && FeedLine(p2, l3) == More(p3)
    ensures Parse([l1, l2, l3]) == Some(p3.event)
    ensures Parse([l1, l2]) == Some(p2.event)
  {
    hide FeedLine, ParseFrom;
    ParseCons(FRESH, l1, [l2, l3]);
    ParseCons(FRESH, l1, [l2]);
    ParseCons(p1, l2, [l3]);
    ParseCons(p1, l2, []);
    ParseCons(p2, l3, []);
    assert [l1, l2, l3] == [l1] + [l2, l3] && [l1, l2] == [l1] + [l2];
    assert [l2, l3] == [l2] + [l3] && [l2] == [l2] + [] && [l3] == [l3] + [];
    NothingToParse(p2);
    NothingToParse(p3);
  }

  lemma {:induction false} TokenText()
    ensures var x, e := Event("token", ["hi"], ""), Event("token", ["hi"], "1");
            && Readable(Echo(), x) && Readable(Echo(), e)
            && Effects(Echo(), x, START) == Effects(Echo(), e, START) == Effect("hi", false, false)
            && Dispatch(Echo(), x, START) == Outcome(START.(text := "hi"), false, true, false)
            && Dispatch(Echo(), e, START.(text := "hi"))
               == Outcome(Reader("1", "hihi", false, []), false, true, false)
  {
    TokenKind();
    hide KindOf, Join;
    assert "" + "hi" == "hi";
    assert "hi" + "hi" == "hihi";
  }

  // ---- the attached reader ----------------------------------------------------

  datatype Attempt = SignInNeeded | Refused | Opened(lines: seq<string>, ending: Ending)
  datatype Status = StatusSignIn | NoStatus | Status(active: bool, replay: bool)

  /** Where the journal resumes after a cursor. */
  function After(j: seq<Event>, cursor: string): (k: nat)
    ensures k <= |j|
    ensures k > 0 ==> j[k - 1].id == cursor
  {
    if j == [] || cursor == "" then 0
    else if j[|j| - 1].id == cursor then |j|
    else After(j[..|j| - 1], cursor)
  }

  lemma {:induction false} AfterCursor(j: seq<Event>, n: nat)
    requires Journal(j) && n <= |j|
    ensures After(j, if n == 0 then "" else j[n - 1].id) == n
    decreases |j|
  {
    if n > 0 {
      if n < |j| {
        var init := j[..|j| - 1];
        assert init[n - 1] == j[n - 1];
        AfterCursor(init, n);
      }
    }
  }

  /** The server replays strictly after the cursor. */
  ghost predicate Serves(w: World, j: seq<Event>, a: Attempt, cursor: string) {
    a.Opened? ==> exists frames :: Delivered(w, j, After(j, cursor), frames, a.lines, a.ending)
  }

  // ---- the reconnect loop ---------------------------------------------------------

  /** Why an attachment ended: the stream was closed, a sign-in is needed, the
      server says the run is over, nothing was heard for too long, or the loop was
      stopped from outside. */
  datatype End = Closed | SignInDemanded | RunOver | GaveUp | Stopped

  const PATIENCE := 8

  /** The connections tried so far, and how many events had taken effect before
      each of them and after the last. */
  datatype Trace = Trace(tries: seq<Attempt>, at: seq<nat>)

  ghost function Reading(w: World, j: seq<Event>, a: Attempt, n: nat): Outcome
    requires a.Opened? && n <= |j|
  {
    ReadLines(w, a.lines, a.ending, FRESH, Replay(w, j, n), false)
  }

  ghost predicate CloseSeen(w: World, j: seq<Event>, a: Attempt, n: nat)
    requires n <= |j|
  {
    a.Opened? && Reading(w, j, a, n).terminal
  }

  /** The connection delivered an event and ended without a fault. */
  ghost predicate Heard(w: World, j: seq<Event>, a: Attempt, n: nat)
    requires n <= |j|
  {
    a.Opened? && Reading(w, j, a, n).saw && !Reading(w, j, a, n).fault
  }

  /** A connection takes the reader from prefix `n` to prefix `m`, over every event
      that arrives whole unless it halts. */
  ghost predicate Advances(w: World, j: seq<Event>, a: Attempt, n: nat, m: nat) {
    && n <= m <= |j|
    && if a.Opened? then
         && Consistent(w, j, Reading(w, j, a, n), m)
         && forall frames :: Delivered(w, j, n, frames, a.lines, a.ending) ==>
              n + Wholes(frames, a.lines) <= m || Halts(w, j, n, m, frames)
       else m == n
  }

  /** How many connections in a row, up to number `i`, nothing was heard on. */
  ghost function Quiet(w: World, j: seq<Event>, tr: Trace, i: nat): nat
    requires i < |tr.tries| <= |tr.at| && forall k :: 0 <= k <= i ==> tr.at[k] <= |j|
  {
    if Heard(w, j, tr.tries[i], tr.at[i]) then 0 else 1 + if i == 0 then 0 else Quiet(w, j, tr, i - 1)
  }

  /** Connection `i` ends the attachment for this reason. */
  ghost predicate EndsBy(w: World, j: seq<Event>, status: nat -> Status, tr: Trace, i: nat, why: End)
    requires i < |tr.tries| <= |tr.at| && forall k :: 0 <= k <= i ==> tr.at[k] <= |j|
  {
    var a := tr.tries[i];
    var closed := CloseSeen(w, j, a, tr.at[i]);
    match why
    case Closed => closed
    case SignInDemanded => a == SignInNeeded || (!closed && status(i) == StatusSignIn)
    case RunOver => a != SignInNeeded && !closed && status(i).Status? && !status(i).active
    case GaveUp => a != SignInNeeded && !closed && status(i) == NoStatus && Quiet(w, j, tr, i) >= PATIENCE
    case Stopped => false
  }

  /** Each connection was opened at the cursor the one before left, and advanced
      the reader. */
  ghost predicate Traced(w: World, j: seq<Event>, open: (nat, string) -> Attempt, tr: Trace) {
    && |tr.at| == |tr.tries| + 1 && tr.at[0] == 0
    && (forall i :: 0 <= i < |tr.at| ==> tr.at[i] <= |j|)
    && forall i :: 0 <= i < |tr.tries| ==>
         && Open(w, j, tr.at[i]) && tr.tries[i] == open(i, Replay(w, j, tr.at[i]).cursor)
         && Advances(w, j, tr.tries[i], tr.at[i], tr.at[i + 1])
  }

  /** No connection before number `n` ended the attachment. */
  ghost predicate GoesOn(w: World, j: seq<Event>, status: nat -> Status, tr: Trace, n: nat)
    requires n <= |tr.tries| <= |tr.at| && forall k :: 0 <= k < n ==> tr.at[k] <= |j|
  {
    forall i, why :: 0 <= i < n ==> !EndsBy(w, j, status, tr, i, why)
  }

  /** The whole attachment: it went on until the last connection ended it, or
      until it was stopped after `attempts` of them. */
  ghost predicate Followed(w: World, j: seq<Event>, open: (nat, string) -> Attempt, status: nat -> Status, attempts: nat,
                           tr: Trace, why: End) {
    && Traced(w, j, open, tr) && |tr.tries| <= attempts
    && if why == Stopped then |tr.tries| == attempts && GoesOn(w, j, status, tr, attempts)
       else
         && tr.tries != [] && GoesOn(w, j, status, tr, |tr.tries| - 1)
         && EndsBy(w, j, status, tr, |tr.tries| - 1, why)
  }

  function Tried(tr: Trace, a: Attempt, n: nat): Trace {
    Trace(tr.tries + [a], tr.at + [n])
  }

  lemma {:induction false} QuietMore(w: World, j: seq<Event>, tr: Trace, a: Attempt, n: nat, i: nat)
    requires i < |tr.tries| <= |tr.at| && forall k :: 0 <= k <= i ==> tr.at[k] <= |j|
    ensures Quiet(w, j, Tried(tr, a, n), i) == Quiet(w, j, tr, i)
    decreases i
  {
    if i > 0 {
      QuietMore(w, j, tr, a, n, i - 1);
    }
  }

  lemma {:induction false} TracedMore(w: World, j: seq<Event>, open: (nat, string) -> Attempt, status: nat -> Status, tr: Trace,
                                      a: Attempt, n: nat, m: nat)
    requires Traced(w, j, open, tr) && GoesOn(w, j, status, tr, |tr.tries|)
    requires n == tr.at[|tr.tries|] && Open(w, j, n) && a == open(|tr.tries|, Replay(w, j, n).cursor) && Advances(w, j, a, n, m)
    ensures Traced(w, j, open, Tried(tr, a, m)) && GoesOn(w, j, status, Tried(tr, a, m), |tr.tries|)
  {
    hide Open, Replay, Advances, Quiet, CloseSeen;
    var next := Tried(tr, a, m);
    assert m <= |j| by { AdvancesWithin(w, j, a, n, m); }
    forall i, why | 0 <= i < |tr.tries|
      ensures !EndsBy(w, j, status, next, i, why)
    {
      QuietMore(w, j, tr, a, m, i);
      assert !EndsBy(w, j, status, tr, i, why);
    }
  }

  lemma AdvancesWithin(w: World, j: seq<Event>, a: Attempt, n: nat, m: nat)
    requires Advances(w, j, a, n, m)
    ensures n <= m <= |j|
  {
  }

  /** While the server says the run is active and asks for no sign-in, the
      attachment goes on until the stream is closed. */
  lemma {:induction false} ActiveIsFollowed(w: World, j: seq<Event>, open: (nat, string) -> Attempt, status: nat -> Status,
                                            attempts: nat, tr: Trace, why: End)
    requires Followed(w, j, open, status, attempts, tr, why)
    requires forall i :: 0 <= i < |tr.tries| ==> tr.tries[i] != SignInNeeded && status(i).Status? && status(i).active
    ensures why == Closed || (why == Stopped && |tr.tries| == attempts)
  {
    hide Traced, GoesOn, CloseSeen, Quiet;
  }

  /** A prefix is known by its state. */
  lemma {:induction false} SamePrefix(w: World, j: seq<Event>, n: nat, m: nat)
    requires Journal(j) && Reachable(w, j, n) && Reachable(w, j, m) && Replay(w, j, n) == Replay(w, j, m)
    ensures n == m
  {
    CursorNames(w, j, n);
    CursorNames(w, j, m);
  }

  /** Reading what the server delivers after the cursor advances the reader. */
  lemma {:induction false} OpenedAdvances(w: World, j: seq<Event>, a: Attempt, n: nat) returns (m: nat)
    requires Journal(j) && Open(w, j, n) && a.Opened? && Serves(w, j, a, Replay(w, j, n).cursor)
    ensures Advances(w, j, a, n, m) && Consistent(w, j, Reading(w, j, a, n), m)
  {
    hide ReadLines, Delivered, Replay, Halts, Wholes, ClosesAt;
    CursorNames(w, j, n);
    AfterCursor(j, n);
    var frames :| Delivered(w, j, n, frames, a.lines, a.ending);
    m := ReadFrames(w, j, n, frames, a.lines, a.ending, false);
    forall others | Delivered(w, j, n, others, a.lines, a.ending)
      ensures n + Wholes(others, a.lines) <= m || Halts(w, j, n, m, others)
    {
      var k := ReadFrames(w, j, n, others, a.lines, a.ending, false);
      SamePrefix(w, j, k, m);
    }
  }

  class RemoteStream {
    const world: World
    var cursor: string
    var text: string
    var completed: bool
    var published: seq<string>

    ghost function State(): Reader
      reads this
    {
      Reader(cursor, text, completed, published)
    }

    constructor (world: World)
      ensures State() == START && this.world == world
    {
      this.world := world;
      cursor, text, completed, published := "", "", false, [];
    }

    method AppendText(chunk: string)
      modifies this`text
      ensures text == old(text) + Fitting(old(text), chunk)
    {
      var remaining := if |text| < MAX_STREAM_TEXT then MAX_STREAM_TEXT - |text| else 0;
      if remaining > 0 {
        text := text + (if |chunk| <= remaining then chunk else chunk[..remaining]);
      } else {
        assert text + "" == text;
        assert |chunk| > 0 ==> chunk[..0] == "";
      }
    }

    /** Publishes a completion, then saves the conversation. */
    method Complete(breaks: bool) returns (fault: bool)
      modifies this`published
      ensures published == old(published) + [text] && fault == breaks
    {
      published := published + [text];
      fault := breaks;
    }

    method HandleEvent(kind: Kind, d: Data, breaks: bool) returns (terminal: bool, fault: bool)
      modifies this`text, this`completed, this`published
      ensures fault == (breaks && Saves(kind, old(State()))) && terminal == (Ends(kind) && !fault)
      ensures State() == Apply(EffectOf(kind, d, fault, old(State())), old(State()))
    {
      terminal, fault := false, false;
      assert text + "" == text;
      match kind {
        case Token => AppendText(Chunk(kind, d));
        case Interim => AppendText(Chunk(kind, d));
        case Done =>
          if !completed {
            fault := Complete(breaks);
            if fault {
              return;
            }
            completed := true;
          }
        case Cancel =>
          fault := Complete(breaks);
          terminal := !fault;
        case Failure =>
          fault := Complete(breaks);
          terminal := !fault;
        case StreamEnd =>
          if !completed {
            fault := Complete(breaks);
            if fault {
              return;
            }
          }
          terminal := true;
        case Other =>
          fault := breaks;
      }
    }

    method DispatchEvent(e: Event) returns (terminal: bool, saw: bool, fault: bool)
      modifies this
      ensures Outcome(State(), terminal, saw, fault) == Dispatch(world, e, old(State()))
    {
      terminal, saw, fault := false, false, false;
      assert text + "" == text;
      if e.data == [] {
        if e.id != "" {
          cursor := e.id;
        }
        return;
      }
      var d := world.decode(Join(e.data));
      if d.None? {
        fault := true;
        return;
      }
      if e.id != "" {
        cursor := e.id;
      }
      saw := true;
      terminal, fault := HandleEvent(KindOf(e.name), d.value, world.breaks(e));
    }

    /** Reads one response, line by line. */
    method Consume(lines: seq<string>, ending: Ending) returns (terminal: bool, saw: bool, fault: bool)
      modifies this
      ensures Outcome(State(), terminal, saw, fault) == ReadLines(world, lines, ending, FRESH, old(State()), false)
    {
      var p := FRESH;
      saw, terminal, fault := false, false, false;
      for i := 0 to |lines|
        invariant !terminal && !fault
        invariant ReadLines(world, lines[i..], ending, p, State(), saw)
                  == ReadLines(world, lines, ending, FRESH, old(State()), false)
      {
        assert lines[i..][0] == lines[i] && lines[i..][1..] == lines[i + 1..];
        match FeedLine(p, lines[i]) {
          case TooLarge =>
            fault := true;
            return;
          case More(next) =>
            p := next;
          case Blank =>
            var seen;
            terminal, seen, fault := DispatchEvent(p.event);
            saw := saw || seen;
            if terminal || fault {
              return;
            }
            p := FRESH;
        }
      }
      if ending == TransportError {
        fault := true;
      } else {
        var seen;
        terminal, seen, fault := DispatchEvent(p.event);
        saw := saw || seen;
      }
    }

    /** Reads connection after connection, each resumed at the cursor, until the
        stream ends or the server says the run is over. `tr` lists the connections
        and how far each advanced the reader, `why` says what ended it. A handler
        fault is a disconnect; so is one that the loop does not catch, except that
        nothing follows it. */
    method Follow(attempts: nat, open: (nat, string) -> Attempt, status: nat -> Status, ghost j: seq<Event>)
        returns (settled: bool, why: End, ghost tr: Trace, ghost n: nat)
      requires State() == START && Journal(j)
      requires forall k, c :: Serves(world, j, open(k, c), c)
      modifies this
      ensures Followed(world, j, open, status, attempts, tr, why) && n == tr.at[|tr.tries|]
      ensures Reachable(world, j, n) && State() == Settle(Replay(world, j, n), settled)
      ensures settled <==> why == RunOver && !Replay(world, j, n).completed
      ensures settled ==> Open(world, j, n)
      ensures text == Capped(Transcript(world, j, n))
      ensures |published| <= 1 <==> forall i: nat, k: nat :: !Again(world, j, n, settled, i, k)
    {
      hide Fitting, Capped, KindOf, ReadLines, Dispatch, Transcript, Delivered, Again, Replay, Reachable, ClosesAt,
           EndsBy, Traced, GoesOn, Quiet, Advances, Followed, Serves, CloseSeen, Heard, Wholes, Halts;
      settled, why := false, Stopped;
      n, tr := 0, Trace([], [0]);
      StartTrace(world, j, open, status);
      var failures := 0;
      var k := 0;
      while k < attempts
        invariant k <= attempts && n <= |j| && Going(world, j, open, status, tr, k, n)
        invariant !settled && why == Stopped
        invariant Open(world, j, n) && State() == Replay(world, j, n)
        invariant failures == QuietNow(world, j, tr, k)
      {
        ghost var before, from := tr, n;
        ghost var r := State();
        var a := open(k, cursor);
        var saw, closed := false, false;
        if a.Opened? {
          assert Serves(world, j, a, cursor);
          n := OpenedAdvances(world, j, a, from);
          var seen, fault;
          closed, seen, fault := Consume(a.lines, a.ending);
          saw := seen && !fault;
        } else {
          StandsStill(world, j, a, from);
        }
        tr := Tried(tr, a, n);
        GoingMore(world, j, open, status, before, k, a, from, n);
        Told(world, j, a, from);
        Judged(world, j, status, before, k, a, from, n);
        assert State() == Replay(world, j, n) && Reachable(world, j, n) && (closed || Open(world, j, n));
        if a == SignInNeeded {
          why := SignInDemanded;
          break;
        }
        if closed {
          why := Closed;
          break;
        }
        var reply := status(k);
        if reply == StatusSignIn {
          why := SignInDemanded;
          break;
        }
        var active := reply.Status? && reply.active;
        var replay := reply.Status? && reply.replay;
        if !active && reply.Status? {
          why := RunOver;
          if !completed {
            settled, published := true, published + [text];
          }
          break;
        }
        failures := if saw then 0 else failures + 1;
        if failures >= PATIENCE && !active && !replay {
          why := GaveUp;
          break;
        }
        k := k + 1;
      }
      FollowEnds(world, j, open, status, attempts, tr, k, n, why);
      ReplayText(world, j, n);
      CompletedAtMostOnce(world, j, n, settled);
    }
  }

  /** The trace after `k` connections that all went on. */
  ghost predicate Going(w: World, j: seq<Event>, open: (nat, string) -> Attempt, status: nat -> Status, tr: Trace, k: nat, n: nat) {
    && Traced(w, j, open, tr) && |tr.tries| == k && |tr.at| == k + 1 && tr.at[k] == n
    && (forall i :: 0 <= i <= k ==> tr.at[i] <= |j|) && GoesOn(w, j, status, tr, k)
  }

  ghost function QuietNow(w: World, j: seq<Event>, tr: Trace, k: nat): nat
    requires k <= |tr.tries| <= |tr.at| && forall i :: 0 <= i < k ==> tr.at[i] <= |j|
  {
    if k == 0 then 0 else Quiet(w, j, tr, k - 1)
  }

  lemma {:induction false} StartTrace(w: World, j: seq<Event>, open: (nat, string) -> Attempt, status: nat -> Status)
    ensures Going(w, j, open, status, Trace([], [0]), 0, 0) && Open(w, j, 0) && Replay(w, j, 0) == START
  {
  }

  lemma StandsStill(w: World, j: seq<Event>, a: Attempt, n: nat)
    requires !a.Opened? && n <= |j|
    ensures Advances(w, j, a, n, n)
  {
  }

  lemma {:induction false} GoingMore(w: World, j: seq<Event>, open: (nat, string) -> Attempt, status: nat -> Status, tr: Trace, k: nat,
                                     a: Attempt, n: nat, m: nat)
    requires Going(w, j, open, status, tr, k, n) && Open(w, j, n) && n <= |j|
    requires a == open(k, Replay(w, j, n).cursor) && Advances(w, j, a, n, m)
    ensures var next := Tried(tr, a, m);
            && Traced(w, j, open, next) && |next.tries| == k + 1 && |next.at| == k + 2 && next.at[k + 1] == m
            && next.tries[k] == a && next.at[k] == n
            && (forall i :: 0 <= i <= k + 1 ==> next.at[i] <= |j|) && GoesOn(w, j, status, next, k)
            && QuietNow(w, j, next, k) == QuietNow(w, j, tr, k)
  {
    hide Open, Replay, Advances, Quiet, GoesOn, Traced;
    TracedMore(w, j, open, status, tr, a, n, m);
    AdvancesWithin(w, j, a, n, m);
    if k > 0 {
      QuietMore(w, j, tr, a, m, k - 1);
    }
  }

  /** What the loop learns from one connection. */
  lemma Told(w: World, j: seq<Event>, a: Attempt, n: nat)
    requires n <= |j|
    ensures a.Opened? ==> (CloseSeen(w, j, a, n) <==> Reading(w, j, a, n).terminal)
    ensures a.Opened? ==> (Heard(w, j, a, n) <==> Reading(w, j, a, n).saw && !Reading(w, j, a, n).fault)
    ensures !a.Opened? ==> !CloseSeen(w, j, a, n) && !Heard(w, j, a, n)
  {
  }

  /** What the last connection of a trace decides. */
  lemma {:induction false} Judged(w: World, j: seq<Event>, status: nat -> Status, tr: Trace, k: nat, a: Attempt, n: nat, m: nat)
    requires |tr.tries| == k && |tr.at| == k + 1 && tr.at[k] == n && m <= |j| && forall i :: 0 <= i <= k ==> tr.at[i] <= |j|
    ensures var next := Tried(tr, a, m);
            var closed, quiet := CloseSeen(w, j, a, n), if Heard(w, j, a, n) then 0 else 1 + QuietNow(w, j, next, k);
            && QuietNow(w, j, next, k + 1) == quiet
            && (EndsBy(w, j, status, next, k, Closed) <==> closed)
            && (EndsBy(w, j, status, next, k, SignInDemanded) <==> a == SignInNeeded || (!closed && status(k) == StatusSignIn))
            && (EndsBy(w, j, status, next, k, RunOver) <==> a != SignInNeeded && !closed && status(k).Status? && !status(k).active)
            && (EndsBy(w, j, status, next, k, GaveUp) <==> a != SignInNeeded && !closed && status(k) == NoStatus && quiet >= PATIENCE)
            && !EndsBy(w, j, status, next, k, Stopped)
            && (GoesOn(w, j, status, next, k) && !EndsBy(w, j, status, next, k, Closed) && !EndsBy(w, j, status, next, k, SignInDemanded)
                && !EndsBy(w, j, status, next, k, RunOver) && !EndsBy(w, j, status, next, k, GaveUp) ==>
                  GoesOn(w, j, status, next, k + 1))
  {
    hide CloseSeen, Heard;
  }

  lemma {:induction false} FollowEnds(w: World, j: seq<Event>, open: (nat, string) -> Attempt, status: nat -> Status, attempts: nat, tr: Trace,
                                      k: nat, n: nat, why: End)
    requires if why == Stopped then k == attempts && Going(w, j, open, status, tr, k, n)
             else
               && k < attempts && Traced(w, j, open, tr) && |tr.tries| == k + 1 && |tr.at| == k + 2 && tr.at[k + 1] == n
               && (forall i :: 0 <= i <= k + 1 ==> tr.at[i] <= |j|) && GoesOn(w, j, status, tr, k)
               && EndsBy(w, j, status, tr, k, why)
    ensures Followed(w, j, open, status, attempts, tr, why) && n == tr.at[|tr.tries|]
  {
    hide Traced, GoesOn, EndsBy;
  }
}
