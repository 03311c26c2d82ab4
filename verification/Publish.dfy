/** No-replace publication of an ISO and its checksum (pxe_publish.py): any
    number of publishers of one filename run interleaved, crash, or fail at any
    point. SHA-256 is taken to be injective, so a checksum names a content. */
module Publish {
  import opened Common

  type Bytes = seq<int>
  type Publisher = nat

  /** A hard link in the served directory: who linked it, and the ISO content it
      holds or, for a checksum file, names. */
  datatype Entry = Entry(owner: Publisher, content: Bytes)

  /** Where a publisher is between two looks at the shared directory. */
  datatype Pc =
    | Start            // about to look for the ISO
    | SawNoIso         // about to look for the checksum
    | Verifying        // a file exists: about to compare the ISO's digest
    | VerifyingSum     // the ISO matches: about to compare the checksum
    | Staging          // nothing exists: copying and checking the staged ISO
    | Ready            // staged: about to link the checksum
    | SumLinked        // about to link the ISO
    | Undoing          // linking the ISO failed: about to unlink the checksum
    | Linked           // both linked: about to sync the directory
    | Succeeded | Failed | Crashed

  datatype System = System(iso: Option<Entry>, sum: Option<Entry>, pcs: seq<Pc>)

  predicate Running(pc: Pc) {
    !pc.Succeeded? && !pc.Failed? && !pc.Crashed?
  }

  /** One step of publisher `i`, whose source ISO is `content`. */
  ghost predicate Step(s: System, i: Publisher, content: Bytes, t: System)
    requires i < |s.pcs|
  {
    var at := (pc: Pc) => s.(pcs := s.pcs[i := pc]);
    match s.pcs[i]
    case Start => t == at(if s.iso.Some? then Verifying else SawNoIso)
    case SawNoIso => t == at(if s.sum.Some? then Verifying else Staging)
    case Verifying => t == at(if s.iso.Some? && s.iso.value.content == content then VerifyingSum else Failed)
    case VerifyingSum => t == at(if s.sum.Some? && s.sum.value.content == content then Succeeded else Failed)
    case Staging => t == at(Ready) || t == at(Failed)
    case Ready =>
      // link() refuses an existing name; it may also fail by itself
      || t == at(Failed)
      || (s.sum.None? && t == at(SumLinked).(sum := Some(Entry(i, content))))
    case SumLinked =>
      || t == at(Undoing)
      || (s.iso.None? && t == at(Linked).(iso := Some(Entry(i, content))))
    case Undoing =>
      // unlink() may fail as well, and leaves the checksum
      t == at(Failed).(sum := None) || t == at(Failed)
    case Linked => t == at(Succeeded) || t == at(Failed)
    case _ => false
  }

  ghost predicate Next(isos: seq<Bytes>, s: System, t: System) {
    exists i :: Moves(isos, s, i, t)
  }

  ghost predicate Moves(isos: seq<Bytes>, s: System, i: Publisher, t: System) {
    && i < |s.pcs| == |isos|
    && (Step(s, i, isos[i], t) || (Running(s.pcs[i]) && t == s.(pcs := s.pcs[i := Crashed])))
  }

  function Initial(n: nat): System {
    System(None, None, seq(n, _ => Start))
  }

  ghost predicate Matches(e: Option<Entry>, i: Publisher, content: Bytes) {
    e == Some(Entry(i, content))
  }

  /** What one publisher's position promises about the directory. */
  ghost predicate Promise(isos: seq<Bytes>, s: System, i: Publisher)
    requires i < |s.pcs| == |isos|
  {
    match s.pcs[i]
    case VerifyingSum => s.iso.Some? && s.iso.value.content == isos[i]
    case SumLinked => s.iso.None? && Matches(s.sum, i, isos[i])
    case Undoing => s.iso.None? && Matches(s.sum, i, isos[i])
    case Linked => s.iso.Some? && s.iso.value.content == isos[i]
    case Succeeded => s.iso.Some? && s.iso.value.content == isos[i]
    case _ => true
  }

  /** The ISO is visible only beside the checksum its own publisher linked. */
  ghost predicate Invariant(isos: seq<Bytes>, s: System) {
    && |s.pcs| == |isos|
    && (s.iso.Some? ==> s.sum == s.iso)
    && (s.sum.Some? ==> s.sum.value.owner < |isos| && s.sum.value.content == isos[s.sum.value.owner])
    && (forall i: nat :: i < |isos| ==> Promise(isos, s, i))
  }

  /** Every step keeps the invariant; a visible pair is never replaced or
      removed; the ISO appears beside a checksum linked before it; and a
      checksum goes only by its own publisher's undo, with no ISO visible. */
  lemma {:induction false} StepKeeps(isos: seq<Bytes>, s: System, i: Publisher, t: System)
    requires Invariant(isos, s) && Moves(isos, s, i, t)
    ensures Invariant(isos, t)
    ensures s.iso.Some? ==> t.iso == s.iso && t.sum == s.sum
    ensures s.iso.None? && t.iso.Some? ==> s.sum == t.iso && t.iso.value.owner == i
    ensures s.sum.Some? && t.sum != s.sum ==>
              t.sum.None? && s.pcs[i].Undoing? && s.sum.value.owner == i && s.iso.None?
  {
    assert Promise(isos, s, i);
    forall k: nat | k < |isos|
      ensures Promise(isos, t, k)
    {
      assert Promise(isos, s, k);
    }
  }

  // ---- whole runs --------------------------------------------------------------------

  ghost predicate Run(isos: seq<Bytes>, states: seq<System>) {
    && states != [] && states[0] == Initial(|isos|)
    && forall k :: 0 < k < |states| ==> Next(isos, states[k - 1], states[k])
  }

  lemma {:induction false} RunInvariant(isos: seq<Bytes>, states: seq<System>, k: nat)
    requires Run(isos, states) && k < |states|
    ensures Invariant(isos, states[k])
    decreases k
  {
    if k > 0 {
      RunInvariant(isos, states, k - 1);
      var i :| Moves(isos, states[k - 1], i, states[k]) by { assert Next(isos, states[k - 1], states[k]); }
      StepKeeps(isos, states[k - 1], i, states[k]);
    }
  }

  /** Once the ISO is visible, the same pair is there for the rest of the run. */
  lemma {:induction false} PairIsPermanent(isos: seq<Bytes>, states: seq<System>, j: nat, k: nat)
    requires Run(isos, states) && j <= k < |states| && states[j].iso.Some?
    ensures states[k].iso == states[j].iso && states[k].sum == states[j].iso
    decreases k
  {
    hide Moves, Promise, Initial;
    RunInvariant(isos, states, j);
    if j < k {
      PairIsPermanent(isos, states, j, k - 1);
      RunInvariant(isos, states, k - 1);
      var i :| Moves(isos, states[k - 1], i, states[k]) by { assert Next(isos, states[k - 1], states[k]); }
      StepKeeps(isos, states[k - 1], i, states[k]);
    }
  }

  /** Every successful return has its own content and its checksum visible, then
      and ever after. */
  lemma {:induction false} SuccessIsVisible(isos: seq<Bytes>, states: seq<System>, j: nat, k: nat, i: Publisher)
    requires Run(isos, states) && j <= k < |states| && i < |isos|
    requires i < |states[j].pcs| && states[j].pcs[i].Succeeded?
    ensures states[k].iso.Some? && states[k].iso.value.content == isos[i] && states[k].sum == states[k].iso
  {
    RunInvariant(isos, states, j);
    assert Promise(isos, states[j], i);
    PairIsPermanent(isos, states, j, k);
  }

  /** Two publishers that both succeed published the same content. */
  lemma {:induction false} SuccessesAgree(isos: seq<Bytes>, states: seq<System>, k: nat, i: Publisher, j: Publisher)
    requires Run(isos, states) && k < |states| && i < |isos| && j < |isos| && |states[k].pcs| == |isos|
    requires states[k].pcs[i].Succeeded? && states[k].pcs[j].Succeeded?
    ensures isos[i] == isos[j]
  {
    SuccessIsVisible(isos, states, k, k, i);
    SuccessIsVisible(isos, states, k, k, j);
  }

  // ---- a checksum on its own ---------------------------------------------------------

  predicate BetweenLinks(pc: Pc) {
    pc.SumLinked? || pc.Undoing?
  }

  /** With step `m` publisher `i` gives up between the two links and leaves the
      checksum: it crashes there, or fails to undo the first link. */
  ghost predicate Abandons(states: seq<System>, i: Publisher, m: nat) {
    && 0 < m < |states| && i < |states[m - 1].pcs| == |states[m].pcs|
    && BetweenLinks(states[m - 1].pcs[i]) && !Running(states[m].pcs[i])
    && states[m].sum.Some?
  }

  /** A checksum whose publisher is over stays as it is, and no ISO joins it. */
  lemma {:induction false} LeftAlone(isos: seq<Bytes>, s: System, i: Publisher, m: Publisher, t: System)
    requires Invariant(isos, s) && Moves(isos, s, m, t)
    requires i < |s.pcs| && !Running(s.pcs[i]) && s.iso.None? && s.sum.Some? && s.sum.value.owner == i
    ensures i < |t.pcs| && t.pcs[i] == s.pcs[i] && t.iso.None? && t.sum == s.sum
  {
    assert Promise(isos, s, m);
  }

  /** Nobody can publish a name again whose checksum was left alone. */
  lemma {:induction false} OrphanBlocks(isos: seq<Bytes>, states: seq<System>, j: nat, k: nat, i: Publisher)
    requires Run(isos, states) && j <= k < |states| && i < |states[j].pcs|
    requires !Running(states[j].pcs[i]) && states[j].iso.None? && states[j].sum.Some? && states[j].sum.value.owner == i
    ensures i < |states[k].pcs| && states[k].pcs[i] == states[j].pcs[i]
    ensures states[k].sum == states[j].sum && states[k].iso.None?
    decreases k
  {
    hide Moves, Promise, Initial;
    if j < k {
      OrphanBlocks(isos, states, j, k - 1, i);
      RunInvariant(isos, states, k - 1);
      var m :| Moves(isos, states[k - 1], m, states[k]) by { assert Next(isos, states[k - 1], states[k]); }
      LeftAlone(isos, states[k - 1], i, m, states[k]);
    }
  }

  /** Giving up between the links leaves the giver's own checksum, alone. */
  lemma {:induction false} AbandonedIsAlone(isos: seq<Bytes>, states: seq<System>, i: Publisher, m: nat)
    requires Run(isos, states) && Abandons(states, i, m)
    ensures states[m].iso.None? && states[m].sum.Some? && states[m].sum.value.owner == i
  {
    hide Initial, Moves, Promise;
    RunInvariant(isos, states, m - 1);
    var n :| Moves(isos, states[m - 1], n, states[m]) by { assert Next(isos, states[m - 1], states[m]); }
    AbandonStep(isos, states[m - 1], i, n, states[m]);
  }

  lemma {:induction false} AbandonStep(isos: seq<Bytes>, s: System, i: Publisher, n: Publisher, t: System)
    requires Invariant(isos, s) && Moves(isos, s, n, t)
    requires i < |s.pcs| == |t.pcs| && BetweenLinks(s.pcs[i]) && !Running(t.pcs[i]) && t.sum.Some?
    ensures t.iso.None? && t.sum.value.owner == i
  {
    assert Promise(isos, s, i);
    assert n == i;
  }

  /** The owner of a lone checksum is between the links, or gave up there. */
  lemma {:induction false} LoneOwner(isos: seq<Bytes>, states: seq<System>, k: nat) returns (m: nat)
    requires Run(isos, states) && k < |states| && states[k].sum.Some? && states[k].iso.None?
    ensures var i := states[k].sum.value.owner;
            && i < |states[k].pcs|
            && (BetweenLinks(states[k].pcs[i]) || (m <= k && Abandons(states, i, m)))
    decreases k
  {
    hide Initial;
    RunInvariant(isos, states, k);
    m := k;
    if k == 0 {
      NothingYet(isos, states);
    } else {
      var s, t := states[k - 1], states[k];
      RunInvariant(isos, states, k - 1);
      var n :| Moves(isos, s, n, t) by { assert Next(isos, s, t); }
      assert Promise(isos, s, n);
      StepKeeps(isos, s, n, t);
      if s.sum.Some? {
        var before := LoneOwner(isos, states, k - 1);
        var i := t.sum.value.owner;
        if !BetweenLinks(s.pcs[i]) {
          m := before;
          AbandonedIsOver(isos, states, i, before, k);
        }
      }
    }
  }

  lemma NothingYet(isos: seq<Bytes>, states: seq<System>)
    requires Run(isos, states)
    ensures states[0].sum.None?
  {
  }

  /** Who is over stays over. */
  lemma {:induction false} AbandonedIsOver(isos: seq<Bytes>, states: seq<System>, i: Publisher, m: nat, k: nat)
    requires Run(isos, states) && Abandons(states, i, m) && m <= k < |states|
    ensures i < |states[k].pcs| && !Running(states[k].pcs[i])
  {
    AbandonedIsAlone(isos, states, i, m);
    OrphanBlocks(isos, states, m, k, i);
  }

  /** In every state of every run: a checksum stands alone exactly if some
      publisher is between the two links, or gave up there before. */
  lemma {:induction false} AloneExactly(isos: seq<Bytes>, states: seq<System>, k: nat)
    requires Run(isos, states) && k < |states|
    ensures states[k].sum.Some? && states[k].iso.None? <==>
              || (exists i: nat :: i < |states[k].pcs| && BetweenLinks(states[k].pcs[i]))
              || (exists i: nat, m: nat :: m <= k && Abandons(states, i, m))
  {
    hide Run, Abandons;
    RunInvariant(isos, states, k);
    if states[k].sum.Some? && states[k].iso.None? {
      var m := LoneOwner(isos, states, k);
    }
    forall i: nat | i < |states[k].pcs| && BetweenLinks(states[k].pcs[i])
      ensures states[k].sum.Some? && states[k].iso.None?
    {
      assert Promise(isos, states[k], i);
    }
    forall i: nat, m: nat | m <= k && Abandons(states, i, m)
      ensures states[k].sum.Some? && states[k].iso.None?
    {
      AbandonedIsAlone(isos, states, i, m);
      AbandonedHolds(isos, states, i, m, k);
    }
  }

  lemma {:induction false} AbandonedHolds(isos: seq<Bytes>, states: seq<System>, i: Publisher, m: nat, k: nat)
    requires Run(isos, states) && Abandons(states, i, m) && m <= k < |states|
    ensures states[k].sum.Some? && states[k].iso.None?
  {
    AbandonedIsAlone(isos, states, i, m);
    OrphanBlocks(isos, states, m, k, i);
  }

  /** One publisher up to its first link. */
  function Linking(content: Bytes): seq<System> {
    [System(None, None, [Start]), System(None, None, [SawNoIso]), System(None, None, [Staging]),
     System(None, None, [Ready]), System(None, Some(Entry(0, content)), [SumLinked])]
  }

  lemma {:induction false} LinkingRuns(content: Bytes)
    ensures Run([content], Linking(content))
  {
    var states := Linking(content);
    assert states[0].pcs == Initial(1).pcs;
    forall k | 0 < k < |states|
      ensures Next([content], states[k - 1], states[k])
    {
      assert Moves([content], states[k - 1], 0, states[k]);
    }
  }

  lemma {:induction false} RunMore(isos: seq<Bytes>, states: seq<System>, i: Publisher, t: System)
    requires Run(isos, states) && Moves(isos, states[|states| - 1], i, t)
    ensures Run(isos, states + [t])
  {
    hide Moves, Initial;
    forall k | 0 < k < |states + [t]|
      ensures Next(isos, (states + [t])[k - 1], (states + [t])[k])
    {
    }
  }

  /** Two runs that block a name: a crash after the first link, and a second link
      and an undo that both fail. */
  lemma {:induction false} NameBlocked(content: Bytes)
    ensures var crashed := Linking(content) + [System(None, Some(Entry(0, content)), [Crashed])];
            Run([content], crashed) && Abandons(crashed, 0, 5)
    ensures var failed := Linking(content) + [System(None, Some(Entry(0, content)), [Undoing]),
                                               System(None, Some(Entry(0, content)), [Failed])];
            Run([content], failed) && Abandons(failed, 0, 6)
  {
    var linking, sum := Linking(content), Some(Entry(0, content));
    LinkingRuns(content);
    RunMore([content], linking, 0, System(None, sum, [Crashed]));
    var undoing := linking + [System(None, sum, [Undoing])];
    RunMore([content], linking, 0, System(None, sum, [Undoing]));
    RunMore([content], undoing, 0, System(None, sum, [Failed]));
    assert undoing + [System(None, sum, [Failed])]
      == linking + [System(None, sum, [Undoing]), System(None, sum, [Failed])];
  }

  // ---- the served directory ----------------------------------------------------------

  datatype Outcome = Published | AlreadyThere | Refused | Mismatch | LinkFailed | UndoFailed | SyncFailed

  /** A sequence of steps that publisher `i` alone takes. */
  ghost predicate Alone(trace: seq<System>, i: Publisher, content: Bytes) {
    && |trace| > 0 && (forall k :: 0 <= k < |trace| ==> i < |trace[k].pcs|)
    && forall k :: 0 < k < |trace| ==> Step(trace[k - 1], i, content, trace[k])
  }

  lemma {:induction false} AloneMore(trace: seq<System>, i: Publisher, content: Bytes, t: System)
    requires Alone(trace, i, content) && i < |t.pcs| && Step(trace[|trace| - 1], i, content, t)
    ensures Alone(trace + [t], i, content)
  {
  }

  /** The directory as the file system calls of `publish` change it. A ghost field
      says where each publisher is, so that every call is one step. */
  class ServedDirectory {
    var iso: Option<Entry>
    var sum: Option<Entry>
    ghost var pcs: seq<Pc>

    ghost function State(): System
      reads this
    {
      System(iso, sum, pcs)
    }

    ghost predicate At(i: Publisher, pc: Pc)
      reads this
    {
      i < |pcs| && pcs[i] == pc
    }

    constructor (ghost publishers: nat)
      ensures State() == Initial(publishers)
    {
      iso, sum, pcs := None, None, seq(publishers, _ => Start);
    }

    method IsoExists(ghost i: Publisher, ghost content: Bytes) returns (found: bool)
      requires At(i, Start)
      modifies this`pcs
      ensures Step(old(State()), i, content, State()) && At(i, if found then Verifying else SawNoIso)
      ensures found == iso.Some?
    {
      found := iso.Some?;
      pcs := pcs[i := if found then Verifying else SawNoIso];
    }

    method SumExists(ghost i: Publisher, ghost content: Bytes) returns (found: bool)
      requires At(i, SawNoIso)
      modifies this`pcs
      ensures Step(old(State()), i, content, State()) && At(i, if found then Verifying else Staging)
      ensures found == sum.Some?
    {
      found := sum.Some?;
      pcs := pcs[i := if found then Verifying else Staging];
    }

    method IsoMatches(ghost i: Publisher, content: Bytes) returns (same: bool)
      requires At(i, Verifying)
      modifies this`pcs
      ensures Step(old(State()), i, content, State()) && At(i, if same then VerifyingSum else Failed)
      ensures same == (iso.Some? && iso.value.content == content)
    {
      same := iso.Some? && iso.value.content == content;
      pcs := pcs[i := if same then VerifyingSum else Failed];
    }

    method SumMatches(ghost i: Publisher, content: Bytes) returns (same: bool)
      requires At(i, VerifyingSum)
      modifies this`pcs
      ensures Step(old(State()), i, content, State()) && At(i, if same then Succeeded else Failed)
      ensures same == (sum.Some? && sum.value.content == content)
    {
      same := sum.Some? && sum.value.content == content;
      pcs := pcs[i := if same then Succeeded else Failed];
    }

    method Stage(ghost i: Publisher, content: Bytes, staged: Bytes) returns (same: bool)
      requires At(i, Staging)
      modifies this`pcs
      ensures Step(old(State()), i, content, State()) && At(i, if same then Ready else Failed) && same == (staged == content)
    {
      same := staged == content;
      pcs := pcs[i := if same then Ready else Failed];
    }

    /** `os.link`: refuses an existing name; `broken` is any other failure. */
    method LinkSum(i: Publisher, content: Bytes, broken: bool) returns (ok: bool)
      requires At(i, Ready)
      modifies this
      ensures Step(old(State()), i, content, State()) && At(i, if ok then SumLinked else Failed)
      ensures iso == old(iso) && ok == (!broken && old(sum).None?)
      ensures sum == if ok then Some(Entry(i, content)) else old(sum)
    {
      ok := !broken && sum.None?;
      if ok {
        sum := Some(Entry(i, content));
      }
      pcs := pcs[i := if ok then SumLinked else Failed];
    }

    method LinkIso(i: Publisher, content: Bytes, broken: bool) returns (ok: bool)
      requires At(i, SumLinked)
      modifies this
      ensures Step(old(State()), i, content, State()) && At(i, if ok then Linked else Undoing)
      ensures sum == old(sum) && ok == (!broken && old(iso).None?)
      ensures iso == if ok then Some(Entry(i, content)) else old(iso)
    {
      ok := !broken && iso.None?;
      if ok {
        iso := Some(Entry(i, content));
      }
      pcs := pcs[i := if ok then Linked else Undoing];
    }

    method UnlinkSum(ghost i: Publisher, ghost content: Bytes, broken: bool)
      requires At(i, Undoing)
      modifies this
      ensures Step(old(State()), i, content, State()) && At(i, Failed) && iso == old(iso)
      ensures sum == if broken then old(sum) else None
    {
      if !broken {
        sum := None;
      }
      pcs := pcs[i := Failed];
    }

    method SyncDirectory(ghost i: Publisher, ghost content: Bytes, broken: bool)
      requires At(i, Linked)
      modifies this`pcs
      ensures Step(old(State()), i, content, State()) && At(i, if broken then Failed else Succeeded)
    {
      pcs := pcs[i := if broken then Failed else Succeeded];
    }

    /** Files are there: are they exactly the ones to publish? */
    method Verify(ghost i: Publisher, content: Bytes, ghost before: seq<System>) returns (same: bool, ghost trace: seq<System>)
      requires At(i, Verifying) && before != [] && Alone(before, i, content) && before[|before| - 1] == State()
      modifies this`pcs
      ensures trace != [] && Alone(trace, i, content) && trace[0] == before[0] && trace[|trace| - 1] == State()
      ensures At(i, if same then Succeeded else Failed)
      ensures same <==> iso.Some? && sum.Some? && iso.value.content == content && sum.value.content == content
    {
      hide Alone, Step;
      same := IsoMatches(i, content);
      trace := Extended(before, i, content, State());
      if same {
        same := SumMatches(i, content);
        trace := Extended(trace, i, content, State());
      }
    }

    /** Neither file is there: stage, link the checksum, link the ISO, sync; undo
        the first link if the second fails. */
    method LinkBoth(i: Publisher, content: Bytes, staged: Bytes, brokenSum: bool, brokenIso: bool, brokenUndo: bool,
                    brokenSync: bool, ghost before: seq<System>)
        returns (r: Outcome, ghost trace: seq<System>)
      requires At(i, Staging) && before != [] && Alone(before, i, content) && before[|before| - 1] == State()
      modifies this
      ensures trace != [] && Alone(trace, i, content) && trace[0] == before[0] && trace[|trace| - 1] == State()
      ensures At(i, if r.Published? then Succeeded else Failed) && !r.AlreadyThere? && !r.Refused?
      ensures r.Published? || r.SyncFailed? <==>
                old(iso).None? && old(sum).None? && staged == content && !brokenSum && !brokenIso
      ensures r.Published? || r.SyncFailed? ==> iso == sum == Some(Entry(i, content))
      ensures r.UndoFailed? <==>
                old(sum).None? && staged == content && !brokenSum && (brokenIso || old(iso).Some?) && brokenUndo
      ensures r.UndoFailed? ==> iso == old(iso) && sum == Some(Entry(i, content))
      ensures !(r.Published? || r.SyncFailed? || r.UndoFailed?) ==> iso == old(iso) && sum == old(sum)
    {
      hide Alone, Step;
      var ok := Stage(i, content, staged);
      trace := Extended(before, i, content, State());
      if !ok {
        return Mismatch, trace;
      }
      ok := LinkSum(i, content, brokenSum);
      trace := Extended(trace, i, content, State());
      if !ok {
        return LinkFailed, trace;
      }
      ok := LinkIso(i, content, brokenIso);
      trace := Extended(trace, i, content, State());
      if !ok {
        UnlinkSum(i, content, brokenUndo);
        trace := Extended(trace, i, content, State());
        return if brokenUndo then UndoFailed else LinkFailed, trace;
      }
      SyncDirectory(i, content, brokenSync);
      trace := Extended(trace, i, content, State());
      r := if brokenSync then SyncFailed else Published;
    }

    /** The whole of `publish`, with nobody in between: a run of its own steps to
        the end, all or nothing unless the undo fails too. */
    method PublishIso(i: Publisher, content: Bytes, staged: Bytes, brokenSum: bool, brokenIso: bool, brokenUndo: bool,
                      brokenSync: bool)
        returns (r: Outcome, ghost trace: seq<System>)
      requires At(i, Start)
      modifies this
      ensures trace != [] && Alone(trace, i, content) && trace[0] == old(State()) && trace[|trace| - 1] == State()
      ensures At(i, if r.Published? || r.AlreadyThere? then Succeeded else Failed)
      ensures r.Published? || r.SyncFailed? <==>
                old(iso).None? && old(sum).None? && staged == content && !brokenSum && !brokenIso
      ensures r.Published? || r.SyncFailed? ==> iso == sum == Some(Entry(i, content))
      ensures r.UndoFailed? <==>
                old(iso).None? && old(sum).None? && staged == content && !brokenSum && brokenIso && brokenUndo
      ensures r.UndoFailed? ==> iso.None? && sum == Some(Entry(i, content))
      ensures !(r.Published? || r.SyncFailed? || r.UndoFailed?) ==> iso == old(iso) && sum == old(sum)
      ensures r.AlreadyThere? <==>
                old(iso).Some? && old(sum).Some? && old(iso).value.content == content && old(sum).value.content == content
      ensures r.Refused? <==> (old(iso).Some? || old(sum).Some?) && !r.AlreadyThere?
    {
      hide Alone, Step;
      trace := Begun(State(), i, content);
      var found := IsoExists(i, content);
      trace := Extended(trace, i, content, State());
      if !found {
        found := SumExists(i, content);
        trace := Extended(trace, i, content, State());
      }
      if found {
        var same;
        same, trace := Verify(i, content, trace);
        r := if same then AlreadyThere else Refused;
      } else {
        r, trace := LinkBoth(i, content, staged, brokenSum, brokenIso, brokenUndo, brokenSync, trace);
      }
    }
  }

  lemma {:induction false} Begun(s: System, i: Publisher, content: Bytes) returns (trace: seq<System>)
    requires i < |s.pcs|
    ensures Alone(trace, i, content) && trace == [s]
  {
    trace := [s];
  }

  lemma {:induction false} Extended(before: seq<System>, i: Publisher, content: Bytes, t: System) returns (trace: seq<System>)
    requires Alone(before, i, content) && before != [] && i < |before[|before| - 1].pcs|
    requires i < |t.pcs| && Step(before[|before| - 1], i, content, t)
    ensures Alone(trace, i, content) && trace == before + [t]
  {
    trace := before + [t];
    AloneMore(before, i, content, t);
  }
}
