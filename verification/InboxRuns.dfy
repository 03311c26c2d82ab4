/** What the Inbox keeps over whole runs, and that reconciling the same page
    again changes nothing. */
module InboxRuns {
  import opened Common
  import opened InboxRows
  import opened Inbox

  /** Sound rows and a bounded history. */
  ghost predicate Good(s: Store) {
    Sound(s.items) && |SettledKeys(s.items)| <= MAX_SETTLED
  }

  // ---- one step ----------------------------------------------------------------------

  lemma {:induction false} MergedKeeps(p: Page, items: Items, k: string)
    requires Sound(items) && k in items && items[k].lifecycle != Active
    ensures k in Merged(p, items)
    ensures var row := Merged(p, items)[k];
            || row.lifecycle == items[k].lifecycle
            || (k in p.incoming && p.incoming[k].active && row.lifecycle == Active)
            || (k in p.incoming && p.known && row.lifecycle == Unsettled
                && !SameRevision(Some(items[k]), Find(p.memory, k), p.incoming[k])
                && !Stale(p.source, items[k], p.incoming[k]))
  {
  }

  /** A page's row for a key that has none: a running workflow, quiet history, or
      a revision the source does not remember. */
  lemma {:induction false} MergedAdds(p: Page, items: Items, k: string)
    requires k !in items && k in Merged(p, items)
    ensures k in p.incoming
    ensures var row := Merged(p, items)[k];
            || (p.incoming[k].active && row.lifecycle == Active)
            || (!p.known && row.lifecycle == Settled)
            || (p.known && row.lifecycle == Unsettled && Find(p.memory, k) != Some(p.incoming[k].revision))
  {
  }

  /** The source remembers this revision of the key, in tables within their caps. */
  ghost predicate Recalls(s: Store, source: string, k: string, revision: string) {
    && |s.revisions.Keys| <= MAX_SOURCES
    && source in s.revisions && |s.revisions[source].Keys| <= MAX_REVISIONS
    && Find(s.revisions[source], k) == Some(revision)
  }

  /** News of `k` from a source with a baseline: a revision that the source does
      not remember and that is neither the row's own nor older than it. */
  ghost predicate FreshNews(s: Store, step: Step, k: string) {
    && step.ReconcileSource? && step.source != "" && step.source in s.revisions
    && var incoming := NewestMap(Tag(step.rows, step.source));
       && k in incoming
       && !Recalls(s, step.source, k, incoming[k].revision)
       && (k in s.items ==>
             incoming[k].revision != s.items[k].revision && !Stale(step.source, s.items[k], incoming[k]))
  }

  ghost predicate Settles(step: Step, k: string) {
    (step.Settle? && step.key == k && step.settled) || step.SettleEverything?
  }

  ghost predicate Unsettles(step: Step, k: string) {
    step.Settle? && step.key == k && !step.settled
  }

  lemma {:induction false} ReconcileKeeps(js: Engine, s: Store, step: Step, k: string)
    requires Enumerates(js) && Good(s) && step.ReconcileSource?
    requires k in s.items && s.items[k].lifecycle != Active
    ensures var t := Apply(js, s, step);
            || (k !in t.items && s.items[k].lifecycle == Settled)
            || Is(t, k, s.items[k].lifecycle)
            || (Lists(step, k, true) && Is(t, k, Active))
            || (FreshNews(s, step, k) && Is(t, k, Unsettled))
  {
    hide Prune, Merged, NormalizeRevisions, Fill, MemoryKeys, Revised, NewestMap, Tag;
    PruneBounds(js, s.items);
    var items := Prune(js, s.items);
    if step.source != "" {
      var revs := NormalizeRevisions(js, s.revisions);
      RecalledPage(js, s, step.source);
      var p := PageOf(revs, step.source, step.rows, step.stamp);
      MergedKeeps(p, items, k);
      PruneBounds(Later(js), Merged(p, items));
    }
  }

  lemma {:induction false} ReconcileAdds(js: Engine, s: Store, step: Step, k: string)
    requires Enumerates(js) && Good(s) && step.ReconcileSource? && k !in s.items
    ensures var t := Apply(js, s, step);
            || k !in t.items
            || Is(t, k, Settled)
            || (Lists(step, k, true) && Is(t, k, Active))
            || (FreshNews(s, step, k) && Is(t, k, Unsettled))
  {
    hide Prune, Merged, NormalizeRevisions, Fill, MemoryKeys, Revised, NewestMap, Tag;
    PruneBounds(js, s.items);
    var items := Prune(js, s.items);
    if step.source != "" {
      var revs := NormalizeRevisions(js, s.revisions);
      RecalledPage(js, s, step.source);
      var p := PageOf(revs, step.source, step.rows, step.stamp);
      PruneBounds(Later(js), Merged(p, items));
      if k in Merged(p, items) {
        MergedAdds(p, items, k);
      }
    }
  }

  /** Reading the tables back invents no source, and keeps what is recalled. */
  lemma {:induction false} RecalledPage(js: Engine, s: Store, source: string)
    requires Enumerates(js)
    ensures source in NormalizeRevisions(js, s.revisions) ==> source in s.revisions
    ensures forall k, r :: Recalls(s, source, k, r) ==>
              source in NormalizeRevisions(js, s.revisions)
              && NormalizeRevisions(js, s.revisions)[source] == s.revisions[source]
  {
    assert Enumeration(Order(js, InSources, s.revisions.Keys), s.revisions.Keys);
    if source in s.revisions {
      assert Enumeration(Order(js, InMemory(source), s.revisions[source].Keys), s.revisions[source].Keys);
    }
  }

  /** An unsettled row leaves that state only because the user settled it or its
      workflow is running again. */
  lemma {:induction false} UnsettledStays(s: Store, step: Step, t: Store, k: string)
    requires Good(s) && Next(s, step, t) && Is(s, k, Unsettled)
    ensures Is(t, k, Unsettled) || Settles(step, k) || (Lists(step, k, true) && Is(t, k, Active))
  {
    hide Prune, Reconcile, Lists;
    var js :| Enumerates(js) && t == Apply(js, s, step);
    PruneBounds(js, s.items);
    if step.ReconcileSource? {
      ReconcileKeeps(js, s, step, k);
    } else if step.Settle? {
      SettlementFrame(js, s.items, step.key, step.settled, step.at);
    }
  }

  lemma {:induction false} SettlementFrame(js: Engine, items0: Items, key: string, settled: bool, at: Option<int>)
    requires Enumerates(js)
    ensures var items := Prune(js, items0);
            var t := SetSettlement(js, items0, key, settled, at);
            && (forall k :: k in t ==> k in items && (k != key ==> t[k] == items[k]))
            && (forall k :: k in items && k !in t ==> items[k].lifecycle == Settled || (k == key && settled))
            && (key in t ==> t[key].lifecycle == items[key].lifecycle || t[key].lifecycle == if settled then Settled else Unsettled)
  {
    hide Kept;
    var items := Prune(js, items0);
    if key in items && !items[key].active {
      PruneBounds(Later(js), items[key := Resettled(items[key], settled, at)]);
    }
  }

  /** A settled row wakes only by the user, by activity, or by fresh news. */
  lemma {:induction false} SettledWakes(s: Store, step: Step, t: Store, k: string)
    requires Good(s) && Next(s, step, t) && Is(s, k, Settled)
    ensures Is(t, k, Unsettled) ==> Unsettles(step, k) || FreshNews(s, step, k)
    ensures Is(t, k, Active) ==> Lists(step, k, true)
  {
    hide Prune, Reconcile, Lists, FreshNews;
    var js :| Enumerates(js) && t == Apply(js, s, step);
    PruneBounds(js, s.items);
    match step {
      case ReconcileSource(_, _, _) => ReconcileKeeps(js, s, step, k);
      case Settle(key, settled, at) => SettlementFrame(js, s.items, key, settled, at);
      case SettleEverything(at) =>
        var items := Prune(js, s.items);
        PruneBounds(Later(js), map q | q in items :: SettledRow(items[q], at));
      case DropSources(_) =>
    }
  }

  /** A source's first successful page is quiet: it never makes a row unsettled
      that was not, and what it adds is history or a running workflow. */
  lemma {:induction false} BaselineIsQuiet(js: Engine, s: Store, source: string, rows: seq<Row>, stamp: Option<int>, k: string)
    requires Enumerates(js) && Good(s) && source !in NormalizeRevisions(js, s.revisions)
    ensures Is(Reconcile(js, s, source, rows, stamp), k, Unsettled) ==> Is(s, k, Unsettled)
  {
    hide Prune, Merged, NormalizeRevisions, Fill, MemoryKeys, Revised, NewestMap, Tag;
    PruneBounds(js, s.items);
    if source != "" {
      var p := PageOf(NormalizeRevisions(js, s.revisions), source, rows, stamp);
      if k in Merged(p, s.items) && Merged(p, s.items)[k].lifecycle == Unsettled {
        QuietRow(p, s.items, k);
      }
      PruneBounds(Later(js), Merged(p, s.items));
    }
  }

  lemma {:induction false} QuietRow(p: Page, items: Items, k: string)
    requires !p.known && k in Merged(p, items) && Merged(p, items)[k].lifecycle == Unsettled
    ensures k in items && items[k].lifecycle == Unsettled
  {
  }

  // ---- runs ------------------------------------------------------------------------------

  ghost predicate Run(states: seq<Store>, steps: seq<Step>) {
    && |states| == |steps| + 1
    && Good(states[0])
    && forall i :: 0 <= i < |steps| ==> Next(states[i], steps[i], states[i + 1])
  }

  lemma {:induction false} RunSound(states: seq<Store>, steps: seq<Step>, i: nat)
    requires Run(states, steps) && i <= |steps|
    ensures Good(states[i])
    decreases i
  {
    if i > 0 {
      RunSound(states, steps, i - 1);
      StepKeeps(states[i - 1], steps[i - 1], states[i]);
    }
  }

  /** However many pages, actions and source changes happen in between, an
      unsettled row that is neither settled by the user nor running again is
      still there and still unsettled. */
  lemma {:induction false} UnsettledNeverLost(states: seq<Store>, steps: seq<Step>, k: string, n: nat)
    requires Run(states, steps) && n <= |steps| && Is(states[0], k, Unsettled)
    requires forall i :: 0 <= i < n ==> !Settles(steps[i], k) && !Lists(steps[i], k, true)
    ensures Is(states[n], k, Unsettled)
    decreases n
  {
    hide Lists, Settles, Is;
    if n > 0 {
      UnsettledNeverLost(states, steps, k, n - 1);
      RunSound(states, steps, n - 1);
      UnsettledStays(states[n - 1], steps[n - 1], states[n], k);
    }
  }

  /** Settled, or pruned from the history. */
  ghost predicate Asleep(s: Store, k: string) {
    k !in s.items || s.items[k].lifecycle == Settled
  }

  lemma {:induction false} SleepsOn(s: Store, step: Step, t: Store, k: string)
    requires Good(s) && Next(s, step, t) && Asleep(s, k)
    ensures Asleep(t, k) || Unsettles(step, k) || Lists(step, k, true) || FreshNews(s, step, k)
  {
    hide Prune, Reconcile, Lists, FreshNews;
    if k in s.items {
      SettledWakes(s, step, t, k);
    } else {
      var js :| Enumerates(js) && t == Apply(js, s, step);
      PruneBounds(js, s.items);
      match step {
        case ReconcileSource(_, _, _) => ReconcileAdds(js, s, step, k);
        case Settle(key, settled, at) => SettlementFrame(js, s.items, key, settled, at);
        case SettleEverything(at) =>
          var items := Prune(js, s.items);
          PruneBounds(Later(js), map q | q in items :: SettledRow(items[q], at));
        case DropSources(_) =>
      }
    }
  }

  /** Retained or pruned, a settled row sleeps until one of the three causes wakes
      it. */
  lemma {:induction false} SettledUntilWoken(states: seq<Store>, steps: seq<Step>, k: string, n: nat)
    requires Run(states, steps) && n <= |steps| && Asleep(states[0], k)
    requires forall i :: 0 <= i < n ==> !Unsettles(steps[i], k) && !Lists(steps[i], k, true)
    requires forall i :: 0 <= i < n ==> !FreshNews(states[i], steps[i], k)
    ensures Asleep(states[n], k)
    decreases n
  {
    hide Lists, FreshNews, Asleep;
    if n > 0 {
      SettledUntilWoken(states, steps, k, n - 1);
      RunSound(states, steps, n - 1);
      SleepsOn(states[n - 1], steps[n - 1], states[n], k);
    }
  }

  // ---- the same page again ------------------------------------------------------------

  /** The source's tables are within their caps. */
  ghost predicate WithinCaps(revs: map<string, Revs>) {
    && |revs.Keys| <= MAX_SOURCES
    && forall s :: s in revs ==> |revs[s].Keys| <= MAX_REVISIONS && forall k :: k in revs[s] ==> revs[s][k] != ""
  }

  lemma {:induction false} NormalizeIdentity(js: Engine, revs: map<string, Revs>)
    requires Enumerates(js) && WithinCaps(revs)
    ensures NormalizeRevisions(js, revs) == revs
  {
    assert Enumeration(Order(js, InSources, revs.Keys), revs.Keys);
    forall s | s in revs
      ensures CapRevs(js, s, revs[s]) == revs[s]
    {
      assert Enumeration(Order(js, InMemory(s), revs[s].Keys), revs[s].Keys);
    }
  }

  /** Below the cap nothing is forgotten, whatever the order. */
  lemma {:induction false} FillAll(revised: Revs, keys: seq<string>)
    requires |revised.Keys| <= MAX_REVISIONS && forall k :: k in revised ==> revised[k] != ""
    ensures forall k :: k in Fill(revised, keys) <==> k in revised && k in keys
    ensures forall k :: k in Fill(revised, keys) ==> Fill(revised, keys)[k] == revised[k]
    decreases |keys|
  {
    if keys != [] {
      var n := |keys| - 1;
      FillAll(revised, keys[..n]);
      var out := Fill(revised, keys[..n]);
      assert keys == keys[..n] + [keys[n]];
      if keys[n] in revised && keys[n] !in out {
        assert out.Keys + {keys[n]} <= revised.Keys;
        SubsetBound(out.Keys + {keys[n]}, revised.Keys);
      }
    }
  }

  lemma {:induction false} MemoryIsRevised(js: Engine, p: Page, rows: seq<Row>, items: Items, merged: Items)
    requires Enumerates(js) && p.incoming == NewestMap(Tag(rows, p.source))
    requires |Revised(p, items).Keys| <= MAX_REVISIONS && forall k :: k in Revised(p, items) ==> Revised(p, items)[k] != ""
    ensures Fill(Revised(p, items), MemoryKeys(js, p, rows, merged)) == Revised(p, items)
  {
    hide Revised, Fill, MemoryKeys, NewestMap;
    var revised, keys := Revised(p, items), MemoryKeys(js, p, rows, merged);
    FillAll(revised, keys);
    MemoryKeysCover(js, p, rows, merged);
    RevisedKeys(p, items);
    assert forall k :: k in revised ==> k in keys;
  }

  lemma {:induction false} RevisedKeys(p: Page, items: Items)
    ensures Revised(p, items).Keys == p.memory.Keys + p.incoming.Keys
  {
  }

  lemma {:induction false} MemoryKeysCover(js: Engine, p: Page, rows: seq<Row>, merged: Items)
    requires Enumerates(js) && p.incoming == NewestMap(Tag(rows, p.source))
    ensures forall k :: k in p.memory.Keys + p.incoming.Keys ==> k in MemoryKeys(js, p, rows, merged)
  {
    hide NewestMap, KeyOrder, Tag;
    KeyOrderMatches(Tag(rows, p.source));
    assert Enumeration(Order(js, InMemory(p.source), p.memory.Keys), p.memory.Keys);
  }

  /** The page as the second reconcile sees it: the same rows, the memory the
      first one left, any time stamp. */
  function Again(p: Page, items: Items, stamp: Option<int>): Page {
    p.(known := true, stamp := stamp, memory := Revised(p, items))
  }

  ghost predicate Revisable(items: Items, incoming: Items) {
    && (forall k :: k in items ==> items[k].revision != "")
    && (forall k :: k in incoming ==> incoming[k].revision != "")
  }

  function Outcome(d: Decision, existing: Option<Row>): Option<Row> {
    match d case Put(row) => Some(row) case Skip(_) => existing
  }

  /** For one row, a second look at any time decides and remembers the same. */
  lemma {:induction false} DecideTwice(source: string, first: Option<int>, second: Option<int>, existing: Option<Row>,
                                       previous: Option<string>, row: Row)
    requires row.revision != "" && previous != Some("") && (existing.Some? ==> existing.value.revision != "")
    ensures var d := Decide(true, source, first, existing, previous, row);
            var e := Decide(true, source, second, Outcome(d, existing), Some(Remembered(d)), row);
            Outcome(e, Outcome(d, existing)) == Outcome(d, existing) && Remembered(e) == Remembered(d)
  {
  }

  lemma {:induction false} AgainSameRow(p: Page, items: Items, stamp: Option<int>, k: string)
    requires p.known && Revisable(items, p.incoming) && (k in p.memory ==> p.memory[k] != "")
    ensures MergedRow(Again(p, items, stamp), Merged(p, items), k) == MergedRow(p, items, k)
    ensures k in p.incoming ==>
              Remembered(DecideKey(Again(p, items, stamp), Merged(p, items), k)) == Remembered(DecideKey(p, items, k))
  {
    hide Decide;
    MergedAt(p, items, k);
    if k in p.incoming {
      assert Revised(p, items)[k] == Remembered(DecideKey(p, items, k));
      DecideTwice(p.source, p.stamp, stamp, Find(items, k), Find(p.memory, k), p.incoming[k]);
    }
  }

  lemma {:induction false} MergedAt(p: Page, items: Items, k: string)
    ensures Find(Merged(p, items), k) == MergedRow(p, items, k)
  {
  }

  lemma {:induction false} AgainSame(p: Page, items: Items, stamp: Option<int>)
    requires p.known && Revisable(items, p.incoming) && forall k :: k in p.memory ==> p.memory[k] != ""
    ensures Merged(Again(p, items, stamp), Merged(p, items)) == Merged(p, items)
    ensures Revised(Again(p, items, stamp), Merged(p, items)) == Revised(p, items)
  {
    hide MergedRow, DecideKey, Remembered, Merged, Revised, Revisable;
    var q, merged := Again(p, items, stamp), Merged(p, items);
    RevisedKeys(p, items);
    RevisedKeys(q, merged);
    forall k: string
      ensures Find(Merged(q, merged), k) == Find(merged, k)
    {
      AgainSameRow(p, items, stamp, k);
      MergedAt(q, merged, k);
      MergedAt(p, items, k);
    }
    SameMap(Merged(q, merged), merged);
    forall k | k in Revised(p, items)
      ensures Revised(q, merged)[k] == Revised(p, items)[k]
    {
      AgainSameRow(p, items, stamp, k);
      RevisedAt(p, items, k);
      RevisedAt(q, merged, k);
    }
  }

  lemma {:induction false} SameMap(a: Items, b: Items)
    requires forall k :: Find(a, k) == Find(b, k)
    ensures a == b
  {
    forall k: string
      ensures k in a <==> k in b
      ensures k in a ==> a[k] == b[k]
    {
      assert Find(a, k) == Find(b, k);
    }
  }

  lemma {:induction false} RevisedAt(p: Page, items: Items, k: string)
    requires k in p.memory || k in p.incoming
    ensures k in Revised(p, items)
    ensures Revised(p, items)[k] == if k in p.incoming then Remembered(DecideKey(p, items, k)) else p.memory[k]
  {
  }

  lemma {:induction false} SettledOnlyShrinks(p: Page, items: Items)
    requires p.known && |SettledKeys(items)| <= MAX_SETTLED
    ensures |SettledKeys(Merged(p, items))| <= MAX_SETTLED
  {
    hide Stale, SameRevision;
    SubsetBound(SettledKeys(Merged(p, items)), SettledKeys(items));
  }

  /** The first reconcile of a baselined source, below the caps: one merge, and
      nothing pruned from or forgotten after it. */
  lemma {:induction false} ReconcileKnown(js: Engine, s: Store, source: string, rows: seq<Row>, stamp: Option<int>)
    requires Enumerates(js) && source != "" && source in s.revisions && WithinCaps(s.revisions)
    requires Revisable(s.items, NewestMap(Tag(rows, source)))
    requires |s.revisions[source].Keys + NewestMap(Tag(rows, source)).Keys| <= MAX_REVISIONS
    ensures var items := Prune(js, s.items);
            var p := PageOf(s.revisions, source, rows, stamp);
            && Reconcile(js, s, source, rows, stamp) == Store(Merged(p, items), s.revisions[source := Revised(p, items)])
            && |SettledKeys(Merged(p, items))| <= MAX_SETTLED
            && Revisable(items, p.incoming)
            && |Revised(p, items).Keys| <= MAX_REVISIONS
            && (forall k :: k in Revised(p, items) ==> Revised(p, items)[k] != "")
  {
    hide Merged, NormalizeRevisions, NewestMap, Tag, Kept, MemoryKeys, Fill, Revised;
    var items := Prune(js, s.items);
    var p := PageOf(s.revisions, source, rows, stamp);
    PruneBounds(js, s.items);
    NormalizeIdentity(js, s.revisions);
    SettledOnlyShrinks(p, items);
    PruneBounds(Later(js), Merged(p, items));
    RevisedBound(p, items);
    MemoryIsRevised(Later(js), p, rows, items, Merged(p, items));
  }

  lemma {:induction false} RevisedBound(p: Page, items: Items)
    requires Revisable(items, p.incoming) && forall k :: k in p.memory ==> p.memory[k] != ""
    ensures Revised(p, items).Keys == p.memory.Keys + p.incoming.Keys
    ensures forall k :: k in Revised(p, items) ==> Revised(p, items)[k] != ""
  {
  }

  /** Reconciling the same page of a baselined source again, at any time and in
      any enumeration order, changes neither the Inbox nor the memory. */
  lemma {:induction false} ReconcileTwice(js: Engine, js2: Engine, s: Store, source: string, rows: seq<Row>,
                                          stamp: Option<int>, stamp2: Option<int>)
    requires Enumerates(js) && Enumerates(js2)
    requires source != "" && source in s.revisions && WithinCaps(s.revisions)
    requires Revisable(s.items, NewestMap(Tag(rows, source)))
    requires |s.revisions[source].Keys + NewestMap(Tag(rows, source)).Keys| <= MAX_REVISIONS
    ensures var once := Reconcile(js, s, source, rows, stamp);
            Reconcile(js2, once, source, rows, stamp2) == once
  {
    hide Merged, NewestMap, Tag, Kept, Prune, Reconcile, Revised, Revisable, WithinCaps, Again, SettledKeys;
    var items := Prune(js, s.items);
    var p := PageOf(s.revisions, source, rows, stamp);
    ReconcileKnown(js, s, source, rows, stamp);
    var once := Store(Merged(p, items), s.revisions[source := Revised(p, items)]);
    PruneBounds(js2, once.items);
    CapsKept(s.revisions, source, Revised(p, items));
    MergedRevisable(p, items);
    RevisedBound(p, items);
    PageAgain(s.revisions, source, rows, stamp, stamp2, items);
    ReconcileKnown(js2, once, source, rows, stamp2);
    AgainSame(p, items, stamp2);
  }

  lemma {:induction false} CapsKept(revs: map<string, Revs>, source: string, revised: Revs)
    requires WithinCaps(revs) && source in revs && |revised.Keys| <= MAX_REVISIONS
    requires forall k :: k in revised ==> revised[k] != ""
    ensures WithinCaps(revs[source := revised])
    ensures forall k :: k in revs[source] ==> revs[source][k] != ""
  {
  }

  lemma {:induction false} PageAgain(revs: map<string, Revs>, source: string, rows: seq<Row>, stamp: Option<int>, stamp2: Option<int>, items: Items)
    requires source in revs
    ensures var p := PageOf(revs, source, rows, stamp);
            PageOf(revs[source := Revised(p, items)], source, rows, stamp2) == Again(p, items, stamp2)
    ensures var p := PageOf(revs, source, rows, stamp);
            Revised(p, items).Keys + p.incoming.Keys == Revised(p, items).Keys
  {
  }

  lemma {:induction false} MergedRevisable(p: Page, items: Items)
    requires Revisable(items, p.incoming)
    ensures Revisable(Merged(p, items), p.incoming)
  {
  }
}
