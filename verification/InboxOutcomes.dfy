/** What a page and a user action bring about, entity by entity: which rows wake,
    run, end, stay and go. */
module InboxOutcomes {
  import opened Common
  import opened InboxRows
  import opened Inbox
  import opened InboxRuns
  import opened InboxMemory

  /** The rows of a page, one per entity. */
  function Incoming(step: Step): Items
    requires step.ReconcileSource?
  {
    NewestMap(Tag(step.rows, step.source))
  }

  /** A page of a source with a baseline, in tables within their caps. */
  ghost predicate KnownPage(s: Store, step: Step) {
    && step.ReconcileSource? && step.source != "" && step.source in s.revisions
    && |s.revisions.Keys| <= MAX_SOURCES && |s.revisions[step.source].Keys| <= MAX_REVISIONS
  }

  /** The page brings a revision of the entity that neither its row nor the
      source's memory has. */
  ghost predicate Changed(s: Store, step: Step, k: string)
    requires KnownPage(s, step) && k in Incoming(step)
  {
    && Find(s.revisions[step.source], k) != Some(Incoming(step)[k].revision)
    && (k in s.items ==> s.items[k].revision != Incoming(step)[k].revision)
  }

  /** ... but an older one than the row. */
  ghost predicate Lags(s: Store, step: Step, k: string)
    requires KnownPage(s, step) && k in Incoming(step)
  {
    Changed(s, step, k) && k in s.items && Stale(step.source, s.items[k], Incoming(step)[k])
  }

  /** The page's row, with the given standing in the Inbox. */
  ghost predicate Shown(t: Store, k: string, row: Row, lifecycle: Lifecycle, noticedAt: Option<int>, settledAt: Option<int>) {
    k in t.items && t.items[k] == row.(lifecycle := lifecycle, noticedAt := noticedAt, settledAt := settledAt)
  }

  /** A page of a known source only ever wakes rows, so nothing is pruned. */
  lemma {:induction false} KnownPageMerges(js: Engine, s: Store, step: Step)
    requires Enumerates(js) && Good(s) && KnownPage(s, step)
    ensures var p := PageOf(s.revisions, step.source, step.rows, step.stamp);
            Apply(js, s, step).items == Merged(p, s.items)
  {
    hide Prune, Merged, NormalizeRevisions, Fill, MemoryKeys, Revised, NewestMap, Tag, SettledKeys, Sound;
    PruneBounds(js, s.items);
    SourcesRead(js, s);
    WholeMemory(js, s, step.source);
    var p := PageOf(NormalizeRevisions(js, s.revisions), step.source, step.rows, step.stamp);
    SettledOnlyShrinks(p, s.items);
    PruneBounds(Later(js), Merged(p, s.items));
  }

  lemma {:induction false} WholeMemory(js: Engine, s: Store, source: string)
    requires Enumerates(js) && source in s.revisions && |s.revisions.Keys| <= MAX_SOURCES
    requires |s.revisions[source].Keys| <= MAX_REVISIONS
    ensures source in NormalizeRevisions(js, s.revisions) && NormalizeRevisions(js, s.revisions)[source] == s.revisions[source]
  {
    assert Enumeration(Order(js, InSources, s.revisions.Keys), s.revisions.Keys);
    assert Enumeration(Order(js, InMemory(source), s.revisions[source].Keys), s.revisions[source].Keys);
  }

  /** What a page of a known source does to an entity it lists. */
  lemma {:induction false} ListedOutcome(js: Engine, s: Store, step: Step, k: string)
    requires Enumerates(js) && Good(s) && KnownPage(s, step) && k in Incoming(step)
    ensures var t, row := Apply(js, s, step), Incoming(step)[k];
            var noticed := if step.stamp.Some? then step.stamp else row.at;
            // an older snapshot is ignored
            if Lags(s, step, k) then k in t.items && t.items[k] == s.items[k]
            // a running workflow is shown as running, noticed when it first was
            else if row.active then
              Shown(t, k, row, Active, if k in s.items then s.items[k].noticedAt else noticed, None)
            // news wakes the row, settled or not
            else if Changed(s, step, k) then Shown(t, k, row, Unsettled, noticed, None)
            // an unchanged row that the history dropped stays away
            else if k !in s.items then k !in t.items
            // a workflow that ended asks for attention
            else if s.items[k].lifecycle == Active then Shown(t, k, row, Unsettled, noticed, None)
            // and an unchanged row stands as it stood
            else Shown(t, k, row, s.items[k].lifecycle, s.items[k].noticedAt, s.items[k].settledAt)
  {
    hide Prune, NormalizeRevisions, Fill, MemoryKeys, Revised, NewestMap, Tag, SettledKeys, Reconcile, Merged;
    KnownPageMerges(js, s, step);
    MergedAt(PageOf(s.revisions, step.source, step.rows, step.stamp), s.items, k);
  }

  /** And to one that it does not list: a live workflow of that source is gone,
      everything else stands as it stood. */
  lemma {:induction false} UnlistedOutcome(js: Engine, s: Store, step: Step, k: string)
    requires Enumerates(js) && Good(s) && KnownPage(s, step) && k !in Incoming(step)
    ensures Find(Apply(js, s, step).items, k)
            == if k in s.items && s.items[k].source == step.source && s.items[k].lifecycle == Active then None
               else Find(s.items, k)
  {
    hide Prune, NormalizeRevisions, Fill, MemoryKeys, Revised, NewestMap, Tag, SettledKeys, Reconcile, Merged;
    KnownPageMerges(js, s, step);
    MergedAt(PageOf(s.revisions, step.source, step.rows, step.stamp), s.items, k);
  }

  /** The first page of a source: running workflows are shown, rows that already
      stand keep their standing, and everything new is history at once, of which
      pruning may drop some. */
  lemma {:induction false} BaselineOutcome(js: Engine, s: Store, step: Step, k: string)
    requires Enumerates(js) && Good(s) && step.ReconcileSource? && step.source != ""
    requires step.source !in NormalizeRevisions(js, s.revisions) && k in Incoming(step)
    requires k in s.items ==> s.items[k].revision == Incoming(step)[k].revision || !Stale(step.source, s.items[k], Incoming(step)[k])
    ensures var t, row := Apply(js, s, step), Incoming(step)[k];
            var noticed := if step.stamp.Some? then step.stamp else row.at;
            if row.active then Shown(t, k, row, Active, noticed, None)
            else if k in s.items && s.items[k].lifecycle == Unsettled then
              Shown(t, k, row, Unsettled, s.items[k].noticedAt, s.items[k].settledAt)
            else if k in s.items && s.items[k].lifecycle == Settled then
              k in t.items ==> Shown(t, k, row, Settled, s.items[k].noticedAt, s.items[k].settledAt)
            else k in t.items ==> Shown(t, k, row, Settled, noticed, noticed)
  {
    hide Prune, NormalizeRevisions, Fill, MemoryKeys, Revised, NewestMap, Tag, SettledKeys, Merged;
    PruneBounds(js, s.items);
    var p := PageOf(NormalizeRevisions(js, s.revisions), step.source, step.rows, step.stamp);
    MergedAt(p, s.items, k);
    PruneBounds(Later(js), Merged(p, s.items));
  }

  /** Afterwards the source has a baseline, and remembers of each entity of its
      first 400 what was decided: the page's revision, or where that lagged the
      one it remembered, or the row's. */
  lemma {:induction false} PageIsRemembered(js: Engine, s: Store, step: Step, n: nat)
    requires Enumerates(js) && Good(s) && KnownPage(s, step) && WithinCaps(s.revisions)
    requires Revisable(s.items, Incoming(step))
    requires n < |KeyOrder(Tag(step.rows, step.source))| && n < MAX_REVISIONS
    ensures var t, k := Apply(js, s, step), KeyOrder(Tag(step.rows, step.source))[n];
            && step.source in t.revisions && k in Incoming(step)
            && Find(t.revisions[step.source], k)
               == Some(if !Lags(s, step, k) then Incoming(step)[k].revision
                       else if k in s.revisions[step.source] then s.revisions[step.source][k]
                       else s.items[k].revision)
  {
    hide Prune, NormalizeRevisions, Fill, NewestMap, Tag, SettledKeys, Merged, Revised, KeyOrder, OfSource, Sound;
    PruneBounds(js, s.items);
    NormalizeIdentity(js, s.revisions);
    KeyOrderMatches(Tag(step.rows, step.source));
    var k := KeyOrder(Tag(step.rows, step.source))[n];
    assert k in KeyOrder(Tag(step.rows, step.source));
    var p := PageOf(s.revisions, step.source, step.rows, step.stamp);
    RememberedAs(s, step, k);
    RevisedAt(p, s.items, k);
    RevisedBound(p, s.items);
    var keys := MemoryKeys(Later(js), p, step.rows, Merged(p, s.items));
    assert keys[n] == k;
    FillEarly(Revised(p, s.items), keys, n);
    FillBounded(Revised(p, s.items), keys);
  }

  lemma {:induction false} RememberedAs(s: Store, step: Step, k: string)
    requires KnownPage(s, step) && WithinCaps(s.revisions) && k in Incoming(step)
    ensures var p := PageOf(s.revisions, step.source, step.rows, step.stamp);
            Remembered(DecideKey(p, s.items, k))
            == if !Lags(s, step, k) then Incoming(step)[k].revision
               else if k in s.revisions[step.source] then s.revisions[step.source][k]
               else s.items[k].revision
  {
    hide NewestMap, Tag;
  }

  /** The rows of the source itself come before what it only remembers: as long
      as the page and they fit, they are not forgotten. */
  lemma {:induction false} OwnRowsRemembered(js: Engine, s: Store, step: Step, k: string)
    requires Enumerates(js) && Good(s) && KnownPage(s, step) && WithinCaps(s.revisions) && Revisable(s.items, Incoming(step))
    requires var t := Apply(js, s, step).items;
             && k in t && t[k].source == step.source && (k in s.revisions[step.source] || k in Incoming(step))
             && |KeyOrder(Tag(step.rows, step.source))| + |OfSource(t, step.source)| <= MAX_REVISIONS
    ensures var t := Apply(js, s, step); step.source in t.revisions && k in t.revisions[step.source]
  {
    hide Prune, NormalizeRevisions, Fill, NewestMap, Tag, SettledKeys, Merged, Revised, KeyOrder, Sound, MemoryKeys, OfSource;
    KnownPageMerges(js, s, step);
    PruneBounds(js, s.items);
    NormalizeIdentity(js, s.revisions);
    var p := PageOf(s.revisions, step.source, step.rows, step.stamp);
    var merged := Merged(p, s.items);
    RevisedBound(p, s.items);
    OwnRowsEarly(Later(js), p, step.rows, merged, Revised(p, s.items), k);
  }

  lemma {:induction false} OwnRowsEarly(js: Engine, p: Page, rows: seq<Row>, merged: Items, revised: Revs, k: string)
    requires Enumerates(js) && k in merged && merged[k].source == p.source && k in revised && revised[k] != ""
    requires |KeyOrder(Tag(rows, p.source))| + |OfSource(merged, p.source)| <= MAX_REVISIONS
    ensures k in Fill(revised, MemoryKeys(js, p, rows, merged))
  {
    hide Fill, Tag, KeyOrder;
    var order, mine := KeyOrder(Tag(rows, p.source)), Order(js, InItems, OfSource(merged, p.source));
    assert Enumeration(mine, OfSource(merged, p.source));
    var keys := MemoryKeys(js, p, rows, merged);
    assert k in OfSource(merged, p.source) && k in mine;
    var n :| 0 <= n < |mine| && mine[n] == k;
    assert keys[|order| + n] == k;
    FillEarly(revised, keys, |order| + n);
  }

  // ---- user actions -----------------------------------------------------------------------

  /** Settling a row that is not running settles it, at the given time or else
      the time it had, unless the history drops it at once; unsettling wakes it. */
  lemma {:induction false} SettleOutcome(js: Engine, s: Store, key: string, settled: bool, at: Option<int>)
    requires Enumerates(js) && Good(s)
    ensures var t := Apply(js, s, Settle(key, settled, at)).items;
            if key !in s.items || s.items[key].active then t == s.items
            else
              var row := s.items[key];
              && (!settled ==> key in t && t[key] == row.(lifecycle := Unsettled, settledAt := None))
              && (settled && key in t ==>
                    t[key] == row.(lifecycle := Settled,
                                   settledAt := if at.Some? then at else if row.settledAt.Some? then row.settledAt else row.noticedAt))
              && (forall k :: k in s.items && k != key && s.items[k].lifecycle != Settled ==> k in t && t[k] == s.items[k])
              && (forall k :: k in t && k != key ==> k in s.items && t[k] == s.items[k])
              && (settled && |SettledKeys(s.items) + {key}| <= MAX_SETTLED ==> t.Keys == s.items.Keys)
  {
    hide Prune, SettledKeys, Sound;
    PruneBounds(js, s.items);
    if key in s.items && !s.items[key].active {
      var after := s.items[key := Resettled(s.items[key], settled, at)];
      PruneBounds(Later(js), after);
      if settled {
        OneMoreSettled(s.items, key, after);
      }
    }
  }

  lemma {:induction false} OneMoreSettled(items: Items, key: string, after: Items)
    requires key in items && key in after && after == items[key := after[key]] && after[key].lifecycle == Settled
    ensures SettledKeys(after) == SettledKeys(items) + {key} && after.Keys == items.Keys
  {
  }

  /** Settling everything leaves no row unsettled that is not running, touches no
      other, and drops only history. */
  lemma {:induction false} SettleAllOutcome(js: Engine, s: Store, at: Option<int>)
    requires Enumerates(js) && Good(s)
    ensures var t := Apply(js, s, SettleEverything(at)).items;
            && (forall k :: k in t ==> k in s.items && t[k].lifecycle != Unsettled)
            && (forall k :: k in s.items && s.items[k].lifecycle == Active ==> k in t && t[k] == s.items[k])
            && (forall k :: k in t && s.items[k].lifecycle == Settled ==> t[k] == s.items[k])
            && (forall k :: k in t && s.items[k].lifecycle == Unsettled ==>
                  var row := s.items[k];
                  t[k] == row.(lifecycle := Settled, settledAt := if at.Some? then at else if row.noticedAt.Some? then row.noticedAt else row.at))
  {
    hide Prune;
    PruneBounds(js, s.items);
    PruneBounds(Later(js), map k | k in s.items :: SettledRow(s.items[k], at));
  }

  /** Dropping sources takes their baselines and live workflows, and nothing
      else. */
  lemma {:induction false} DropOutcome(js: Engine, s: Store, prefix: string)
    requires Enumerates(js) && Good(s) && WithinCaps(s.revisions)
    ensures var t := Apply(js, s, DropSources(prefix));
            && (forall src :: src in t.revisions <==> src in s.revisions && !(prefix <= src))
            && (forall src :: src in t.revisions ==> t.revisions[src] == s.revisions[src])
            && (forall k :: k in t.items <==> k in s.items && !(s.items[k].lifecycle == Active && prefix <= s.items[k].source))
            && (forall k :: k in t.items ==> t.items[k] == s.items[k])
  {
    hide Prune, NormalizeRevisions;
    PruneBounds(js, s.items);
    NormalizeIdentity(js, s.revisions);
  }
}
