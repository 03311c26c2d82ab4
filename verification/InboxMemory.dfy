/** How long the Inbox remembers a settled row that its history dropped: until
    the source that remembers it reports something else, or forgets. */
module InboxMemory {
  import opened Common
  import opened InboxRows
  import opened Inbox
  import opened InboxRuns

  /** The row is gone, and its source remembers which revision it had. */
  ghost predicate Dormant(s: Store, source: string, k: string, revision: string) {
    source != "" && revision != "" && k !in s.items && Recalls(s, source, k, revision)
  }

  /** The page can make its source forget the key: it lists it, but not among the
      first that fit, or it does not, and there are more keys than fit. */
  ghost predicate Crowds(memory: Revs, source: string, rows: seq<Row>, k: string) {
    var incoming := NewestMap(Tag(rows, source));
    if k in incoming then k !in Upto(KeyOrder(Tag(rows, source)), MAX_REVISIONS)
    else |memory.Keys + incoming.Keys| > MAX_REVISIONS
  }

  /** What can end the memory: the source lists the key running or at another
      revision, or its page crowds the key out; another source lists it and does
      not remember it so itself; the source is dropped, or one too many added. */
  ghost predicate Disturbs(s: Store, step: Step, source: string, k: string, revision: string)
    requires source in s.revisions
  {
    match step
    case ReconcileSource(src, rows, _) =>
      var incoming := NewestMap(Tag(rows, src));
      && src != ""
      && if src == source then
           || (k in incoming && (incoming[k].active || incoming[k].revision != revision))
           || Crowds(s.revisions[source], source, rows, k)
         else
           || (k in incoming && (incoming[k].active || !Recalls(s, src, k, incoming[k].revision)))
           || (src !in s.revisions && |s.revisions.Keys| == MAX_SOURCES)
    case DropSources(prefix) => prefix <= source
    case _ => false
  }

  // ---- filling the memory --------------------------------------------------------------

  lemma {:induction false} FillBounded(revised: Revs, keys: seq<string>)
    ensures |Fill(revised, keys).Keys| <= MAX_REVISIONS && |Fill(revised, keys).Keys| <= |keys|
    ensures forall k :: k in Fill(revised, keys) ==> k in revised && Fill(revised, keys)[k] == revised[k]
    decreases |keys|
  {
    if keys != [] {
      var init := keys[..|keys| - 1];
      FillBounded(revised, init);
      var out, k := Fill(revised, init), keys[|keys| - 1];
      assert |out| == |out.Keys|;
      if Fill(revised, keys) != out {
        assert Fill(revised, keys).Keys == out.Keys + {k};
      }
    }
  }

  /** What is remembered early stays, and once the memory is full nothing more is
      added. */
  lemma {:induction false} FillMore(revised: Revs, keys: seq<string>, n: nat)
    requires n <= |keys|
    ensures forall k :: k in Fill(revised, keys[..n]) ==> k in Fill(revised, keys)
    ensures |Fill(revised, keys[..n]).Keys| >= MAX_REVISIONS ==> Fill(revised, keys) == Fill(revised, keys[..n])
    decreases |keys|
  {
    if n < |keys| {
      var init := keys[..|keys| - 1];
      FillMore(revised, init, n);
      assert init[..n] == keys[..n];
      assert |Fill(revised, init)| == |Fill(revised, init).Keys|;
    } else {
      assert keys[..n] == keys;
    }
  }

  /** A key among the first that fit is remembered. */
  lemma {:induction false} FillEarly(revised: Revs, keys: seq<string>, n: nat)
    requires n < |keys| && n < MAX_REVISIONS && keys[n] in revised && revised[keys[n]] != ""
    ensures keys[n] in Fill(revised, keys)
  {
    FillBounded(revised, keys[..n]);
    FillMore(revised, keys, n + 1);
    assert keys[..n + 1][..n] == keys[..n];
    assert |Fill(revised, keys[..n])| == |Fill(revised, keys[..n]).Keys|;
  }

  /** A memory that is not full holds every key that came along. */
  lemma {:induction false} FillWhole(revised: Revs, keys: seq<string>)
    requires |Fill(revised, keys).Keys| < MAX_REVISIONS
    ensures forall k :: k in keys && k in revised && revised[k] != "" ==> k in Fill(revised, keys)
    decreases |keys|
  {
    if keys != [] {
      var n := |keys| - 1;
      FillMore(revised, keys, n);
      FillBounded(revised, keys[..n]);
      if |Fill(revised, keys[..n]).Keys| < MAX_REVISIONS {
        FillWhole(revised, keys[..n]);
        assert keys == keys[..n] + [keys[n]];
        assert |Fill(revised, keys[..n])| == |Fill(revised, keys[..n]).Keys|;
      }
    }
  }

  /** With as many keys as fit, the memory is full. */
  lemma {:induction false} FillFull(revised: Revs, keys: seq<string>, some: set<string>)
    requires |some| >= MAX_REVISIONS && forall k :: k in some ==> k in keys && k in revised && revised[k] != ""
    ensures |Fill(revised, keys).Keys| == MAX_REVISIONS
  {
    FillBounded(revised, keys);
    if |Fill(revised, keys).Keys| < MAX_REVISIONS {
      FillWhole(revised, keys);
      SubsetBound(some, Fill(revised, keys).Keys);
    }
  }

  /** Below the cap a remembered key stays remembered. */
  lemma {:induction false} FillKeeps(revised: Revs, keys: seq<string>, k: string)
    requires |revised.Keys| <= MAX_REVISIONS && k in keys && k in revised && revised[k] != ""
    ensures k in Fill(revised, keys)
  {
    FillBounded(revised, keys);
    var out := Fill(revised, keys);
    if |out.Keys| < MAX_REVISIONS {
      FillWhole(revised, keys);
    } else if k !in out {
      SubsetBound(out.Keys + {k}, revised.Keys);
    }
  }

  /** A key that comes after as many as fit is forgotten. */
  lemma {:induction false} FillForgets(revised: Revs, first: seq<string>, rest: seq<string>, some: set<string>, k: string)
    requires |some| >= MAX_REVISIONS && forall q :: q in some ==> q in first && q in revised && revised[q] != ""
    requires k !in first
    ensures k !in Fill(revised, first + rest)
  {
    FillFull(revised, first, some);
    assert (first + rest)[..|first|] == first;
    FillMore(revised, first + rest, |first|);
    FillOnly(revised, first);
  }

  lemma {:induction false} FillOnly(revised: Revs, keys: seq<string>)
    ensures forall k :: k in Fill(revised, keys) ==> k in keys
    decreases |keys|
  {
    if keys != [] {
      FillOnly(revised, keys[..|keys| - 1]);
    }
  }

  // ---- one page of the source ------------------------------------------------------------

  /** Reading the tables back within their caps. */
  lemma {:induction false} SourcesRead(js: Engine, s: Store)
    requires Enumerates(js) && |s.revisions.Keys| <= MAX_SOURCES
    ensures NormalizeRevisions(js, s.revisions).Keys == s.revisions.Keys
  {
    assert Enumeration(Order(js, InSources, s.revisions.Keys), s.revisions.Keys);
  }

  /** A page's row for a key that has none is remembered at its own revision. */
  lemma {:induction false} RemembersNew(p: Page, items: Items, k: string)
    requires k in p.incoming && k !in items
    ensures Remembered(DecideKey(p, items, k)) == p.incoming[k].revision
    ensures p.known && !p.incoming[k].active ==>
              (MergedRow(p, items, k).Some? <==> Find(p.memory, k) != Some(p.incoming[k].revision))
    ensures p.known && !p.incoming[k].active && MergedRow(p, items, k).Some? ==>
              MergedRow(p, items, k).value.lifecycle == Unsettled
  {
  }

  lemma {:induction false} NotListed(p: Page, items: Items, k: string)
    requires k !in p.incoming && k !in items
    ensures MergedRow(p, items, k).None?
  {
  }

  /** The page of a source, and what it says about a key that the source
      remembers: the same revision, or nothing. */
  ghost predicate Repeats(p: Page, rows: seq<Row>, items: Items, k: string, revision: string) {
    && p.known && p.incoming == NewestMap(Tag(rows, p.source))
    && k !in items && revision != "" && Find(p.memory, k) == Some(revision)
    && (k in p.incoming ==> !p.incoming[k].active && p.incoming[k].revision == revision)
  }

  lemma {:induction false} RepeatsQuietly(p: Page, rows: seq<Row>, items: Items, k: string, revision: string)
    requires Repeats(p, rows, items, k, revision)
    ensures k !in Merged(p, items) && Find(Revised(p, items), k) == Some(revision)
  {
    hide NewestMap, Tag, Merged, Revised, MergedRow, Remembered, DecideKey;
    MergedAt(p, items, k);
    RevisedAt(p, items, k);
    if k in p.incoming {
      RemembersNew(p, items, k);
    } else {
      NotListed(p, items, k);
    }
  }

  /** A page that does not crowd the key out leaves it remembered. */
  lemma {:induction false} PageRecalls(js: Engine, p: Page, rows: seq<Row>, items: Items, k: string, revision: string)
    requires Enumerates(js) && Repeats(p, rows, items, k, revision) && !Crowds(p.memory, p.source, rows, k)
    ensures var memory := Fill(Revised(p, items), MemoryKeys(js, p, rows, Merged(p, items)));
            Find(memory, k) == Some(revision) && |memory.Keys| <= MAX_REVISIONS
  {
    hide Fill, NewestMap, Tag, Merged, Revised, KeyOrder, OfSource;
    var revised, keys := Revised(p, items), MemoryKeys(js, p, rows, Merged(p, items));
    RepeatsQuietly(p, rows, items, k, revision);
    FillBounded(revised, keys);
    if k in p.incoming {
      var order := KeyOrder(Tag(rows, p.source));
      var n :| 0 <= n < |Upto(order, MAX_REVISIONS)| && order[n] == k;
      assert keys[n] == order[n];
      FillEarly(revised, keys, n);
    } else {
      RevisedKeys(p, items);
      MemoryKeysCover(js, p, rows, Merged(p, items));
      FillKeeps(revised, keys, k);
    }
  }

  // ---- one step, and runs --------------------------------------------------------------

  lemma {:induction false} OwnRecalls(js: Engine, s: Store, step: Step, k: string, revision: string)
    requires Enumerates(js) && Good(s) && step.ReconcileSource? && Dormant(s, step.source, k, revision)
    requires !Disturbs(s, step, step.source, k, revision)
    ensures Dormant(Apply(js, s, step), step.source, k, revision)
  {
    hide Prune, Merged, NormalizeRevisions, Fill, MemoryKeys, Revised, NewestMap, Tag, Disturbs, Crowds, SettledKeys, Sound;
    PruneBounds(js, s.items);
    RecalledPage(js, s, step.source);
    SourcesRead(js, s);
    OwnPage(s, step, k, revision);
    assert Recalls(s, step.source, k, revision);
    var items, revs := Prune(js, s.items), NormalizeRevisions(js, s.revisions);
    var p := PageOf(revs, step.source, step.rows, step.stamp);
    RepeatsQuietly(p, step.rows, items, k, revision);
    PageRecalls(Later(js), p, step.rows, items, k, revision);
    PruneBounds(Later(js), Merged(p, items));
    assert Apply(js, s, step).revisions.Keys == revs.Keys;
  }

  lemma {:induction false} OtherRecalls(js: Engine, s: Store, step: Step, source: string, k: string, revision: string)
    requires Enumerates(js) && Good(s) && step.ReconcileSource? && step.source != source && Dormant(s, source, k, revision)
    requires !Disturbs(s, step, source, k, revision)
    ensures Dormant(Apply(js, s, step), source, k, revision)
  {
    hide Prune, Merged, NormalizeRevisions, Fill, MemoryKeys, Revised, NewestMap, Tag, Disturbs, SettledKeys, Sound, MergedRow;
    PruneBounds(js, s.items);
    RecalledPage(js, s, source);
    SourcesRead(js, s);
    assert Recalls(s, source, k, revision);
    var items, revs := Prune(js, s.items), NormalizeRevisions(js, s.revisions);
    if step.source != "" {
      OtherPage(s, step, source, k, revision);
      RecalledPage(js, s, step.source);
      var p := PageOf(revs, step.source, step.rows, step.stamp);
      MergedAt(p, items, k);
      if k in p.incoming {
        assert Recalls(s, step.source, k, p.incoming[k].revision);
        RemembersNew(p, items, k);
      } else {
        NotListed(p, items, k);
      }
      PruneBounds(Later(js), Merged(p, items));
      assert Apply(js, s, step).revisions.Keys == revs.Keys + {step.source};
      assert step.source in revs ==> revs.Keys + {step.source} == revs.Keys;
    }
  }

  lemma {:induction false} OwnPage(s: Store, step: Step, k: string, revision: string)
    requires step.ReconcileSource? && step.source != "" && step.source in s.revisions
    requires !Disturbs(s, step, step.source, k, revision)
    ensures var incoming := NewestMap(Tag(step.rows, step.source));
            && (k in incoming ==> !incoming[k].active && incoming[k].revision == revision)
            && !Crowds(s.revisions[step.source], step.source, step.rows, k)
  {
  }

  lemma {:induction false} OtherPage(s: Store, step: Step, source: string, k: string, revision: string)
    requires step.ReconcileSource? && step.source != "" && step.source != source && source in s.revisions
    requires !Disturbs(s, step, source, k, revision)
    ensures var incoming := NewestMap(Tag(step.rows, step.source));
            k in incoming ==> !incoming[k].active && Recalls(s, step.source, k, incoming[k].revision)
    ensures step.source in s.revisions || |s.revisions.Keys| != MAX_SOURCES
  {
  }

  lemma {:induction false} DormantStays(s: Store, step: Step, t: Store, source: string, k: string, revision: string)
    requires Good(s) && Next(s, step, t) && Dormant(s, source, k, revision)
    requires !Disturbs(s, step, source, k, revision)
    ensures Dormant(t, source, k, revision)
  {
    hide Prune, Reconcile, NormalizeRevisions;
    var js :| Enumerates(js) && t == Apply(js, s, step);
    PruneBounds(js, s.items);
    match step {
      case ReconcileSource(src, _, _) =>
        if src == source {
          OwnRecalls(js, s, step, k, revision);
        } else {
          OtherRecalls(js, s, step, source, k, revision);
        }
      case Settle(key, settled, at) => SettlementFrame(js, s.items, key, settled, at);
      case SettleEverything(at) =>
        var items := Prune(js, s.items);
        PruneBounds(Later(js), map q | q in items :: SettledRow(items[q], at));
      case DropSources(prefix) =>
        RecalledPage(js, s, source);
        SourcesRead(js, s);
        assert Recalls(s, source, k, revision);
        SubsetBound(t.revisions.Keys, s.revisions.Keys);
    }
  }

  /** A settled row that the history dropped is not recreated by any run of pages,
      actions and source changes that does not disturb the memory of it. */
  lemma {:induction false} PrunedStaysAway(states: seq<Store>, steps: seq<Step>, source: string, k: string, revision: string, n: nat)
    requires Run(states, steps) && n <= |steps| && Dormant(states[0], source, k, revision)
    requires forall i :: 0 <= i < n && source in states[i].revisions ==> !Disturbs(states[i], steps[i], source, k, revision)
    ensures Dormant(states[n], source, k, revision)
    decreases n
  {
    hide Disturbs;
    if n > 0 {
      PrunedStaysAway(states, steps, source, k, revision, n - 1);
      RunSound(states, steps, n - 1);
      DormantStays(states[n - 1], steps[n - 1], states[n], source, k, revision);
    }
  }

  // ---- beyond the cap ------------------------------------------------------------------

  /** The same engine, except that it enumerates `k` last. */
  function Last(js: Engine, k: string): Engine {
    js.(keys := (n: nat, owner: Owner, s: set<string>) => if k in s then js.keys(n, owner, s - {k}) + [k] else js.keys(n, owner, s))
  }

  lemma {:induction false} LastEnumerates(js: Engine, k: string)
    requires Enumerates(js)
    ensures Enumerates(Last(js, k))
  {
    forall n: nat, owner: Owner, s: set<string>
      ensures Enumeration(Last(js, k).keys(n, owner, s), s)
    {
      assert Enumeration(js.keys(n, owner, s), s);
      assert Enumeration(js.keys(n, owner, s - {k}), s - {k});
      assert k in s ==> s == (s - {k}) + {k};
    }
  }

  /** The rows, the page and the memory carry revisions. */
  ghost predicate Carried(p: Page, items: Items) {
    Revisable(items, p.incoming) && forall q :: q in p.memory ==> p.memory[q] != ""
  }

  /** A page that crowds the key out makes the source forget it, in any order if
      it lists it, and in an order that takes it last otherwise. */
  lemma {:induction false} PageForgets(js: Engine, p: Page, rows: seq<Row>, items: Items, k: string, revision: string)
    requires Enumerates(js) && Repeats(p, rows, items, k, revision) && Crowds(p.memory, p.source, rows, k) && Carried(p, items)
    ensures k !in Fill(Revised(p, items), MemoryKeys(Last(js, k), p, rows, Merged(p, items)))
  {
    hide Fill, NewestMap, Tag, Merged, Revised, KeyOrder;
    RepeatsQuietly(p, rows, items, k, revision);
    RevisedBound(p, items);
    if k in p.incoming {
      ListedForgotten(Last(js, k), p, rows, items, k);
    } else {
      UnlistedForgotten(js, p, rows, items, k);
    }
  }

  lemma {:induction false} ListedForgotten(js: Engine, p: Page, rows: seq<Row>, items: Items, k: string)
    requires k in p.incoming && p.incoming == NewestMap(Tag(rows, p.source))
    requires k !in Upto(KeyOrder(Tag(rows, p.source)), MAX_REVISIONS)
    requires Revised(p, items).Keys == p.memory.Keys + p.incoming.Keys && forall q :: q in Revised(p, items) ==> Revised(p, items)[q] != ""
    ensures k !in Fill(Revised(p, items), MemoryKeys(js, p, rows, Merged(p, items)))
  {
    hide Fill, NewestMap, Tag, Merged, Revised, KeyOrder, OfSource;
    var order := KeyOrder(Tag(rows, p.source));
    KeyOrderMatches(Tag(rows, p.source));
    assert |order| > MAX_REVISIONS by { assert k in order; }
    var first := order[..MAX_REVISIONS];
    var keys := MemoryKeys(js, p, rows, Merged(p, items));
    assert keys == first + keys[MAX_REVISIONS..];
    DistinctCount(first);
    forall q | q in Elements(first)
      ensures q in p.incoming
    {
      assert q in order;
    }
    FillForgets(Revised(p, items), first, keys[MAX_REVISIONS..], Elements(first), k);
  }

  lemma {:induction false} DistinctCount(ks: seq<string>)
    requires forall i, j :: 0 <= i < j < |ks| ==> ks[i] != ks[j]
    ensures |Elements(ks)| == |ks|
    decreases |ks|
  {
    if ks != [] {
      var n := |ks| - 1;
      DistinctCount(ks[..n]);
      assert Elements(ks) == Elements(ks[..n]) + {ks[n]};
      assert ks[n] !in ks[..n];
    } else {
      assert Elements(ks) == {};
    }
  }

  lemma {:induction false} UnlistedForgotten(js: Engine, p: Page, rows: seq<Row>, items: Items, k: string)
    requires Enumerates(js) && k !in p.incoming && k in p.memory && k !in Merged(p, items)
    requires p.incoming == NewestMap(Tag(rows, p.source)) && |p.memory.Keys + p.incoming.Keys| > MAX_REVISIONS
    requires Revised(p, items).Keys == p.memory.Keys + p.incoming.Keys && forall q :: q in Revised(p, items) ==> Revised(p, items)[q] != ""
    ensures k !in Fill(Revised(p, items), MemoryKeys(Last(js, k), p, rows, Merged(p, items)))
  {
    hide Fill, NewestMap, Tag, Merged, Revised, KeyOrder;
    var merged := Merged(p, items);
    var order, mine := KeyOrder(Tag(rows, p.source)), Order(js, InItems, OfSource(merged, p.source));
    var rest := Order(js, InMemory(p.source), p.memory.Keys - {k});
    KeyOrderMatches(Tag(rows, p.source));
    assert Enumeration(mine, OfSource(merged, p.source));
    assert Enumeration(rest, p.memory.Keys - {k});
    var some := p.memory.Keys + p.incoming.Keys - {k};
    assert MemoryKeys(Last(js, k), p, rows, merged) == order + mine + (rest + [k]);
    assert order + mine + (rest + [k]) == (order + mine + rest) + [k];
    FillForgets(Revised(p, items), order + mine + rest, [k], some, k);
  }

  /** One page of the source itself, listing the key unchanged or not at all: the
      source remembers it in every enumeration order exactly if the page does not
      crowd it out. */
  lemma {:induction false} RemembersExactly(js: Engine, s: Store, source: string, rows: seq<Row>, stamp: Option<int>, k: string, revision: string)
    requires Enumerates(js) && Good(s) && Dormant(s, source, k, revision) && WithinCaps(s.revisions)
    requires Revisable(s.items, NewestMap(Tag(rows, source)))
    requires var incoming := NewestMap(Tag(rows, source));
             k in incoming ==> !incoming[k].active && incoming[k].revision == revision
    ensures (forall js2 :: Enumerates(js2) ==> Dormant(Reconcile(js2, s, source, rows, stamp), source, k, revision))
            <==> !Crowds(s.revisions[source], source, rows, k)
  {
    hide Reconcile, NewestMap, Tag, Crowds, Sound;
    var step := ReconcileSource(source, rows, stamp);
    if Crowds(s.revisions[source], source, rows, k) {
      LastEnumerates(js, k);
      ReconcileForgets(js, s, source, rows, stamp, k, revision);
    } else {
      NotDisturbed(s, step, k, revision);
      forall js2 | Enumerates(js2)
        ensures Dormant(Reconcile(js2, s, source, rows, stamp), source, k, revision)
      {
        OwnRecalls(js2, s, step, k, revision);
      }
    }
  }

  lemma {:induction false} NotDisturbed(s: Store, step: Step, k: string, revision: string)
    requires step.ReconcileSource? && step.source in s.revisions && !Crowds(s.revisions[step.source], step.source, step.rows, k)
    requires var incoming := NewestMap(Tag(step.rows, step.source));
             k in incoming ==> !incoming[k].active && incoming[k].revision == revision
    ensures !Disturbs(s, step, step.source, k, revision)
  {
  }

  lemma {:induction false} ReconcileForgets(js: Engine, s: Store, source: string, rows: seq<Row>, stamp: Option<int>, k: string, revision: string)
    requires Enumerates(js) && Enumerates(Last(js, k)) && Good(s) && Dormant(s, source, k, revision) && WithinCaps(s.revisions)
    requires Revisable(s.items, NewestMap(Tag(rows, source))) && Crowds(s.revisions[source], source, rows, k)
    requires var incoming := NewestMap(Tag(rows, source));
             k in incoming ==> !incoming[k].active && incoming[k].revision == revision
    ensures var t := Reconcile(Last(js, k), s, source, rows, stamp);
            && k !in t.items && source in t.revisions && k !in t.revisions[source]
            && |t.revisions.Keys| <= MAX_SOURCES && Good(t)
  {
    hide Prune, NormalizeRevisions, Fill, NewestMap, Merged, Revised, Tag, KeyOrder, MemoryKeys, SettledKeys, Sound, Crowds;
    var js2 := Last(js, k);
    PruneBounds(js2, s.items);
    NormalizeIdentity(js2, s.revisions);
    var p := PageOf(s.revisions, source, rows, stamp);
    RepeatsQuietly(p, rows, s.items, k, revision);
    PruneBounds(Later(js2), Merged(p, s.items));
    assert Later(js2) == Last(Later(js), k);
    PageForgets(Later(js), p, rows, s.items, k, revision);
    var t := Reconcile(js2, s, source, rows, stamp);
    assert t.revisions.Keys == s.revisions.Keys;
    StepKeeps(s, ReconcileSource(source, rows, stamp), t) by {
      assert t == Apply(js2, s, ReconcileSource(source, rows, stamp));
    }
  }

  /** A key that a baselined source does not remember is news. */
  lemma {:induction false} UnknownIsNews(js: Engine, s: Store, source: string, rows: seq<Row>, stamp: Option<int>, k: string)
    requires Enumerates(js) && Good(s) && source != "" && source in s.revisions && |s.revisions.Keys| <= MAX_SOURCES
    requires k !in s.items && k !in s.revisions[source]
    requires var incoming := NewestMap(Tag(rows, source)); k in incoming && !incoming[k].active
    ensures Is(Reconcile(js, s, source, rows, stamp), k, Unsettled)
  {
    hide Prune, Fill, NewestMap, Tag, KeyOrder, Revised, MemoryKeys, Merged, MergedRow, NormalizeRevisions;
    PruneBounds(js, s.items);
    SourcesRead(js, s);
    var revs := NormalizeRevisions(js, s.revisions);
    ReadLess(js, s.revisions, source, k);
    var p := PageOf(revs, source, rows, stamp);
    RemembersNew(p, s.items, k);
    MergedAt(p, s.items, k);
    PruneBounds(Later(js), Merged(p, s.items));
  }

  lemma {:induction false} ReadLess(js: Engine, revs: map<string, Revs>, source: string, k: string)
    requires source in NormalizeRevisions(js, revs)
    ensures source in revs && (k in NormalizeRevisions(js, revs)[source] ==> k in revs[source])
  {
  }

  /** A dormant row can come back: after any page that crowds it out, in some
      enumeration order, every later page that lists it unchanged recreates it
      unsettled. */
  lemma {:induction false} ForgottenComesBack(js: Engine, s: Store, source: string, rows: seq<Row>, stamp: Option<int>,
                                              k: string, revision: string, again: seq<Row>, later: Option<int>)
    requires Enumerates(js) && Good(s) && Dormant(s, source, k, revision) && WithinCaps(s.revisions)
    requires Revisable(s.items, NewestMap(Tag(rows, source))) && Crowds(s.revisions[source], source, rows, k)
    requires var incoming := NewestMap(Tag(rows, source));
             k in incoming ==> !incoming[k].active && incoming[k].revision == revision
    requires var incoming := NewestMap(Tag(again, source));
             k in incoming && !incoming[k].active && incoming[k].revision == revision
    ensures exists js2 :: Enumerates(js2)
              && Is(Reconcile(js2, Reconcile(js2, s, source, rows, stamp), source, again, later), k, Unsettled)
  {
    hide Reconcile, NewestMap, Tag, Crowds, Sound, Revisable, WithinCaps;
    LastEnumerates(js, k);
    ReconcileForgets(js, s, source, rows, stamp, k, revision);
    UnknownIsNews(Last(js, k), Reconcile(Last(js, k), s, source, rows, stamp), source, again, later, k);
  }
}
