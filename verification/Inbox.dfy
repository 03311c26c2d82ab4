/** The GitHub Inbox state machine (GitHubHelpers.js): reconciling one API
    source, settling, settling everything and dropping sources. JavaScript
    enumerates an object's keys in an order of its own history and compares texts
    by locale; here every operation takes both as a parameter and the results
    hold for all. */
module Inbox {
  import opened Common
  import opened InboxRows
  import opened Revisions

  const MAX_SETTLED := 30
  const MAX_SOURCES := 100
  const MAX_REVISIONS := 400

  type Items = map<string, Row>
  type Revs = map<string, string>

  datatype Store = Store(items: Items, revisions: map<string, Revs>)

  /** The object whose keys are enumerated. */
  datatype Owner = InItems | InSources | InMemory(source: string)

  /** Enumeration orders for sets of keys, which may differ from object to object
      and from one turn to the next, and a locale. */
  datatype Engine = Engine(keys: (nat, Owner, set<string>) -> seq<string>, locale: Locale, turn: nat)

  function Order(js: Engine, owner: Owner, s: set<string>): seq<string> {
    js.keys(js.turn, owner, s)
  }

  function Later(js: Engine): Engine {
    js.(turn := js.turn + 1)
  }

  ghost predicate Enumerates(js: Engine) {
    forall n: nat, owner: Owner, s: set<string> :: Enumeration(js.keys(n, owner, s), s)
  }

  ghost predicate Enumeration(ks: seq<string>, s: set<string>) {
    && (forall i :: 0 <= i < |ks| ==> ks[i] in s)
    && (forall k :: k in s ==> k in ks)
    && |ks| == |s|
  }

  // ---- pruning ---------------------------------------------------------------------

  function SettledKeys(items: Items): set<string> {
    set k | k in items && items[k].lifecycle == Settled
  }

  function Elements(ks: seq<string>): set<string> {
    set k | k in ks
  }

  function Upto(ks: seq<string>, n: nat): seq<string> {
    if |ks| <= n then ks else ks[..n]
  }

  /** The settled rows that stay in the history. */
  function Kept(js: Engine, items: Items): set<string>
    requires Enumerates(js)
  {
    var keys := Order(js, InItems, SettledKeys(items));
    assert Enumeration(keys, SettledKeys(items));
    Elements(Upto(History(js.locale, items, keys), MAX_SETTLED))
  }

  function Prune(js: Engine, items: Items): Items
    requires Enumerates(js)
  {
    var kept := Kept(js, items);
    map k | k in items && (items[k].lifecycle != Settled || k in kept) :: items[k]
  }

  lemma {:induction false} ElementsBound(ks: seq<string>)
    ensures |Elements(ks)| <= |ks|
    decreases |ks|
  {
    if ks == [] {
      assert Elements(ks) == {};
    } else {
      var n := |ks| - 1;
      ElementsBound(ks[..n]);
      assert ks == ks[..n] + [ks[n]];
      assert Elements(ks) == Elements(ks[..n]) + {ks[n]};
    }
  }

  lemma {:induction false} SubsetBound(a: set<string>, b: set<string>)
    requires a <= b
    ensures |a| <= |b|
  {
    assert b == a + (b - a);
  }

  lemma {:induction false} KeptBound(js: Engine, items: Items)
    requires Enumerates(js)
    ensures |Kept(js, items)| <= MAX_SETTLED
    ensures |SettledKeys(items)| <= MAX_SETTLED ==> SettledKeys(items) <= Kept(js, items)
  {
    hide InsertKey, History, Earlier;
    var s := SettledKeys(items);
    var keys := Order(js, InItems, s);
    assert Enumeration(keys, s);
    var history := History(js.locale, items, keys);
    ElementsBound(Upto(history, MAX_SETTLED));
    if |s| <= MAX_SETTLED {
      assert |multiset(history)| == |multiset(keys)|;
      forall k | k in s
        ensures k in Elements(history)
      {
        assert k in multiset(keys) && k in multiset(history);
      }
    }
  }

  /** Pruning bounds the history, and only the history; within the bound it
      changes nothing. */
  lemma {:induction false} PruneBounds(js: Engine, items: Items)
    requires Enumerates(js)
    ensures |SettledKeys(Prune(js, items))| <= MAX_SETTLED
    ensures forall k :: k in items && items[k].lifecycle != Settled ==> k in Prune(js, items)
    ensures forall k :: k in Prune(js, items) ==> k in items && Prune(js, items)[k] == items[k]
    ensures |SettledKeys(items)| <= MAX_SETTLED ==> Prune(js, items) == items
  {
    hide Kept;
    KeptBound(js, items);
    SubsetBound(SettledKeys(Prune(js, items)), Kept(js, items));
  }

  /** With readable stamps, what pruning drops is older than what it keeps. */
  lemma {:induction false} PruneKeepsNewest(js: Engine, items: Items, kept: string, dropped: string)
    requires Enumerates(js) && IsOrder(js.locale)
    requires forall k :: k in SettledKeys(items) ==> HistoryStamp(items[k]).Some?
    requires kept in SettledKeys(items) && dropped in SettledKeys(items)
    requires kept in Prune(js, items) && dropped !in Prune(js, items)
    ensures Earlier(js.locale, items[kept], items[dropped])
  {
    hide InsertKey, History, Earlier, IsOrder, HistoryStamp;
    var s := SettledKeys(items);
    var keys := Order(js, InItems, s);
    assert Enumeration(keys, s);
    var history := History(js.locale, items, keys);
    HistorySorted(js.locale, items, keys);
    assert kept in Elements(Upto(history, MAX_SETTLED));
    var i :| 0 <= i < |Upto(history, MAX_SETTLED)| && history[i] == kept;
    assert dropped in multiset(keys) && dropped in multiset(history);
    var j :| 0 <= j < |history| && history[j] == dropped;
    assert dropped !in Elements(Upto(history, MAX_SETTLED));
    assert j >= MAX_SETTLED;
  }

  // ---- one row of a page ----------------------------------------------------------

  function Find<T>(m: map<string, T>, k: string): Option<T> {
    if k in m then Some(m[k]) else None
  }

  /** A lagging page's row: older than the snapshot it would replace. */
  predicate Stale(source: string, existing: Row, row: Row) {
    || AtMs(existing) > AtMs(row)
    || ("events:" <= source && AtMs(existing) == AtMs(row) && RevisionCompare(existing.revision, row.revision) > 0)
  }

  /** Event pages lag behind a row that is newer, by time or by revision; pages of
      any other source only behind one that is later. */
  lemma {:induction false} LagMeans(source: string, existing: Row, row: Row)
    ensures "events:" <= source ==> (Stale(source, existing, row) <==> Newer(existing, row))
    ensures !("events:" <= source) ==> (Stale(source, existing, row) <==> AtMs(row) < AtMs(existing))
  {
    StringOrder(existing.revision, row.revision);
  }

  predicate SameRevision(existing: Option<Row>, previous: Option<string>, row: Row) {
    previous == Some(row.revision) || (existing.Some? && existing.value.revision == row.revision)
  }

  /** What a page's row does: it is skipped, leaving a revision to remember, or
      it becomes the entity's row. */
  datatype Decision = Skip(revision: string) | Put(row: Row)

  function Decide(known: bool, source: string, stamp: Option<int>, existing: Option<Row>, previous: Option<string>, row: Row): Decision {
    var same := SameRevision(existing, previous, row);
    if !same && existing.Some? && Stale(source, existing.value, row) then
      Skip(if previous.Some? && previous.value != "" then previous.value else existing.value.revision)
    else if known && same && existing.None? && !row.active then Skip(row.revision)
    else Put(Classify(known, stamp, existing, same, row))
  }

  function Classify(known: bool, stamp: Option<int>, existing: Option<Row>, same: bool, row: Row): Row {
    if !known then
      if !row.active && existing.Some? && existing.value.lifecycle != Active then Carry(existing.value, row)
      else row.(lifecycle := if row.active then Active else Settled, noticedAt := Or(stamp, row.at),
                settledAt := if row.active then None else Or(stamp, row.at))
    else if row.active then
      row.(lifecycle := Active, noticedAt := if existing.Some? then existing.value.noticedAt else Or(stamp, row.at), settledAt := None)
    else if !same || existing.None? || existing.value.lifecycle == Active then
      row.(lifecycle := Unsettled, noticedAt := Or(stamp, row.at), settledAt := None)
    else Carry(existing.value, row)
  }

  function Carry(existing: Row, row: Row): Row {
    row.(lifecycle := existing.lifecycle, noticedAt := existing.noticedAt, settledAt := existing.settledAt)
  }

  function Remembered(d: Decision): string {
    match d case Skip(revision) => revision case Put(row) => row.revision
  }

  // ---- one page -----------------------------------------------------------------------

  /** The normalised page and what the source already knew. */
  datatype Page = Page(known: bool, source: string, stamp: Option<int>, memory: Revs, incoming: Items)

  function DecideKey(p: Page, items: Items, k: string): Decision
    requires k in p.incoming
  {
    Decide(p.known, p.source, p.stamp, Find(items, k), Find(p.memory, k), p.incoming[k])
  }

  /** A live workflow that a successful page no longer lists. */
  predicate Vanished(p: Page, items: Items, k: string) {
    k in items && k !in p.incoming && items[k].source == p.source && items[k].lifecycle == Active
  }

  function MergedRow(p: Page, items: Items, k: string): Option<Row> {
    if k in p.incoming then
      match DecideKey(p, items, k)
      case Put(row) => Some(row)
      case Skip(_) => Find(items, k)
    else if Vanished(p, items, k) then None
    else Find(items, k)
  }

  /** Row by row, what merging the page makes of the Inbox. */
  function Merged(p: Page, items: Items): Items {
    map k | k in items.Keys + p.incoming.Keys && MergedRow(p, items, k).Some? :: MergedRow(p, items, k).value
  }

  /** Everything the source may remember afterwards. */
  function Revised(p: Page, items: Items): Revs {
    p.memory + map k | k in p.incoming :: Remembered(DecideKey(p, items, k))
  }

  /** The revision memory, filled in order up to its cap. */
  function Fill(revised: Revs, keys: seq<string>): Revs {
    if keys == [] then map[]
    else
      var out := Fill(revised, keys[..|keys| - 1]);
      var k := keys[|keys| - 1];
      if k in out || |out| >= MAX_REVISIONS || k !in revised || revised[k] == "" then out else out[k := revised[k]]
  }

  function OfSource(items: Items, source: string): set<string> {
    set k | k in items && items[k].source == source
  }

  function Tag(rows: seq<Row>, source: string): seq<Row> {
    seq(|rows|, i requires 0 <= i < |rows| => rows[i].(source := source))
  }

  function CapRevs(js: Engine, source: string, m: Revs): Revs {
    map k | k in m && k in Upto(Order(js, InMemory(source), m.Keys), MAX_REVISIONS) :: m[k]
  }

  function NormalizeRevisions(js: Engine, revs: map<string, Revs>): map<string, Revs> {
    map s | s in revs && s in Upto(Order(js, InSources, revs.Keys), MAX_SOURCES) :: CapRevs(js, s, revs[s])
  }

  function PageOf(revs: map<string, Revs>, source: string, rows: seq<Row>, stamp: Option<int>): Page {
    Page(source in revs, source, stamp, if source in revs then revs[source] else map[], NewestMap(Tag(rows, source)))
  }

  function MemoryKeys(js: Engine, p: Page, rows: seq<Row>, merged: Items): seq<string> {
    KeyOrder(Tag(rows, p.source)) + Order(js, InItems, OfSource(merged, p.source)) + Order(js, InMemory(p.source), p.memory.Keys)
  }

  /** Reconcile one source; "" stands for a source that is not valid. */
  function Reconcile(js: Engine, s: Store, source: string, rows: seq<Row>, stamp: Option<int>): Store
    requires Enumerates(js)
  {
    var items := Prune(js, s.items);
    var revs := NormalizeRevisions(js, s.revisions);
    if source == "" then Store(items, revs)
    else
      var p := PageOf(revs, source, rows, stamp);
      var merged := Merged(p, items);
      Store(Prune(Later(js), merged), revs[source := Fill(Revised(p, items), MemoryKeys(Later(js), p, rows, merged))])
  }

  // ---- user actions -----------------------------------------------------------------

  function Resettled(row: Row, settled: bool, at: Option<int>): Row {
    row.(lifecycle := if settled then Settled else Unsettled,
         settledAt := if settled then Or(at, Or(row.settledAt, row.noticedAt)) else None)
  }

  function SetSettlement(js: Engine, items0: Items, key: string, settled: bool, at: Option<int>): Items
    requires Enumerates(js)
  {
    var items := Prune(js, items0);
    if key !in items || items[key].active then items
    else
      Prune(Later(js), items[key := Resettled(items[key], settled, at)])
  }

  function SettledRow(row: Row, at: Option<int>): Row {
    if row.active || row.lifecycle != Unsettled then row
    else row.(lifecycle := Settled, settledAt := Or(at, Or(row.noticedAt, row.at)))
  }

  function SettleAll(js: Engine, items0: Items, at: Option<int>): Items
    requires Enumerates(js)
  {
    var items := Prune(js, items0);
    Prune(Later(js), map k | k in items :: SettledRow(items[k], at))
  }

  function RemoveSources(js: Engine, s: Store, prefix: string): Store
    requires Enumerates(js)
  {
    var items := Prune(js, s.items);
    var revs := NormalizeRevisions(js, s.revisions);
    Store(map k | k in items && !(prefix <= items[k].source && items[k].lifecycle == Active) :: items[k],
          map src | src in revs && !(prefix <= src) :: revs[src])
  }

  // ---- steps and runs ------------------------------------------------------------------

  datatype Step =
    | ReconcileSource(source: string, rows: seq<Row>, stamp: Option<int>)
    | Settle(key: string, settled: bool, at: Option<int>)
    | SettleEverything(at: Option<int>)
    | DropSources(prefix: string)

  function Apply(js: Engine, s: Store, step: Step): Store
    requires Enumerates(js)
  {
    match step
    case ReconcileSource(source, rows, stamp) => Reconcile(js, s, source, rows, stamp)
    case Settle(key, settled, at) => s.(items := SetSettlement(js, s.items, key, settled, at))
    case SettleEverything(at) => s.(items := SettleAll(js, s.items, at))
    case DropSources(prefix) => RemoveSources(js, s, prefix)
  }

  ghost predicate Next(s: Store, step: Step, t: Store) {
    exists js :: Enumerates(js) && t == Apply(js, s, step)
  }

  /** Rows sit under their own key, and are active exactly while running. */
  ghost predicate Sound(items: Items) {
    forall k :: k in items ==> items[k].key == k && (items[k].lifecycle == Active <==> items[k].active)
  }

  ghost predicate Is(s: Store, k: string, l: Lifecycle) {
    k in s.items && s.items[k].lifecycle == l
  }

  /** The page a step merges, as the step sees it. */
  ghost predicate Lists(step: Step, k: string, active: bool) {
    && step.ReconcileSource? && step.source != ""
    && var incoming := NewestMap(Tag(step.rows, step.source));
       k in incoming && incoming[k].active == active
  }

  lemma {:induction false} NewestKeys(rows: seq<Row>)
    ensures forall k :: k in NewestMap(rows) ==> NewestMap(rows)[k].key == k
    decreases |rows|
  {
    if rows != [] {
      NewestKeys(rows[..|rows| - 1]);
    }
  }

  /** Merging a page keeps the Inbox sound. */
  lemma {:induction false} MergedSound(p: Page, items: Items)
    requires Sound(items) && forall k :: k in p.incoming ==> p.incoming[k].key == k
    ensures Sound(Merged(p, items))
  {
    hide Stale, SameRevision, DecideKey, Find;
    forall k | k in Merged(p, items)
      ensures var row := Merged(p, items)[k]; row.key == k && (row.lifecycle == Active <==> row.active)
    {
      MergedRowSound(p, items, k);
    }
  }

  lemma {:induction false} MergedRowSound(p: Page, items: Items, k: string)
    requires Sound(items) && (k in p.incoming ==> p.incoming[k].key == k) && MergedRow(p, items, k).Some?
    ensures var row := MergedRow(p, items, k).value; row.key == k && (row.lifecycle == Active <==> row.active)
  {
  }

  /** Pruning sound rows keeps them sound and bounds the history. */
  lemma {:induction false} PruneSound(js: Engine, items: Items)
    requires Enumerates(js) && Sound(items)
    ensures Sound(Prune(js, items)) && |SettledKeys(Prune(js, items))| <= MAX_SETTLED
  {
    hide Prune;
    PruneBounds(js, items);
  }

  /** Every step bounds the history and keeps the Inbox sound. */
  lemma {:induction false} StepKeeps(s: Store, step: Step, t: Store)
    requires Sound(s.items) && Next(s, step, t)
    ensures Sound(t.items) && |SettledKeys(t.items)| <= MAX_SETTLED
  {
    hide Prune, Merged, PageOf, NormalizeRevisions, Fill, MemoryKeys, Revised, SettledKeys;
    var js :| Enumerates(js) && t == Apply(js, s, step);
    PruneSound(js, s.items);
    var items := Prune(js, s.items);
    match step {
      case ReconcileSource(source, rows, stamp) =>
        if source != "" {
          var p := PageOf(NormalizeRevisions(js, s.revisions), source, rows, stamp);
          PageKeys(NormalizeRevisions(js, s.revisions), source, rows, stamp);
          MergedSound(p, items);
          PruneSound(Later(js), Merged(p, items));
        }
      case Settle(key, settled, at) =>
        if key in items && !items[key].active {
          PruneSound(Later(js), items[key := Resettled(items[key], settled, at)]);
        }
      case SettleEverything(at) =>
        PruneSound(Later(js), map k | k in items :: SettledRow(items[k], at));
      case DropSources(prefix) =>
        FewerSettled(t.items, items);
    }
  }

  lemma {:induction false} FewerSettled(fewer: Items, items: Items)
    requires forall k :: k in fewer ==> k in items && fewer[k] == items[k]
    ensures |SettledKeys(fewer)| <= |SettledKeys(items)|
  {
    SubsetBound(SettledKeys(fewer), SettledKeys(items));
  }

  lemma {:induction false} PageKeys(revs: map<string, Revs>, source: string, rows: seq<Row>, stamp: Option<int>)
    ensures forall k :: k in PageOf(revs, source, rows, stamp).incoming ==> PageOf(revs, source, rows, stamp).incoming[k].key == k
  {
    NewestKeys(Tag(rows, source));
  }
}
