/** The Inbox operations as GitHubHelpers.js runs them, key by key, proved equal
    to the row-by-row definitions of `Inbox`. */
module InboxMethods {
  import opened Common
  import opened InboxRows
  import opened Inbox

  /** A map after the keys before `n` were visited. */
  ghost predicate Partly<T>(before: map<string, T>, now: map<string, T>, after: map<string, T>, keys: seq<string>, n: nat)
    requires n <= |keys|
  {
    forall k :: Find(now, k) == if k in keys[..n] then Find(after, k) else Find(before, k)
  }

  lemma {:induction false} Wholly<T>(before: map<string, T>, now: map<string, T>, after: map<string, T>, keys: seq<string>)
    requires Partly(before, now, after, keys, |keys|)
    requires forall k :: k !in keys ==> Find(before, k) == Find(after, k)
    ensures now == after
  {
    assert keys[..|keys|] == keys;
    forall k: string
      ensures k in now <==> k in after
      ensures k in now ==> now[k] == after[k]
    {
      assert Find(now, k) == Find(after, k);
    }
  }

  /** Visiting one more key. */
  lemma {:induction false} PartlyOne<T>(before: map<string, T>, now: map<string, T>, next: map<string, T>, after: map<string, T>,
                                        keys: seq<string>, n: nat)
    requires n < |keys| && Partly(before, now, after, keys, n)
    requires Find(next, keys[n]) == Find(after, keys[n])
    requires forall k :: k != keys[n] ==> Find(next, k) == Find(now, k)
    ensures Partly(before, next, after, keys, n + 1)
  {
  }

  function Cleaned(p: Page, items: Items): Items {
    map k | k in items && !Vanished(p, items, k) :: items[k]
  }

  method DropVanished(p: Page, items: Items, keys: seq<string>) returns (out: Items)
    requires forall k :: k in items ==> k in keys
    ensures out == Cleaned(p, items)
  {
    out := items;
    for n := 0 to |keys|
      invariant Partly(items, out, Cleaned(p, items), keys, n)
    {
      var k := keys[n];
      assert keys[..n + 1] == keys[..n] + [k];
      if Vanished(p, items, k) {
        out := out - {k};
      }
    }
    Wholly(items, out, Cleaned(p, items), keys);
  }

  function KeysOf(rows: seq<Row>): seq<string> {
    seq(|rows|, i requires 0 <= i < |rows| => rows[i].key)
  }

  /** The page's rows, one per key. */
  ghost predicate Lists(p: Page, incoming: seq<Row>) {
    && (forall i :: 0 <= i < |incoming| ==> incoming[i].key in p.incoming && p.incoming[incoming[i].key] == incoming[i])
    && (forall i, j :: 0 <= i < j < |incoming| ==> incoming[i].key != incoming[j].key)
    && (forall k :: k in p.incoming ==> k in KeysOf(incoming))
  }

  method MergeRows(p: Page, items: Items, order: seq<string>, incoming: seq<Row>) returns (out: Items, revised: Revs)
    requires Lists(p, incoming) && forall k :: k in items ==> k in order
    ensures out == Merged(p, items) && revised == Revised(p, items)
  {
    hide Decide, Merged, Revised, Cleaned, Partly;
    out := DropVanished(p, items, order);
    ghost var cleaned := out;
    revised := p.memory;
    ghost var keys := KeysOf(incoming);
    PartlyNone(out, Merged(p, items), keys);
    PartlyNone(revised, Revised(p, items), keys);
    for n := 0 to |incoming|
      invariant Partly(cleaned, out, Merged(p, items), keys, n)
      invariant Partly(p.memory, revised, Revised(p, items), keys, n)
    {
      var row := incoming[n];
      assert row.key !in keys[..n];
      PartlyAt(cleaned, out, Merged(p, items), keys, n, row.key);
      RowDecided(p, items, cleaned, out, row.key);
      var d := Decide(p.known, p.source, p.stamp, Find(out, row.key), Find(p.memory, row.key), row);
      ghost var was := out;
      if d.Put? {
        out := out[row.key := d.row];
      }
      PartlyOne(cleaned, was, out, Merged(p, items), keys, n);
      PartlyOne(p.memory, revised, revised[row.key := Remembered(d)], Revised(p, items), keys, n);
      revised := revised[row.key := Remembered(d)];
    }
    NotListed(p, items, incoming);
    Wholly(cleaned, out, Merged(p, items), keys);
    Wholly(p.memory, revised, Revised(p, items), keys);
  }

  lemma {:induction false} PartlyNone<T>(before: map<string, T>, after: map<string, T>, keys: seq<string>)
    ensures Partly(before, before, after, keys, 0)
  {
  }

  lemma {:induction false} PartlyAt<T>(before: map<string, T>, now: map<string, T>, after: map<string, T>, keys: seq<string>, n: nat, k: string)
    requires n <= |keys| && Partly(before, now, after, keys, n) && k !in keys[..n]
    ensures Find(now, k) == Find(before, k)
  {
  }

  lemma {:induction false} NotListed(p: Page, items: Items, incoming: seq<Row>)
    requires Lists(p, incoming)
    ensures forall k :: k !in KeysOf(incoming) ==> Find(Cleaned(p, items), k) == Find(Merged(p, items), k)
    ensures forall k :: k !in KeysOf(incoming) ==> Find(p.memory, k) == Find(Revised(p, items), k)
  {
  }

  lemma {:induction false} RowDecided(p: Page, items: Items, cleaned: Items, now: Items, k: string)
    requires cleaned == Cleaned(p, items) && k in p.incoming && Find(now, k) == Find(cleaned, k)
    ensures DecideKey(p, items, k) == Decide(p.known, p.source, p.stamp, Find(now, k), Find(p.memory, k), p.incoming[k])
    ensures Find(Merged(p, items), k) == match DecideKey(p, items, k) case Put(row) => Some(row) case Skip(_) => Find(now, k)
    ensures Find(Revised(p, items), k) == Some(Remembered(DecideKey(p, items, k)))
  {
  }

  method FillMemory(revised: Revs, keys: seq<string>) returns (out: Revs)
    ensures out == Fill(revised, keys)
  {
    out := map[];
    for n := 0 to |keys|
      invariant out == Fill(revised, keys[..n])
    {
      assert keys[..n + 1][..n] == keys[..n];
      var k := keys[n];
      if k !in out && |out| < MAX_REVISIONS && k in revised && revised[k] != "" {
        out := out[k := revised[k]];
      }
    }
    assert keys[..|keys|] == keys;
  }

  method ReconcileInboxSource(js: Engine, s: Store, source: string, rows: seq<Row>, stamp: Option<int>)
      returns (out: Store, baseline: bool)
    requires Enumerates(js)
    ensures out == Reconcile(js, s, source, rows, stamp)
    ensures baseline <==> source != "" && source !in NormalizeRevisions(js, s.revisions)
  {
    hide Merged, Revised, NormalizeRevisions, Fill, Prune, NewestMap, KeyOrder;
    var items := Prune(js, s.items);
    var revs := NormalizeRevisions(js, s.revisions);
    if source == "" {
      return Store(items, revs), false;
    }
    var p := PageOf(revs, source, rows, stamp);
    var incoming := NewestEntityRows(Tag(rows, source));
    PageRows(Tag(rows, source), incoming, p);
    var order := Order(js, InItems, items.Keys);
    assert Enumeration(order, items.Keys);
    var merged, revised := MergeRows(p, items, order, incoming);
    var memory := FillMemory(revised, MemoryKeys(Later(js), p, rows, merged));
    out := Store(Prune(Later(js), merged), revs[source := memory]);
    baseline := !p.known;
  }

  lemma {:induction false} PageRows(rows: seq<Row>, incoming: seq<Row>, p: Page)
    requires p.incoming == NewestMap(rows) && |incoming| == |KeyOrder(rows)|
    requires forall i :: 0 <= i < |incoming| ==> KeyOrder(rows)[i] in NewestMap(rows) && incoming[i] == NewestMap(rows)[KeyOrder(rows)[i]]
    ensures Lists(p, incoming)
  {
    KeyOrderMatches(rows);
    NewestKeys(rows);
    assert forall i :: 0 <= i < |incoming| ==> incoming[i].key == KeyOrder(rows)[i];
    assert KeysOf(incoming) == KeyOrder(rows);
  }

  method SettleAllInboxItems(js: Engine, items0: Items, at: Option<int>) returns (out: Items)
    requires Enumerates(js)
    ensures out == SettleAll(js, items0, at)
  {
    hide Prune;
    var items := Prune(js, items0);
    ghost var after := map k | k in items :: SettledRow(items[k], at);
    var keys := Order(js, InItems, items.Keys);
    assert Enumeration(keys, items.Keys);
    out := items;
    for n := 0 to |keys|
      invariant Partly(items, out, after, keys, n)
    {
      var k := keys[n];
      assert keys[..n + 1] == keys[..n] + [k];
      assert Find(out, k).Some? by { assert Find(out, k) == if k in keys[..n] then Find(after, k) else Find(items, k); }
      var row := out[k];
      if !row.active && row.lifecycle == Unsettled {
        out := out[k := row.(lifecycle := Settled, settledAt := Or(at, Or(row.noticedAt, row.at)))];
      }
    }
    Wholly(items, out, after, keys);
    out := Prune(Later(js), out);
  }
}
