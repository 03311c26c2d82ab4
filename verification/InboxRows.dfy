/** Rows of the GitHub Inbox (GitHubHelpers.js): the newest row per entity on a
    page, and the settled history's ordering and pruning. Time stamps are
    milliseconds, None where the source holds an empty or unreadable one. */
module InboxRows {
  import opened Common
  import opened Revisions

  datatype Lifecycle = Active | Unsettled | Settled

  /** The fields the state machine reads; `payload` stands for the rest. */
  datatype Row = Row(key: string, revision: string, source: string, active: bool, lifecycle: Lifecycle,
                     noticedAt: Option<int>, settledAt: Option<int>, at: Option<int>, payload: int)

  function AtMs(r: Row): int {
    if r.at.Some? then r.at.value else 0
  }

  function Or(a: Option<int>, b: Option<int>): Option<int> {
    if a.Some? then a else b
  }

  // ---- the newest row per entity ------------------------------------------------

  predicate Newer(r: Row, current: Row) {
    AtMs(r) > AtMs(current) || (AtMs(r) == AtMs(current) && RevisionCompare(r.revision, current.revision) > 0)
  }

  /** A later snapshot is newer whatever its revision; at the same time the larger
      number is, and of equal numbers the larger text. */
  lemma {:induction false} NewerMeans(r: Row, current: Row)
    ensures AtMs(r) != AtMs(current) ==> (Newer(r, current) <==> AtMs(current) < AtMs(r))
    ensures AtMs(r) == AtMs(current) && NumericHead(r.revision) && NumericHead(current.revision) ==>
              (Newer(r, current) <==>
                 || HeadValue(current.revision) < HeadValue(r.revision)
                 || (HeadValue(current.revision) == HeadValue(r.revision) && StringCompare(current.revision, r.revision) < 0))
  {
    if NumericHead(r.revision) && NumericHead(current.revision) {
      ComparesByValue(r.revision, current.revision);
      StringOrder(r.revision, current.revision);
    }
  }

  function Note(m: map<string, Row>, r: Row): map<string, Row> {
    if r.key == "" then m
    else if r.key !in m || Newer(r, m[r.key]) then m[r.key := r]
    else m
  }

  function NewestMap(rows: seq<Row>): map<string, Row> {
    if rows == [] then map[] else Note(NewestMap(rows[..|rows| - 1]), rows[|rows| - 1])
  }

  /** Keys in the order they first appear. */
  function KeyOrder(rows: seq<Row>): (ks: seq<string>)
  {
    if rows == [] then []
    else
      var ks := KeyOrder(rows[..|rows| - 1]);
      var k := rows[|rows| - 1].key;
      if k == "" || k in ks then ks else ks + [k]
  }

  lemma {:induction false} KeyOrderMatches(rows: seq<Row>)
    ensures forall k :: k in KeyOrder(rows) <==> k in NewestMap(rows)
    ensures forall i, j :: 0 <= i < j < |KeyOrder(rows)| ==> KeyOrder(rows)[i] != KeyOrder(rows)[j]
    decreases |rows|
  {
    if rows != [] {
      KeyOrderMatches(rows[..|rows| - 1]);
    }
  }

  /** `m` holds, per key, a row of `rows` that no other row of its key beats. */
  ghost predicate HoldsMaxima(rows: seq<Row>, m: map<string, Row>) {
    && (forall i :: 0 <= i < |rows| && rows[i].key != "" ==> rows[i].key in m && !Newer(rows[i], m[rows[i].key]))
    && (forall k :: k in m ==> m[k] in rows && m[k].key == k && k != "")
  }

  ghost predicate Unbeaten(rows: seq<Row>, w: Row) {
    forall r :: r in rows && r.key == w.key ==> !Newer(r, w)
  }

  ghost predicate HasMaximum(rows: seq<Row>, k: string) {
    exists w :: w in rows && w.key == k && Unbeaten(rows, w)
  }

  /** Every entity of the page has a row that none of its rows beats. */
  ghost predicate HasMaxima(rows: seq<Row>) {
    forall i :: 0 <= i < |rows| && rows[i].key != "" ==> HasMaximum(rows, rows[i].key)
  }

  /** Two rows of one entity that the comparison cannot tell apart. */
  predicate Ties(a: Row, b: Row) {
    a.key == b.key && AtMs(a) == AtMs(b) && a.revision == b.revision
  }

  lemma {:induction false} NewerTies(a: Row, b: Row)
    ensures !(Newer(a, b) && Newer(b, a))
    ensures a.key == b.key && !Newer(a, b) && !Newer(b, a) ==> Ties(a, b)
    ensures Ties(a, b) ==> !Newer(a, b)
  {
    Antisymmetric(a.revision, b.revision);
  }

  lemma {:induction false} NewestIn(rows: seq<Row>)
    ensures forall k :: k in NewestMap(rows) ==> NewestMap(rows)[k] in rows && NewestMap(rows)[k].key == k && k != ""
    ensures forall i :: 0 <= i < |rows| && rows[i].key != "" ==> rows[i].key in NewestMap(rows)
    decreases |rows|
  {
    hide Newer;
    if rows != [] {
      var n := |rows| - 1;
      NewestIn(rows[..n]);
      assert rows == rows[..n] + [rows[n]];
    }
  }

  /** An unbeaten row is kept, or one that ties with it. */
  lemma {:induction false} UnbeatenIsKept(rows: seq<Row>, w: Row)
    requires w in rows && w.key != "" && Unbeaten(rows, w)
    ensures w.key in NewestMap(rows) && Ties(NewestMap(rows)[w.key], w)
    decreases |rows|
  {
    hide Newer;
    var n := |rows| - 1;
    var init, last := rows[..n], rows[n];
    assert rows == init + [last];
    NewestIn(init);
    NewerTies(last, w);
    if w in init {
      UnbeatenIsKept(init, w);
      NewerLike(last, NewestMap(init)[w.key], w);
    } else if w.key in NewestMap(init) {
      NewerTies(w, NewestMap(init)[w.key]);
    }
  }

  lemma {:induction false} NewerLike(r: Row, a: Row, b: Row)
    requires Ties(a, b)
    ensures Newer(r, a) <==> Newer(r, b)
  {
  }

  /** What is kept for an entity is unbeaten exactly if some row of it is. */
  lemma {:induction false} MaximumIsKept(rows: seq<Row>, k: string)
    requires k in NewestMap(rows)
    ensures Unbeaten(rows, NewestMap(rows)[k]) <==> HasMaximum(rows, k)
  {
    hide Newer, NewestMap;
    NewestIn(rows);
    var kept := NewestMap(rows)[k];
    if HasMaximum(rows, k) {
      var w :| w in rows && w.key == k && Unbeaten(rows, w);
      UnbeatenIsKept(rows, w);
      forall r | r in rows && r.key == k
        ensures !Newer(r, kept)
      {
        NewerLike(r, kept, w);
      }
    }
  }

  /** Each entity keeps a maximal row, exactly if the page has maximal rows. */
  lemma {:induction false} NewestIsMaximum(rows: seq<Row>)
    ensures HoldsMaxima(rows, NewestMap(rows)) <==> HasMaxima(rows)
  {
    hide Newer, NewestMap, HasMaximum;
    NewestIn(rows);
    var m := NewestMap(rows);
    forall i | 0 <= i < |rows| && rows[i].key != ""
      ensures Unbeaten(rows, m[rows[i].key]) <==> HasMaximum(rows, rows[i].key)
    {
      MaximumIsKept(rows, rows[i].key);
    }
    if HoldsMaxima(rows, m) {
      forall i | 0 <= i < |rows| && rows[i].key != ""
        ensures Unbeaten(rows, m[rows[i].key])
      {
      }
    }
  }

  /** Rows of one entity and time are all numbered or all not. */
  ghost predicate Alike(rows: seq<Row>) {
    forall a, b :: a in rows && b in rows && a.key == b.key && AtMs(a) == AtMs(b) ==>
      (NumericHead(a.revision) <==> NumericHead(b.revision))
  }

  lemma {:induction false} NewerTransitive(a: Row, b: Row, c: Row)
    requires AtMs(a) == AtMs(b) == AtMs(c) ==> !Circular(c.revision, b.revision, a.revision)
    ensures Newer(a, b) && Newer(b, c) ==> Newer(a, c)
  {
    Antisymmetric(a.revision, b.revision);
    Antisymmetric(b.revision, c.revision);
    Antisymmetric(a.revision, c.revision);
  }

  lemma {:induction false} Champion(rows: seq<Row>, k: string) returns (w: Row)
    requires Alike(rows) && exists r :: r in rows && r.key == k
    ensures w in rows && w.key == k && Unbeaten(rows, w)
    decreases |rows|
  {
    hide Newer, NumericHead;
    var n := |rows| - 1;
    var init, last := rows[..n], rows[n];
    assert rows == init + [last];
    NewerTies(last, last);
    if exists r :: r in init && r.key == k {
      w := Champion(init, k);
      if last.key == k && Newer(last, w) {
        forall r | r in rows && r.key == k
          ensures !Newer(r, last)
        {
          TotalOrder(w.revision, last.revision, r.revision);
          NewerTransitive(r, last, w);
        }
        w := last;
      }
    } else {
      w := last;
    }
  }

  /** A page that does not mix numbered and other revisions has maximal rows. */
  lemma {:induction false} AlikeHasMaxima(rows: seq<Row>)
    requires Alike(rows)
    ensures HasMaxima(rows)
  {
    forall i | 0 <= i < |rows| && rows[i].key != ""
      ensures HasMaximum(rows, rows[i].key)
    {
      assert rows[i] in rows;
      var w := Champion(rows, rows[i].key);
    }
  }

  /** A stamp as the service writes them: a date, a time, and colons only in the
      time. */
  predicate IsoShaped(s: string) {
    |s| > 4 && s[4] == '-' && forall i :: 0 <= i < 4 ==> s[i] != ':'
  }

  lemma {:induction false} IsoIsNoNumber(s: string)
    requires IsoShaped(s)
    ensures !NumericHead(s)
  {
    HeadReaches(s, 4);
    assert Head(s)[4] == '-';
  }

  lemma {:induction false} HeadReaches(s: string, n: nat)
    requires n < |s| && forall i :: 0 <= i <= n ==> s[i] != ':'
    ensures HeadLength(s) > n
    decreases n
  {
    if n > 0 {
      HeadReaches(s[1..], n - 1);
    }
  }

  /** A notification row: its revision is its stamp, or its id where it has none. */
  predicate Notification(r: Row) {
    if r.at.Some? then r.at.value > 0 && IsoShaped(r.revision) else r.key == "notification:" + r.revision
  }

  lemma {:induction false} NotificationsAlike(rows: seq<Row>)
    requires forall r :: r in rows ==> Notification(r)
    ensures Alike(rows)
  {
    forall a, b | a in rows && b in rows && a.key == b.key && AtMs(a) == AtMs(b)
      ensures NumericHead(a.revision) <==> NumericHead(b.revision)
    {
      assert Notification(a) && Notification(b);
      if a.at.Some? {
        IsoIsNoNumber(a.revision);
        IsoIsNoNumber(b.revision);
      } else {
        SameSuffix("notification:", a.revision, b.revision);
      }
    }
  }

  lemma {:induction false} SameSuffix(p: string, a: string, b: string)
    requires p + a == p + b
    ensures a == b
  {
    assert a == (p + a)[|p|..] && b == (p + b)[|p|..];
  }

  /** An entity whose newest rows are three revisions that beat each other in a
      circle has no maximal row. */
  lemma {:induction false} CircularPage(rows: seq<Row>, a: Row, b: Row, c: Row)
    requires a in rows && b in rows && c in rows && a.key == b.key == c.key != "" && AtMs(a) == AtMs(b) == AtMs(c)
    requires Circular(a.revision, b.revision, c.revision)
    requires forall r :: r in rows && r.key == a.key ==> AtMs(r) < AtMs(a) || r in [a, b, c]
    ensures !HasMaxima(rows)
  {
    Antisymmetric(a.revision, b.revision);
    Antisymmetric(b.revision, c.revision);
    Antisymmetric(c.revision, a.revision);
    assert Newer(b, a) && Newer(c, b) && Newer(a, c);
    forall w | w in rows && w.key == a.key
      ensures !Unbeaten(rows, w)
    {
      if w == b {
        assert Newer(c, w);
      } else if w == c {
        assert Newer(a, w);
      } else if w == a {
        assert Newer(b, w);
      } else {
        assert AtMs(w) < AtMs(a);
        assert Newer(a, w);
      }
    }
    assert !HasMaximum(rows, a.key);
  }

  // ---- the page's order ---------------------------------------------------------------

  /** Both orders of the page keep the same entities at the same time and
      revision. */
  ghost predicate SameNewest(rows: seq<Row>, shuffled: seq<Row>) {
    && NewestMap(rows).Keys == NewestMap(shuffled).Keys
    && forall k :: k in NewestMap(rows) ==> Ties(NewestMap(rows)[k], NewestMap(shuffled)[k])
  }

  ghost predicate Shuffles(rows: seq<Row>, shuffled: seq<Row>) {
    multiset(rows) == multiset(shuffled)
  }

  lemma {:induction false} ShuffledMember(rows: seq<Row>, shuffled: seq<Row>, r: Row)
    requires Shuffles(rows, shuffled)
    ensures r in rows <==> r in shuffled
  {
    assert r in multiset(rows) <==> r in multiset(shuffled);
  }

  lemma {:induction false} SameMaximum(rows: seq<Row>, shuffled: seq<Row>, k: string)
    requires Shuffles(rows, shuffled) && k != "" && HasMaximum(rows, k)
    ensures k in NewestMap(rows) && k in NewestMap(shuffled) && Ties(NewestMap(rows)[k], NewestMap(shuffled)[k])
  {
    hide NewestMap, Newer;
    var w :| w in rows && w.key == k && Unbeaten(rows, w);
    UnbeatenIsKept(rows, w);
    ShuffledMember(rows, shuffled, w);
    forall r | r in shuffled && r.key == k
      ensures !Newer(r, w)
    {
      ShuffledMember(rows, shuffled, r);
    }
    UnbeatenIsKept(shuffled, w);
  }

  lemma {:induction false} ShuffledKeys(rows: seq<Row>, shuffled: seq<Row>, k: string)
    requires Shuffles(rows, shuffled) && k in NewestMap(shuffled)
    ensures k in NewestMap(rows)
  {
    hide NewestMap;
    NewestIn(shuffled);
    ShuffledMember(rows, shuffled, NewestMap(shuffled)[k]);
    NewestIn(rows);
  }

  lemma {:induction false} OrderFreeRevision(rows: seq<Row>, shuffled: seq<Row>)
    requires HasMaxima(rows) && Shuffles(rows, shuffled)
    ensures SameNewest(rows, shuffled)
  {
    hide NewestMap, HasMaximum, Ties, Shuffles;
    NewestIn(rows);
    forall k | k in NewestMap(rows)
      ensures k in NewestMap(shuffled) && Ties(NewestMap(rows)[k], NewestMap(shuffled)[k])
    {
      SameMaximum(rows, shuffled, k);
    }
    forall k | k in NewestMap(shuffled)
      ensures k in NewestMap(rows)
    {
      ShuffledKeys(rows, shuffled, k);
    }
  }

  function Pick(rows: seq<Row>, h: Row, tied: bool): (out: seq<Row>)
    ensures forall r :: r in out <==> r in rows && Ties(r, h) == tied
  {
    if rows == [] then []
    else
      var last := rows[|rows| - 1];
      assert rows == rows[..|rows| - 1] + [last];
      Pick(rows[..|rows| - 1], h, tied) + (if Ties(last, h) == tied then [last] else [])
  }

  lemma {:induction false} PickShuffles(rows: seq<Row>, h: Row)
    ensures Shuffles(rows, Pick(rows, h, true) + Pick(rows, h, false))
    decreases |rows|
  {
    if rows != [] {
      var n := |rows| - 1;
      PickShuffles(rows[..n], h);
      assert rows == rows[..n] + [rows[n]];
    }
  }

  /** A row that is beaten by a later one does not come back. */
  lemma {:induction false} BeatenIsLost(first: seq<Row>, rest: seq<Row>, h: Row)
    requires h.key != "" && forall r :: r in first ==> Ties(r, h)
    requires exists r :: r in rest && r.key == h.key && Newer(r, h)
    ensures h.key in NewestMap(first + rest) && NewestMap(first + rest)[h.key] in rest
    decreases |rest|
  {
    hide Newer;
    var n := |rest| - 1;
    var init, last := rest[..n], rest[n];
    assert rest == init + [last];
    assert (first + rest)[..|first + rest| - 1] == first + init;
    NewestIn(first + init);
    if exists r :: r in init && r.key == h.key && Newer(r, h) {
      BeatenIsLost(first, init, h);
    } else if h.key in NewestMap(first + init) {
      var held := NewestMap(first + init)[h.key];
      if held in first {
        NewerLike(last, held, h);
      }
    }
  }

  /** Without a maximal row some other order of the page keeps another revision. */
  lemma {:induction false} NoMaximumShuffles(rows: seq<Row>, k: string) returns (shuffled: seq<Row>)
    requires k in NewestMap(rows) && !HasMaximum(rows, k)
    ensures Shuffles(rows, shuffled) && k in NewestMap(shuffled) && !Ties(NewestMap(rows)[k], NewestMap(shuffled)[k])
  {
    hide Newer, NewestMap, HasMaximum, Shuffles;
    NewestIn(rows);
    MaximumIsKept(rows, k);
    var h := NewestMap(rows)[k];
    var x :| x in rows && x.key == k && Newer(x, h);
    NewerTies(x, h);
    var first, rest := Pick(rows, h, true), Pick(rows, h, false);
    assert x in rest;
    BeatenIsLost(first, rest, h);
    PickShuffles(rows, h);
    shuffled := first + rest;
    TiesBack(h, NewestMap(shuffled)[k]);
  }

  lemma {:induction false} TiesBack(a: Row, b: Row)
    ensures Ties(a, b) <==> Ties(b, a)
  {
  }

  /** Which time and revision the entities get is independent of the page's order
      exactly if the page has maximal rows. */
  lemma {:induction false} OrderFreeExactly(rows: seq<Row>)
    ensures HasMaxima(rows) <==> forall shuffled :: Shuffles(rows, shuffled) ==> SameNewest(rows, shuffled)
  {
    hide NewestMap, HasMaximum, Ties, Shuffles;
    if HasMaxima(rows) {
      forall shuffled | Shuffles(rows, shuffled)
        ensures SameNewest(rows, shuffled)
      {
        OrderFreeRevision(rows, shuffled);
      }
    } else {
      var i :| 0 <= i < |rows| && rows[i].key != "" && !HasMaximum(rows, rows[i].key);
      NewestIn(rows);
      var shuffled := NoMaximumShuffles(rows, rows[i].key);
      assert !SameNewest(rows, shuffled);
    }
  }

  /** With maximal rows the whole map is independent of the page's order, when a
      row is determined by its key, time and revision. */
  lemma {:induction false} OrderFree(rows: seq<Row>, shuffled: seq<Row>)
    requires HasMaxima(rows) && Shuffles(rows, shuffled)
    requires forall a, b :: a in rows && b in rows && Ties(a, b) ==> a == b
    ensures NewestMap(rows) == NewestMap(shuffled)
  {
    hide NewestMap, HasMaxima, Shuffles, Ties;
    OrderFreeRevision(rows, shuffled);
    forall k | k in NewestMap(rows)
      ensures NewestMap(rows)[k] == NewestMap(shuffled)[k]
    {
      KeptInBoth(rows, shuffled, k);
    }
  }

  lemma {:induction false} KeptInBoth(rows: seq<Row>, shuffled: seq<Row>, k: string)
    requires Shuffles(rows, shuffled) && k in NewestMap(rows) && k in NewestMap(shuffled)
    ensures NewestMap(rows)[k] in rows && NewestMap(shuffled)[k] in rows
  {
    hide NewestMap;
    NewestIn(rows);
    NewestIn(shuffled);
    ShuffledMember(rows, shuffled, NewestMap(shuffled)[k]);
  }

  method NewestEntityRows(rows: seq<Row>) returns (out: seq<Row>)
    ensures |out| == |KeyOrder(rows)|
    ensures forall i :: 0 <= i < |out| ==> KeyOrder(rows)[i] in NewestMap(rows) && out[i] == NewestMap(rows)[KeyOrder(rows)[i]]
  {
    var byKey: map<string, Row> := map[];
    var order := [];
    for n := 0 to |rows|
      invariant byKey == NewestMap(rows[..n]) && order == KeyOrder(rows[..n])
    {
      assert rows[..n + 1][..n] == rows[..n];
      KeyOrderMatches(rows[..n]);
      var row := rows[n];
      if row.key != "" {
        if row.key !in byKey {
          byKey := byKey[row.key := row];
          order := order + [row.key];
        } else if Newer(row, byKey[row.key]) {
          byKey := byKey[row.key := row];
        }
      }
    }
    assert rows[..|rows|] == rows;
    KeyOrderMatches(rows);
    out := seq(|order|, i requires 0 <= i < |order| => byKey[order[i]]);
  }

  // ---- settled history -----------------------------------------------------------

  /** A row's place in the history: when it was settled, else noticed, else
      dated. */
  function HistoryStamp(r: Row): Option<int> {
    Or(r.settledAt, Or(r.noticedAt, r.at))
  }

  /** The history comparator: `a` comes before `b`. An unreadable stamp on
      either side falls through to the snapshot time. */
  predicate Earlier(l: Locale, a: Row, b: Row) {
    var left, right := HistoryStamp(a), HistoryStamp(b);
    if left.Some? && right.Some? && left.value != right.value then left.value > right.value
    else if AtMs(a) != AtMs(b) then AtMs(a) > AtMs(b)
    else l(a.key, b.key) <= 0
  }

  /** History is ordered by when a row was settled, else noticed, else dated,
      latest first; at one time by its date, and then by its key. */
  lemma {:induction false} EarlierMeans(l: Locale, a: Row, b: Row)
    ensures a.settledAt.Some? && b.settledAt.Some? && a.settledAt != b.settledAt ==>
              (Earlier(l, a, b) <==> a.settledAt.value > b.settledAt.value)
    ensures a.settledAt.None? && a.noticedAt.Some? && b.settledAt.Some? && a.noticedAt != b.settledAt ==>
              (Earlier(l, a, b) <==> a.noticedAt.value > b.settledAt.value)
    ensures a.settledAt.None? && a.noticedAt.None? && a.at.Some? && b.settledAt.Some? && a.at != b.settledAt ==>
              (Earlier(l, a, b) <==> a.at.value > b.settledAt.value)
    ensures a.settledAt.Some? && a.settledAt == b.settledAt && a.at.Some? && b.at.Some? && a.at != b.at ==>
              (Earlier(l, a, b) <==> a.at.value > b.at.value)
    ensures a.settledAt.Some? && a.settledAt == b.settledAt && a.at == b.at ==> (Earlier(l, a, b) <==> l(a.key, b.key) <= 0)
  {
  }

  function InsertKey(l: Locale, items: map<string, Row>, sorted: seq<string>, k: string): (out: seq<string>)
    requires k in items && forall i :: 0 <= i < |sorted| ==> sorted[i] in items
    ensures multiset(out) == multiset(sorted) + multiset{k}
    ensures forall i :: 0 <= i < |out| ==> out[i] in items
  {
    if sorted == [] then [k]
    else if Earlier(l, items[k], items[sorted[0]]) then [k] + sorted
    else
      assert sorted == [sorted[0]] + sorted[1..];
      [sorted[0]] + InsertKey(l, items, sorted[1..], k)
  }

  function History(l: Locale, items: map<string, Row>, keys: seq<string>): (out: seq<string>)
    requires forall i :: 0 <= i < |keys| ==> keys[i] in items
    ensures multiset(out) == multiset(keys)
    ensures forall i :: 0 <= i < |out| ==> out[i] in items
  {
    if keys == [] then []
    else
      assert keys == keys[..|keys| - 1] + [keys[|keys| - 1]];
      InsertKey(l, items, History(l, items, keys[..|keys| - 1]), keys[|keys| - 1])
  }

  ghost predicate NewestFirst(l: Locale, items: map<string, Row>, keys: seq<string>)
    requires forall i :: 0 <= i < |keys| ==> keys[i] in items
  {
    forall i, j :: 0 <= i < j < |keys| ==> Earlier(l, items[keys[i]], items[keys[j]])
  }

  /** These rows carry readable history stamps. */
  ghost predicate Stamped(items: map<string, Row>, keys: seq<string>) {
    forall k :: k in keys ==> k in items && HistoryStamp(items[k]).Some?
  }

  lemma {:induction false} EarlierOrder(l: Locale, a: Row, b: Row, c: Row)
    requires IsOrder(l) && HistoryStamp(a).Some? && HistoryStamp(b).Some? && HistoryStamp(c).Some?
    ensures Earlier(l, a, b) || Earlier(l, b, a)
    ensures Earlier(l, a, b) && Earlier(l, b, c) ==> Earlier(l, a, c)
  {
  }

  /** Without readable stamps the comparator is not transitive. */
  lemma EarlierNotTransitive(l: Locale, a: Row, b: Row, c: Row)
    requires HistoryStamp(a) == Some(10) && HistoryStamp(b) == None && HistoryStamp(c) == Some(20)
    requires AtMs(a) == AtMs(b) == AtMs(c) && l(a.key, b.key) <= 0 && l(b.key, c.key) <= 0
    ensures Earlier(l, a, b) && Earlier(l, b, c) && !Earlier(l, a, c)
  {
  }

  lemma {:induction false} InsertKeySorted(l: Locale, items: map<string, Row>, sorted: seq<string>, k: string)
    requires k in items && forall i :: 0 <= i < |sorted| ==> sorted[i] in items
    requires IsOrder(l) && Stamped(items, sorted + [k])
    requires NewestFirst(l, items, sorted)
    ensures NewestFirst(l, items, InsertKey(l, items, sorted, k))
    decreases |sorted|
  {
    hide Earlier, HistoryStamp;
    if sorted != [] {
      EarlierOrder(l, items[k], items[sorted[0]], items[k]);
      if Earlier(l, items[k], items[sorted[0]]) {
        forall j | 0 <= j < |sorted|
          ensures Earlier(l, items[k], items[sorted[j]])
        {
          EarlierOrder(l, items[k], items[sorted[0]], items[sorted[j]]);
        }
      } else {
        var tail := InsertKey(l, items, sorted[1..], k);
        InsertKeySorted(l, items, sorted[1..], k);
        forall q | q in tail
          ensures Earlier(l, items[sorted[0]], items[q])
        {
          assert q in multiset(tail);
          assert q == k || q in sorted[1..];
        }
      }
    }
  }

  lemma {:induction false} HistoryStamped(l: Locale, items: map<string, Row>, keys: seq<string>)
    requires keys != [] && Stamped(items, keys)
    ensures var n := |keys| - 1;
            Stamped(items, keys[..n]) && Stamped(items, History(l, items, keys[..n]) + [keys[n]])
  {
    hide History, HistoryStamp;
    var init := keys[..|keys| - 1];
    forall k | k in History(l, items, init)
      ensures k in init
    {
      assert k in multiset(History(l, items, init));
    }
  }

  /** With readable stamps the history is sorted newest first. */
  lemma {:induction false} HistorySorted(l: Locale, items: map<string, Row>, keys: seq<string>)
    requires forall i :: 0 <= i < |keys| ==> keys[i] in items
    requires IsOrder(l) && Stamped(items, keys)
    ensures NewestFirst(l, items, History(l, items, keys))
    decreases |keys|
  {
    hide InsertKey, HistoryStamp, IsOrder, Earlier, Stamped, NewestFirst;
    if keys != [] {
      var n := |keys| - 1;
      HistoryStamped(l, items, keys);
      HistorySorted(l, items, keys[..n]);
      InsertKeySorted(l, items, History(l, items, keys[..n]), keys[n]);
    } else {
      NothingSorted(l, items);
    }
  }

  lemma NothingSorted(l: Locale, items: map<string, Row>)
    ensures NewestFirst(l, items, [])
  {
  }
}
