/** The managed-file ledger of cybexos_managed_file.py: a file is
    updated or removed while its bytes are those of a recorded write, and left
    to the user otherwise. SHA-256 is taken to be injective, so a content stands
    for its digest. */
module ManagedFile {
  import opened Common

  type Path = string
  type Bytes = seq<int>

  /** What a path holds; a symbolic link (there or on the way) or anything that
      is not a regular file is `Special`. */
  datatype Node = Absent | File(bytes: Bytes) | Special

  /** The file system, the ledger's digests per path, and the saved copies. */
  datatype Disk = Disk(files: map<Path, Node>, ledger: map<Path, seq<Bytes>>, backups: set<(Path, Bytes)>)

  /** The durable steps of one call: each is a rename or an unlink. */
  datatype Write =
    | Backup(path: Path, bytes: Bytes)
    | Record(path: Path, digests: seq<Bytes>)
    | Publish(path: Path, bytes: Bytes)
    | Remove(path: Path)

  function NodeAt(d: Disk, p: Path): Node {
    if p in d.files then d.files[p] else Absent
  }

  function Digests(d: Disk, p: Path): seq<Bytes> {
    if p in d.ledger then d.ledger[p] else []
  }

  function Perform(d: Disk, w: Write): Disk {
    match w
    case Backup(p, b) => d.(backups := d.backups + {(p, b)})
    case Record(p, ds) => d.(ledger := d.ledger[p := ds])
    case Publish(p, b) => d.(files := d.files[p := File(b)])
    case Remove(p) => d.(files := d.files[p := Absent])
  }

  function PerformAll(d: Disk, ws: seq<Write>): Disk {
    if ws == [] then d else Perform(PerformAll(d, ws[..|ws| - 1]), ws[|ws| - 1])
  }

  // ---- one call ------------------------------------------------------------------

  function Content(n: Node): Option<Bytes> {
    if n.File? then Some(n.bytes) else None
  }

  /** The call leaves the path alone: it is not a plain file, the bytes are not
      ours, or an adopted file was deleted. */
  predicate Preserves(d: Disk, p: Path, want: Option<Bytes>) {
    var node := NodeAt(d, p);
    || node.Special?
    || (node.File? && Some(node.bytes) != want && node.bytes !in Digests(d, p))
    || (node.Absent? && Digests(d, p) != [])
  }

  predicate Changes(d: Disk, p: Path, want: Option<Bytes>) {
    Content(NodeAt(d, p)) != want
  }

  /** The digests recorded before publication: old and new, once each. */
  function BothDigests(current: Option<Bytes>, want: Option<Bytes>): seq<Bytes> {
    (if current.Some? then [current.value] else [])
    + (if want.Some? && want != current then [want.value] else [])
  }

  function FinalDigests(want: Option<Bytes>): seq<Bytes> {
    if want.Some? then [want.value] else []
  }

  /** The durable steps of a call that does not preserve, in order. `want` is
      None when the file is to be absent. */
  function Writes(d: Disk, p: Path, want: Option<Bytes>): seq<Write> {
    var current := Content(NodeAt(d, p));
    (if Changes(d, p, want) && current.Some? && (p, current.value) !in d.backups then [Backup(p, current.value)] else [])
    + [Record(p, BothDigests(current, want))]
    + (if !Changes(d, p, want) then [] else if want.Some? then [Publish(p, want.value)] else [Remove(p)])
    + [Record(p, FinalDigests(want))]
  }

  function Plan(d: Disk, p: Path, want: Option<Bytes>): seq<Write> {
    if Preserves(d, p, want) then [] else Writes(d, p, want)
  }

  /** A call that crashes after `n` durable steps, or completes. */
  function Manage(d: Disk, p: Path, want: Option<Bytes>, n: nat): Disk {
    var ws := Plan(d, p, want);
    PerformAll(d, if n < |ws| then ws[..n] else ws)
  }

  function Complete(d: Disk, p: Path, want: Option<Bytes>): Disk {
    PerformAll(d, Plan(d, p, want))
  }

  // ---- what any number of durable steps did ------------------------------------------

  /** The plan's steps by position: how many come before the publication. */
  function Saves(d: Disk, p: Path, want: Option<Bytes>): nat {
    var current := Content(NodeAt(d, p));
    if Changes(d, p, want) && current.Some? && (p, current.value) !in d.backups then 1 else 0
  }

  /** The disk after `n` steps of the plan, written out. */
  function After(d: Disk, p: Path, want: Option<Bytes>, n: nat): Disk {
    var current := Content(NodeAt(d, p));
    var s := Saves(d, p, want);
    var c := if Changes(d, p, want) then 1 else 0;
    Disk(
      if c == 1 && n >= s + 2 then d.files[p := if want.Some? then File(want.value) else Absent] else d.files,
      if n >= s + c + 2 then d.ledger[p := FinalDigests(want)]
      else if n >= s + 1 then d.ledger[p := BothDigests(current, want)] else d.ledger,
      if s == 1 && n >= 1 then d.backups + {(p, current.value)} else d.backups)
  }

  lemma {:induction false} PerformPrefix(d: Disk, ws: seq<Write>, n: nat)
    requires n < |ws|
    ensures PerformAll(d, ws[..n + 1]) == Perform(PerformAll(d, ws[..n]), ws[n])
  {
    assert ws[..n + 1][..n] == ws[..n];
  }

  lemma {:induction false} AfterSteps(d: Disk, p: Path, want: Option<Bytes>, n: nat)
    requires !Preserves(d, p, want) && n <= |Writes(d, p, want)|
    ensures PerformAll(d, Writes(d, p, want)[..n]) == After(d, p, want, n)
    decreases n
  {
    var ws := Writes(d, p, want);
    if n > 0 {
      AfterSteps(d, p, want, n - 1);
      PerformPrefix(d, ws, n - 1);
      StepAt(d, p, want, n - 1);
    }
  }

  lemma {:induction false} StepAt(d: Disk, p: Path, want: Option<Bytes>, i: nat)
    requires !Preserves(d, p, want) && i < |Writes(d, p, want)|
    ensures Perform(After(d, p, want, i), Writes(d, p, want)[i]) == After(d, p, want, i + 1)
  {
    var s := Saves(d, p, want);
    assert i < s ==> i == 0;
  }

  /** A crashed or completed call, written out. */
  lemma {:induction false} ManageIs(d: Disk, p: Path, want: Option<Bytes>, n: nat)
    ensures Preserves(d, p, want) ==> Manage(d, p, want, n) == d
    ensures !Preserves(d, p, want) ==>
              var len := |Writes(d, p, want)|;
              Manage(d, p, want, n) == After(d, p, want, if n < len then n else len)
  {
    if !Preserves(d, p, want) {
      var ws := Writes(d, p, want);
      AfterSteps(d, p, want, if n < |ws| then n else |ws|);
      assert ws[..|ws|] == ws;
    }
  }

  lemma {:induction false} CompleteIs(d: Disk, p: Path, want: Option<Bytes>)
    ensures Complete(d, p, want) == if Preserves(d, p, want) then d else After(d, p, want, |Writes(d, p, want)|)
  {
    ManageIs(d, p, want, |Writes(d, p, want)|);
  }

  // ---- safety of one call --------------------------------------------------------------

  /** Contents this ledger may recognise as its own. */
  ghost predicate OnlyVendor(d: Disk, vendor: set<(Path, Bytes)>) {
    forall p, b :: p in d.ledger && b in d.ledger[p] ==> (p, b) in vendor
  }

  function Offer(vendor: set<(Path, Bytes)>, p: Path, want: Option<Bytes>): set<(Path, Bytes)> {
    if want.Some? then vendor + {(p, want.value)} else vendor
  }

  /** However far it gets, a call touches one path, replaces or removes only
      contents the vendor once offered for that path, and only once they are
      saved; what the ledger holds stays vendor content. */
  lemma {:induction false} ManageIsSafe(d: Disk, p: Path, want: Option<Bytes>, n: nat, vendor: set<(Path, Bytes)>)
    requires OnlyVendor(d, vendor)
    ensures var e := Manage(d, p, want, n);
            && OnlyVendor(e, Offer(vendor, p, want))
            && d.backups <= e.backups
            && (forall q :: q != p ==> NodeAt(e, q) == NodeAt(d, q) && Digests(e, q) == Digests(d, q))
            && (NodeAt(e, p) != NodeAt(d, p) && !NodeAt(d, p).Absent? ==>
                  && NodeAt(d, p).File?
                  && (p, NodeAt(d, p).bytes) in vendor
                  && (p, NodeAt(d, p).bytes) in e.backups)
  {
    ManageIs(d, p, want, n);
    hide Manage, Writes;
  }

  // ---- runs --------------------------------------------------------------------------------

  /** Between calls the user may put anything anywhere. */
  datatype Action = Call(path: Path, want: Option<Bytes>, steps: nat) | User(path: Path, node: Node)

  function Act(d: Disk, a: Action): Disk {
    match a
    case Call(p, want, n) => Manage(d, p, want, n)
    case User(p, node) => d.(files := d.files[p := node])
  }

  function Run(d: Disk, actions: seq<Action>): Disk {
    if actions == [] then d else Act(Run(d, actions[..|actions| - 1]), actions[|actions| - 1])
  }

  /** Everything the vendor offered during the run. */
  function Offered(actions: seq<Action>): set<(Path, Bytes)> {
    if actions == [] then {}
    else
      var rest := Offered(actions[..|actions| - 1]);
      match actions[|actions| - 1]
      case Call(p, want, _) => Offer(rest, p, want)
      case User(_, _) => rest
  }

  const FRESH: map<Path, seq<Bytes>> := map[]

  lemma {:induction false} RunLedger(d: Disk, actions: seq<Action>)
    requires d.ledger == FRESH
    ensures OnlyVendor(Run(d, actions), Offered(actions))
    decreases |actions|
  {
    if actions != [] {
      var init, last := actions[..|actions| - 1], actions[|actions| - 1];
      RunLedger(d, init);
      if last.Call? {
        ManageIsSafe(Run(d, init), last.path, last.want, last.steps, Offered(init));
      }
    }
  }

  /** Over a whole run with crashes and user edits: bytes the vendor never
      offered are never replaced or removed by a call, and everything a call
      replaced or removed is saved. */
  lemma {:induction false} UserBytesSurvive(d: Disk, actions: seq<Action>, call: Action, q: Path)
    requires d.ledger == FRESH && call.Call? && NodeAt(Run(d, actions), q).File?
    requires NodeAt(Act(Run(d, actions), call), q) != NodeAt(Run(d, actions), q)
    ensures var lost := NodeAt(Run(d, actions), q).bytes;
            (q, lost) in Offered(actions) && (q, lost) in Act(Run(d, actions), call).backups
  {
    RunLedger(d, actions);
    ManageIsSafe(Run(d, actions), call.path, call.want, call.steps, Offered(actions));
  }

  /** Saved copies are never dropped. */
  lemma {:induction false} BackupsGrow(d: Disk, actions: seq<Action>, more: seq<Action>)
    requires d.ledger == FRESH
    ensures Run(d, actions).backups <= Run(d, actions + more).backups
    decreases |more|
  {
    hide Manage, OnlyVendor, Offered, NodeAt, Digests;
    if more == [] {
      assert actions + more == actions;
    } else {
      var all, n := actions + more, |actions| + |more| - 1;
      assert all[..n] == actions + more[..|more| - 1];
      BackupsGrow(d, actions, more[..|more| - 1]);
      if all[n].Call? {
        RunLedger(d, all[..n]);
        ManageIsSafe(Run(d, all[..n]), all[n].path, all[n].want, all[n].steps, Offered(all[..n]));
      }
    }
  }

  /** Once an adopted file is deleted, no later call brings it back. */
  lemma {:induction false} DeletionStays(d: Disk, actions: seq<Action>, p: Path)
    requires NodeAt(d, p).Absent? && Digests(d, p) != []
    requires forall i :: 0 <= i < |actions| ==> !(actions[i].User? && actions[i].path == p)
    ensures NodeAt(Run(d, actions), p).Absent? && Digests(Run(d, actions), p) == Digests(d, p)
    decreases |actions|
  {
    if actions != [] {
      var init, last := actions[..|actions| - 1], actions[|actions| - 1];
      DeletionStays(d, init, p);
      if last.Call? {
        ManageIs(Run(d, init), last.path, last.want, last.steps);
      }
    }
  }

  // ---- crash recovery ---------------------------------------------------------------------

  /** The call's goal is reached and recorded. */
  ghost predicate Settled(d: Disk, p: Path, want: Option<Bytes>) {
    Content(NodeAt(d, p)) == want && !NodeAt(d, p).Special? && Digests(d, p) == FinalDigests(want)
  }

  /** The path is the vendor's to manage: nothing is there and nothing was ever
      adopted, or a file that holds the wanted bytes or bytes the ledger records. */
  predicate Ours(d: Disk, p: Path, want: Option<Bytes>) {
    match NodeAt(d, p)
    case Absent => Digests(d, p) == []
    case File(bytes) => want == Some(bytes) || bytes in Digests(d, p)
    case Special => false
  }

  /** A completed call reaches and records its goal exactly on the vendor's own
      paths, after saving what it replaces; elsewhere it changes nothing. */
  lemma {:induction false} CallOutcome(d: Disk, p: Path, want: Option<Bytes>)
    ensures var e := Complete(d, p, want);
            && (Settled(e, p, want) <==> Ours(d, p, want))
            && (!Ours(d, p, want) ==> e == d)
            && (Ours(d, p, want) && NodeAt(d, p).File? && want != Some(NodeAt(d, p).bytes) ==>
                  (p, NodeAt(d, p).bytes) in e.backups)
            && (forall b :: b in e.backups - d.backups ==>
                  NodeAt(d, p).File? && b == (p, NodeAt(d, p).bytes) && want != Some(NodeAt(d, p).bytes))
            && (forall q :: q != p ==> NodeAt(e, q) == NodeAt(d, q) && Digests(e, q) == Digests(d, q))
  {
    CompleteIs(d, p, want);
  }

  /** A settled path: another run changes nothing on it. */
  lemma {:induction false} SettledIsStable(d: Disk, p: Path, want: Option<Bytes>)
    requires Settled(d, p, want)
    ensures !Preserves(d, p, want) && !Changes(d, p, want)
    ensures Settled(Complete(d, p, want), p, want) && Complete(d, p, want).files == d.files
  {
    CompleteIs(d, p, want);
  }

  /** The two points where a crash looks like a deletion by the user: a first
      creation after the first ledger write, and a removal after the unlink. */
  predicate LooksDeleted(d: Disk, p: Path, want: Option<Bytes>, n: nat) {
    var current := Content(NodeAt(d, p));
    || (current.None? && want.Some? && n == 1)
    || (current.Some? && want.None? && n == |Writes(d, p, want)| - 1)
  }

  /** After a crash at any step, running the same call again reaches and records
      the goal, except exactly where the crash looks like a deletion. */
  lemma {:induction false} CrashRecovers(d: Disk, p: Path, want: Option<Bytes>, n: nat)
    requires !Preserves(d, p, want) && n <= |Writes(d, p, want)|
    ensures var crashed := Manage(d, p, want, n);
            Settled(Complete(crashed, p, want), p, want) <==> !LooksDeleted(d, p, want, n)
  {
    ManageIs(d, p, want, n);
    var crashed := Manage(d, p, want, n);
    CompleteIs(crashed, p, want);
  }

  /** An update of a file the ledger owns always recovers. */
  lemma {:induction false} UpdateRecovers(d: Disk, p: Path, owned: Bytes, update: Bytes, n: nat)
    requires NodeAt(d, p) == File(owned) && owned in Digests(d, p) && n <= |Writes(d, p, Some(update))|
    ensures Settled(Complete(Manage(d, p, Some(update), n), p, Some(update)), p, Some(update))
  {
    CrashRecovers(d, p, Some(update), n);
  }

  /** At the two exceptions, every later call leaves the path absent. */
  lemma {:induction false} LooksDeletedForever(d: Disk, p: Path, want: Option<Bytes>, n: nat, actions: seq<Action>)
    requires !Preserves(d, p, want) && n <= |Writes(d, p, want)| && LooksDeleted(d, p, want, n)
    requires forall i :: 0 <= i < |actions| ==> !(actions[i].User? && actions[i].path == p)
    ensures NodeAt(Run(Manage(d, p, want, n), actions), p).Absent?
  {
    ManageIs(d, p, want, n);
    DeletionStays(Manage(d, p, want, n), actions, p);
  }

  // ---- the program ---------------------------------------------------------------------------

  datatype Report = Report(changed: bool, preserved: bool)

  class Machine {
    var files: map<Path, Node>
    var ledger: map<Path, seq<Bytes>>
    var backups: set<(Path, Bytes)>

    ghost function State(): Disk
      reads this
    {
      Disk(files, ledger, backups)
    }

    constructor (files: map<Path, Node>)
      ensures State() == Disk(files, FRESH, {})
    {
      this.files, ledger, backups := files, FRESH, {};
    }

    /** One call, stopped after `budget` durable steps by a crash. */
    method ManageFile(p: Path, want: Option<Bytes>, check: bool, budget: nat) returns (r: Option<Report>)
      modifies this
      ensures check ==> State() == old(State())
      ensures !check ==> State() == Manage(old(State()), p, want, budget)
      ensures r.Some? ==> r.value == if old(Preserves(State(), p, want)) then Report(false, true)
                                     else Report(old(Changes(State(), p, want)), false)
      ensures r.None? <==> !check && budget < |old(Plan(State(), p, want))|
      ensures r.Some? ==>
                r.value == if old(Ours(State(), p, want)) then Report(old(Content(NodeAt(State(), p))) != want, false)
                           else Report(false, true)
      ensures r.Some? && !check ==>
                if old(Ours(State(), p, want)) then Settled(State(), p, want) else State() == old(State())
    {
      ghost var d := State();
      ManageIs(d, p, want, budget);
      CompleteIs(d, p, want);
      CallOutcome(d, p, want);
      hide Manage, After, Writes;
      var digests := if p in ledger then ledger[p] else [];
      var node := if p in files then files[p] else Absent;
      if node.Special? {
        return Some(Report(false, true));
      }
      var current := if node.File? then Some(node.bytes) else None;
      if current.Some? && current != want && current.value !in digests {
        return Some(Report(false, true));
      }
      if current.None? && digests != [] {
        return Some(Report(false, true));
      }
      var changed := current != want;
      if check {
        return Some(Report(changed, false));
      }
      var finished := Execute(p, want, current, budget);
      r := if finished then Some(Report(changed, false)) else None;
    }

    /** The durable steps, in order, until the budget runs out. */
    method Execute(p: Path, want: Option<Bytes>, current: Option<Bytes>, budget: nat) returns (finished: bool)
      requires !Preserves(State(), p, want) && current == Content(NodeAt(State(), p))
      modifies this
      ensures var len := |old(Writes(State(), p, want))|;
              State() == old(After(State(), p, want, if budget < len then budget else len))
      ensures finished <==> budget >= |old(Writes(State(), p, want))|
    {
      var left := budget;
      var changed := current != want;
      if changed && current.Some? && (p, current.value) !in backups {
        if left == 0 { return false; }
        left := left - 1;
        backups := backups + {(p, current.value)};
      }
      if left == 0 { return false; }
      left := left - 1;
      ledger := ledger[p := BothDigests(current, want)];
      if changed {
        if left == 0 { return false; }
        left := left - 1;
        files := files[p := if want.Some? then File(want.value) else Absent];
      }
      if left == 0 { return false; }
      ledger := ledger[p := FinalDigests(want)];
      return true;
    }
  }
}
