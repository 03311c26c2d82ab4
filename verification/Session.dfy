/** The cookie session of hermes_bridge.py (`RemoteWebUIAuth`): requests snapshot
    the origin and the cookie jar under the lock, run unlocked, and commit under
    the lock only if that snapshot is still current. */
module Session {
  import opened Common

  type Url = string
  type Cookie = int

  /** Jars are compared by identity; every new jar gets a new number. */
  type Jar = nat

  datatype Source = NoSource | Environment | Persisted
  datatype Condition = Disconnected | Connecting | Connected | Expired | Trouble
  datatype Status = Status(condition: Condition, url: Url)
  datatype SavedFile = NoFile | Unreadable | Saved(url: Url, cookies: set<Cookie>)

  /** An operation between its two lock sections. */
  datatype Flight =
    | Request(url: Url, jar: Jar)
    | Probe(url: Url, jar: Jar, current: bool)
    | Login(url: Url, jar: Jar)
    | Logout(url: Url, jar: Jar)

  datatype Auth = Auth(url: Url, jar: Jar, source: Source, status: Status, file: SavedFile,
                       cookies: map<Jar, set<Cookie>>, next: Jar, flights: map<nat, Flight>)

  /** How writing the file ends: written; not written, and raised; or written,
      and raised afterwards. */
  datatype Write = Clean | Unwritten | Late

  datatype Action =
    | BeginRequest(id: nat)
    | BeginProbe(id: nat, target: Option<Url>)
    | BeginLogin(id: nat, url: Url)
    | BeginLogout(id: nat)
    | Respond(id: nat, now: set<Cookie>)              // a response rewrites the flight's jar
    | Finish(id: nat)                                 // no challenge, or a fault that commits nothing
    | Challenge(id: nat, kept: set<Cookie>, write: Write)   // a request was answered with a sign-in demand
    | ProbeDone(id: nat, condition: Condition, kept: set<Cookie>, write: Write)
    | LoginRejected(id: nat)
    | LoginDone(id: nat, kept: set<Cookie>, write: Write)
    | LogoutDone(id: nat, deleted: bool)                    // deleting the file can raise
    | ShowConnecting(target: Option<Url>)

  function CookiesOf(s: Auth, jar: Jar): set<Cookie> {
    if jar in s.cookies then s.cookies[jar] else {}
  }

  function NewJar(s: Auth): Auth {
    s.(jar := s.next, next := s.next + 1, cookies := s.cookies[s.next := {}])
  }

  /** `_save` writes the origin and the cookies of the jar that have not expired;
      `kept` is that choice. */
  function Save(s: Auth, kept: set<Cookie>): Auth {
    s.(file := if s.url == "" then NoFile else Saved(s.url, kept * CookiesOf(s, s.jar)))
  }

  function TrySave(s: Auth, kept: set<Cookie>, write: Write): Auth {
    if write == Unwritten then s else Save(s, kept)
  }

  /** A fresh jar, and an empty saved session where one is saved. */
  function DropCookies(s: Auth, kept: set<Cookie>, write: Write): Auth {
    if s.source == Persisted then TrySave(NewJar(s), kept, write) else NewJar(s)
  }

  /** Dropping the cookies raises. */
  predicate DropRaises(s: Auth, write: Write) {
    s.source == Persisted && write != Clean
  }

  function Land(s: Auth, id: nat): Auth {
    s.(flights := s.flights - {id})
  }

  predicate Current(s: Auth, f: Flight) {
    s.url == f.url && s.jar == f.jar
  }

  /** A raised exception leaves before the status is set. */
  function Expire(s: Auth, kept: set<Cookie>, write: Write): Auth {
    var dropped := DropCookies(s, kept, write);
    if DropRaises(s, write) then dropped else dropped.(status := Status(Expired, s.url))
  }

  predicate ProbeDrops(s: Auth, condition: Condition) {
    condition == Expired && CookiesOf(s, s.jar) != {}
  }

  function ProbeCommit(s: Auth, f: Flight, condition: Condition, kept: set<Cookie>, write: Write): Auth {
    if !ProbeDrops(s, condition) then s.(status := Status(condition, f.url))
    else if DropRaises(s, write) then DropCookies(s, kept, write)
    else DropCookies(s, kept, write).(status := Status(condition, f.url))
  }

  /** One atomic section. Actions that do not apply change nothing. */
  function Step(env: Url, s: Auth, a: Action): Auth {
    match a
    case BeginRequest(id) =>
      if id in s.flights || s.url == "" then s else s.(flights := s.flights[id := Request(s.url, s.jar)])
    case BeginProbe(id, target) =>
      var url := if target.Some? && target.value != "" then target.value else s.url;
      if id in s.flights then s
      else if url == "" then s.(status := Status(Disconnected, s.url))
      else if url == s.url then s.(flights := s.flights[id := Probe(url, s.jar, true)])
      else
        var t := NewJar(s);
        t.(jar := s.jar, flights := s.flights[id := Probe(url, s.next, false)])
    case BeginLogin(id, url) =>
      if id in s.flights || url == "" then s
      else NewJar(s).(jar := s.jar, flights := s.flights[id := Login(url, s.next)])
    case BeginLogout(id) =>
      if id in s.flights then s else s.(flights := s.flights[id := Logout(s.url, s.jar)])
    case Respond(id, now) =>
      if id !in s.flights then s else s.(cookies := s.cookies[s.flights[id].jar := now])
    case Finish(id) => Land(s, id)
    case Challenge(id, kept, write) =>
      if id !in s.flights || !s.flights[id].Request? then s
      else Land(if Current(s, s.flights[id]) then Expire(s, kept, write) else s, id)
    case ProbeDone(id, condition, kept, write) =>
      if id !in s.flights || !s.flights[id].Probe? then s
      else
        var f := s.flights[id];
        Land(if f.current && Current(s, f) then ProbeCommit(s, f, condition, kept, write) else s, id)
    case LoginRejected(id) =>
      if id !in s.flights || !s.flights[id].Login? then s
      else
        var url := s.flights[id].url;
        Land(if url == s.url || s.url == "" then s.(status := Status(Expired, url)) else s, id)
    case LoginDone(id, kept, write) =>
      if id !in s.flights || !s.flights[id].Login? then s
      else
        var f := s.flights[id];
        Land(TrySave(s.(url := f.url, jar := f.jar, source := Persisted, status := Status(Connected, f.url)), kept, write), id)
    case LogoutDone(id, deleted) =>
      if id !in s.flights || !s.flights[id].Logout? then s
      else if !deleted then Land(NewJar(s), id)
      else
        Land(NewJar(s).(file := NoFile, url := env, source := if env != "" then Environment else NoSource,
                        status := Status(Disconnected, env)), id)
    case ShowConnecting(target) => s.(status := Status(Connecting, if target.Some? then target.value else s.url))
  }

  // ---- invariants over every interleaving ---------------------------------------------

  /** Does the flight hold a jar that only it may turn into the session's? */
  predicate Private(f: Flight) {
    f.Login?
  }

  /** A persisted source whose saved file is missing or names another origin. */
  ghost predicate Astray(s: Auth) {
    s.source == Persisted && !(s.file.Saved? && s.file.url == s.url)
  }

  /** The origin and the source agree, and nothing is saved for an origin that is
      only configured. */
  ghost predicate SourceAgrees(s: Auth) {
    && (s.source == Persisted ==> s.url != "")
    && (s.source == Environment ==> s.file == NoFile)
    && (s.source == NoSource ==> s.url == "")
    && (forall id :: id in s.flights && !s.flights[id].Logout? ==> s.flights[id].url != "")
  }

  /** Jar numbers are not reused, and the jar of a pending sign-in is nobody
      else's. */
  ghost predicate JarsApart(s: Auth) {
    && s.jar < s.next
    && (forall id :: id in s.flights ==> s.flights[id].jar < s.next)
    && (forall id :: id in s.flights && Private(s.flights[id]) ==> s.flights[id].jar != s.jar)
    && (forall i, k :: i in s.flights && k in s.flights && i != k && Private(s.flights[i]) ==>
          s.flights[i].jar != s.flights[k].jar)
  }

  /** An operation on the session's jar is one on the session's origin. */
  ghost predicate JarNamesOrigin(s: Auth) {
    forall id :: id in s.flights && s.flights[id].jar == s.jar ==> s.flights[id].url == s.url
  }

  ghost predicate Invariant(s: Auth) {
    SourceAgrees(s) && JarsApart(s) && JarNamesOrigin(s)
  }

  /** What the constructor can find: nothing, a configured origin, a saved
      session, or a file it cannot read. */
  ghost predicate Initial(env: Url, s: Auth) {
    && s.flights == map[] && s.jar < s.next
    && ( || (s.file == NoFile && s.url == env && s.source == (if env != "" then Environment else NoSource))
         || (s.file.Saved? && s.file.url != "" && s.url == s.file.url && s.source == Persisted)
         || (s.file == Unreadable && s.url == "" && s.source == NoSource))
  }

  lemma {:induction false} StepKeeps(env: Url, s: Auth, a: Action)
    requires Invariant(s)
    ensures Invariant(Step(env, s, a))
  {
    hide Step, SourceAgrees, JarsApart, JarNamesOrigin;
    StepKeepsSource(env, s, a);
    StepKeepsJars(env, s, a);
    StepKeepsOrigin(env, s, a);
  }

  lemma {:induction false} StepKeepsSource(env: Url, s: Auth, a: Action)
    requires SourceAgrees(s)
    ensures SourceAgrees(Step(env, s, a))
  {
  }

  lemma {:induction false} StepKeepsOrigin(env: Url, s: Auth, a: Action)
    requires JarsApart(s) && JarNamesOrigin(s)
    ensures JarNamesOrigin(Step(env, s, a))
  {
  }

  lemma {:induction false} StepKeepsJars(env: Url, s: Auth, a: Action)
    requires JarsApart(s)
    ensures JarsApart(Step(env, s, a))
  {
    hide Step, JarsApart;
    if Begins(a) {
      BeginKeepsJars(env, s, a);
    } else {
      LandKeepsJars(env, s, a);
    }
  }

  predicate Begins(a: Action) {
    a.BeginRequest? || a.BeginProbe? || a.BeginLogin? || a.BeginLogout?
  }

  lemma {:induction false} BeginKeepsJars(env: Url, s: Auth, a: Action)
    requires JarsApart(s) && Begins(a)
    ensures JarsApart(Step(env, s, a))
  {
  }

  lemma {:induction false} LandKeepsJars(env: Url, s: Auth, a: Action)
    requires JarsApart(s) && !Begins(a)
    ensures JarsApart(Step(env, s, a))
  {
    hide Step, JarsApart;
    if a.Challenge? || a.ProbeDone? {
      DropKeepsJars(env, s, a);
    } else {
      OthersKeepJars(env, s, a);
    }
  }

  lemma {:induction false} DropKeepsJars(env: Url, s: Auth, a: Action)
    requires JarsApart(s) && (a.Challenge? || a.ProbeDone?)
    ensures JarsApart(Step(env, s, a))
  {
  }

  lemma {:induction false} OthersKeepJars(env: Url, s: Auth, a: Action)
    requires JarsApart(s) && !Begins(a) && !a.Challenge? && !a.ProbeDone?
    ensures JarsApart(Step(env, s, a))
  {
  }

  function Run(env: Url, s: Auth, actions: seq<Action>): Auth {
    if actions == [] then s else Step(env, Run(env, s, actions[..|actions| - 1]), actions[|actions| - 1])
  }

  /** Every interleaving keeps the invariant. */
  lemma {:induction false} RunKeeps(env: Url, s: Auth, actions: seq<Action>)
    requires Initial(env, s)
    ensures Invariant(Run(env, s, actions))
    decreases |actions|
  {
    hide Step;
    if actions != [] {
      RunKeeps(env, s, actions[..|actions| - 1]);
      StepKeeps(env, Run(env, s, actions[..|actions| - 1]), actions[|actions| - 1]);
    }
  }

  // ---- the saved file ------------------------------------------------------------------------

  /** The section makes a session persistent that the file does not hold: the
      save of a sign-in raises, and the file names another origin or none. */
  ghost predicate LosesFile(s: Auth, a: Action) {
    && a.LoginDone? && a.id in s.flights && s.flights[a.id].Login? && a.write == Unwritten
    && !(s.file.Saved? && s.file.url == s.flights[a.id].url)
  }

  /** The section leaves the session with its file: it writes it, or signs in to
      the origin it names, or ends the session together with it. */
  ghost predicate SecuresFile(s: Auth, a: Action) {
    match a
    case Challenge(id, _, write) =>
      id in s.flights && s.flights[id].Request? && Current(s, s.flights[id]) && s.source == Persisted && write != Unwritten
    case ProbeDone(id, condition, _, write) =>
      && id in s.flights && s.flights[id].Probe? && s.flights[id].current && Current(s, s.flights[id])
      && ProbeDrops(s, condition) && s.source == Persisted && write != Unwritten
    case LoginDone(id, _, write) => id in s.flights && s.flights[id].Login? && !LosesFile(s, a)
    case LogoutDone(id, deleted) => id in s.flights && s.flights[id].Logout? && deleted
    case _ => false
  }

  /** One section: exactly when a persisted source is without its file. */
  lemma {:induction false} AstrayExactly(env: Url, s: Auth, a: Action)
    requires SourceAgrees(s)
    ensures Astray(Step(env, s, a)) <==> LosesFile(s, a) || (Astray(s) && !SecuresFile(s, a))
  {
  }

  /** Section `n` lost the file, and none since secured it. */
  ghost predicate LostAt(env: Url, s: Auth, actions: seq<Action>, n: nat) {
    && n < |actions| && LosesFile(Run(env, s, actions[..n]), actions[n])
    && forall m :: n < m < |actions| ==> !SecuresFile(Run(env, s, actions[..m]), actions[m])
  }

  ghost predicate LostSince(env: Url, s: Auth, actions: seq<Action>) {
    exists n: nat :: LostAt(env, s, actions, n)
  }

  /** In every run a persisted source has a saved file naming the current origin,
      exactly unless a sign-in could not be saved and no section since secured
      the file. */
  lemma {:induction false} FileNamesOrigin(env: Url, s: Auth, actions: seq<Action>)
    requires Initial(env, s)
    ensures Astray(Run(env, s, actions)) <==> LostSince(env, s, actions)
    decreases |actions|
  {
    hide Step, LosesFile, SecuresFile, LostSince;
    if actions == [] {
      NothingLost(env, s);
    } else {
      var n := |actions| - 1;
      FileNamesOrigin(env, s, actions[..n]);
      RunKeeps(env, s, actions[..n]);
      AstrayExactly(env, Run(env, s, actions[..n]), actions[n]);
      LostOne(env, s, actions);
    }
  }

  lemma NothingLost(env: Url, s: Auth)
    ensures !LostSince(env, s, [])
  {
  }

  lemma {:induction false} LostOne(env: Url, s: Auth, actions: seq<Action>)
    requires actions != []
    ensures var n := |actions| - 1;
            var mid := Run(env, s, actions[..n]);
            LostSince(env, s, actions) <==>
              LosesFile(mid, actions[n]) || (LostSince(env, s, actions[..n]) && !SecuresFile(mid, actions[n]))
  {
    hide Run, LosesFile, SecuresFile, LostAt;
    var n := |actions| - 1;
    var init, mid := actions[..n], Run(env, s, actions[..n]);
    LostLast(env, s, actions);
    forall k: nat | k < n
      ensures LostAt(env, s, actions, k) <==> LostAt(env, s, init, k) && !SecuresFile(mid, actions[n])
    {
      LostEarlier(env, s, actions, k);
    }
    forall k: nat | LostAt(env, s, actions, k)
      ensures k <= n
    {
      LostWithin(env, s, actions, k);
    }
    forall k: nat | LostAt(env, s, init, k)
      ensures k < n
    {
      LostWithin(env, s, init, k);
    }
  }

  lemma LostWithin(env: Url, s: Auth, actions: seq<Action>, k: nat)
    requires LostAt(env, s, actions, k)
    ensures k < |actions|
  {
  }

  lemma LostLast(env: Url, s: Auth, actions: seq<Action>)
    requires actions != []
    ensures var n := |actions| - 1; LostAt(env, s, actions, n) <==> LosesFile(Run(env, s, actions[..n]), actions[n])
  {
  }

  lemma {:induction false} LostEarlier(env: Url, s: Auth, actions: seq<Action>, k: nat)
    requires k < |actions| - 1
    ensures var n := |actions| - 1;
            LostAt(env, s, actions, k) <==>
              LostAt(env, s, actions[..n], k) && !SecuresFile(Run(env, s, actions[..n]), actions[n])
  {
    hide Run, LosesFile, SecuresFile;
    var n := |actions| - 1;
    forall m | 0 <= m < n
      ensures actions[..n][..m] == actions[..m] && actions[..n][m] == actions[m]
    {
    }
  }

  /** A run in which the save of a sign-in fails: the session is persistent, and
      no file holds it. */
  lemma {:induction false} SignInNotSaved()
    ensures var s := Auth("", 0, NoSource, Status(Disconnected, ""), NoFile, map[0 := {}], 1, map[]);
            var t := Run("", s, [BeginLogin(2, "u"), LoginDone(2, {}, Unwritten)]);
            Initial("", s) && t.source == Persisted && t.url == "u" && t.file == NoFile && Astray(t)
  {
    var acts := [BeginLogin(2, "u"), LoginDone(2, {}, Unwritten)];
    var s0 := Auth("", 0, NoSource, Status(Disconnected, ""), NoFile, map[0 := {}], 1, map[]);
    var s1 := s0.(next := 2, cookies := map[0 := {}, 1 := {}], flights := map[2 := Login("u", 1)]);
    assert Step("", s0, acts[0]) == s1;
    RunOne(s0, acts, 0, s0);
    RunOne(s0, acts, 1, s1);
    assert acts[..2] == acts;
  }

  // ---- what the sections achieve -------------------------------------------------------------

  /** An operation begins on the session as it is. */
  lemma {:induction false} SnapshotIsCurrent(env: Url, s: Auth, id: nat)
    requires id !in s.flights
    ensures s.url != "" ==> Step(env, s, BeginRequest(id)) == s.(flights := s.flights[id := Request(s.url, s.jar)])
    ensures s.url == "" ==> Step(env, s, BeginRequest(id)) == s
    ensures var t := Step(env, s, BeginLogout(id)); id in t.flights && Current(t, t.flights[id]) && t.flights[id].Logout?
    ensures forall target: Option<Url> ::
              var t := Step(env, s, BeginProbe(id, target));
              if target.Some? && target.value != "" && target.value != s.url then
                id in t.flights && t.flights[id] == Probe(target.value, s.next, false) && CookiesOf(t, s.next) == {}
              else if s.url == "" then id !in t.flights && t.status.condition == Disconnected
              else id in t.flights && t.flights[id] == Probe(s.url, s.jar, true)
  {
  }

  /** A response reaches the jar of its own operation, and no other. */
  lemma {:induction false} ResponseArrives(env: Url, s: Auth, id: nat, now: set<Cookie>)
    requires id in s.flights
    ensures var t := Step(env, s, Respond(id, now));
            && (forall jar :: CookiesOf(t, jar) == if jar == s.flights[id].jar then now else CookiesOf(s, jar))
            && t.(cookies := s.cookies) == s
  {
  }

  /** A completed sign-in makes its own origin and jar the session, with the
      cookies it obtained, and saves those that have not expired. */
  lemma {:induction false} SignedIn(env: Url, s: Auth, id: nat, kept: set<Cookie>, write: Write)
    requires Invariant(s) && id in s.flights && s.flights[id].Login?
    ensures var f, t := s.flights[id], Step(env, s, LoginDone(id, kept, write));
            && t.url == f.url && t.jar == f.jar && CookiesOf(t, t.jar) == CookiesOf(s, f.jar)
            && t.source == Persisted && t.status == Status(Connected, f.url)
            && t.file == if write == Unwritten then s.file else Saved(f.url, kept * CookiesOf(s, f.jar))
  {
  }

  /** A completed sign-out leaves the configured origin, an empty jar and no
      file; where the file cannot be deleted only the jar is gone. */
  lemma {:induction false} SignedOut(env: Url, s: Auth, id: nat, deleted: bool)
    requires Invariant(s) && id in s.flights && s.flights[id].Logout?
    ensures var t := Step(env, s, LogoutDone(id, deleted));
            && t.jar == s.next && CookiesOf(t, t.jar) == {} && id !in t.flights
            && (if deleted then
                  && t.url == env && t.file == NoFile && t.status == Status(Disconnected, env)
                  && (t.source == Environment <==> env != "") && t.source != Persisted
                else t.url == s.url && t.file == s.file && t.status == s.status && t.source == s.source)
  {
  }

  /** What a probe of the current session finds is reported, and a session that
      is not expired keeps everything. */
  lemma {:induction false} ProbeReports(env: Url, s: Auth, id: nat, condition: Condition, kept: set<Cookie>, write: Write)
    requires id in s.flights && s.flights[id].Probe? && s.flights[id].current && Current(s, s.flights[id])
    ensures condition != Expired ==>
              Step(env, s, ProbeDone(id, condition, kept, write))
              == s.(status := Status(condition, s.url), flights := s.flights - {id})
  {
  }

  /** Until it lands, a sign-in's jar changes only by its own responses. */
  lemma {:induction false} OwnJarKept(env: Url, s: Auth, id: nat, a: Action)
    requires Invariant(s) && id in s.flights && s.flights[id].Login? && !(a.Respond? && a.id == id)
    requires id in Step(env, s, a).flights
    ensures var t := Step(env, s, a);
            t.flights[id] == s.flights[id] && CookiesOf(t, s.flights[id].jar) == CookiesOf(s, s.flights[id].jar)
  {
    hide SourceAgrees, JarNamesOrigin;
    if Begins(a) {
      BeginKeepsOwnJar(env, s, id, a);
    }
  }

  lemma {:induction false} BeginKeepsOwnJar(env: Url, s: Auth, id: nat, a: Action)
    requires JarsApart(s) && id in s.flights && s.flights[id].Login? && Begins(a)
    ensures var t := Step(env, s, a);
            && id in t.flights && t.flights[id] == s.flights[id]
            && CookiesOf(t, s.flights[id].jar) == CookiesOf(s, s.flights[id].jar)
  {
  }

  lemma {:induction false} OwnJarOverRun(env: Url, s: Auth, id: nat, actions: seq<Action>)
    requires Invariant(s) && id in s.flights && s.flights[id].Login?
    requires forall n :: 0 <= n < |actions| ==> !(actions[n].Respond? && actions[n].id == id)
    requires forall n :: 0 <= n <= |actions| ==> id in Run(env, s, actions[..n]).flights
    ensures var t := Run(env, s, actions);
            && Invariant(t) && id in t.flights && t.flights[id] == s.flights[id]
            && CookiesOf(t, s.flights[id].jar) == CookiesOf(s, s.flights[id].jar)
    decreases |actions|
  {
    hide Step, Invariant, CookiesOf;
    if actions != [] {
      var n := |actions| - 1;
      assert actions[..|actions|] == actions;
      forall k | 0 <= k <= n
        ensures id in Run(env, s, actions[..n][..k]).flights
      {
        assert actions[..n][..k] == actions[..k];
      }
      OwnJarOverRun(env, s, id, actions[..n]);
      StepKeeps(env, Run(env, s, actions[..n]), actions[n]);
      OwnJarKept(env, Run(env, s, actions[..n]), id, actions[n]);
    }
  }

  /** Over every interleaving: the cookies that the sign-in's last response left
      are the ones the next request sends. */
  lemma {:induction false} CredentialReachesRequests(env: Url, s: Auth, id: nat, now: set<Cookie>, between: seq<Action>,
                                                     kept: set<Cookie>, write: Write, next: nat)
    requires Invariant(s) && id in s.flights && s.flights[id].Login?
    requires var t := Step(env, s, Respond(id, now));
             && (forall n :: 0 <= n < |between| ==> !(between[n].Respond? && between[n].id == id))
             && (forall n :: 0 <= n <= |between| ==> id in Run(env, t, between[..n]).flights)
    requires var mid := Run(env, Step(env, s, Respond(id, now)), between); next != id && next !in mid.flights
    ensures var mid := Run(env, Step(env, s, Respond(id, now)), between);
            var t := Step(env, Step(env, mid, LoginDone(id, kept, write)), BeginRequest(next));
            && next in t.flights && t.flights[next] == Request(s.flights[id].url, s.flights[id].jar)
            && CookiesOf(t, t.flights[next].jar) == now
            && (write != Unwritten ==> t.file == Saved(s.flights[id].url, kept * now))
  {
    hide Step, Run;
    var t := Step(env, s, Respond(id, now));
    ResponseArrives(env, s, id, now);
    StepKeeps(env, s, Respond(id, now));
    OwnJarOverRun(env, t, id, between);
    var mid := Run(env, t, between);
    SignedIn(env, mid, id, kept, write);
    var done := Step(env, mid, LoginDone(id, kept, write));
    LoginLands(env, mid, id, kept, write, next);
    SnapshotIsCurrent(env, done, next);
  }

  lemma {:induction false} LoginLands(env: Url, s: Auth, id: nat, kept: set<Cookie>, write: Write, next: nat)
    requires id in s.flights && s.flights[id].Login? && next != id && next !in s.flights
    ensures next !in Step(env, s, LoginDone(id, kept, write)).flights
  {
  }

  // ---- stale snapshots ---------------------------------------------------------------------

  /** A challenge or a probe result whose snapshot is no longer the session
      changes nothing but its own flight. */
  lemma {:induction false} StaleIsHarmless(env: Url, s: Auth, a: Action, id: nat)
    requires id in s.flights && !Current(s, s.flights[id])
    requires (a.Challenge? && a.id == id) || (a.ProbeDone? && a.id == id)
    ensures var t := Step(env, s, a);
            t == s || t == s.(flights := s.flights - {id})
  {
  }

  /** A snapshot that has gone stale never becomes current again, whatever
      happens while it is in flight. */
  lemma {:induction false} StaleStaysStale(env: Url, s: Auth, a: Action, id: nat)
    requires Invariant(s) && id in s.flights && !s.flights[id].Login? && !Current(s, s.flights[id])
    requires id in Step(env, s, a).flights
    ensures var t := Step(env, s, a);
            t.flights[id] == s.flights[id] && !Current(t, t.flights[id])
  {
    hide SourceAgrees;
    assert s.flights[id].jar != s.jar;
    hide JarNamesOrigin;
  }

  lemma {:induction false} StaleForever(env: Url, s: Auth, actions: seq<Action>, id: nat)
    requires Invariant(s) && id in s.flights && !s.flights[id].Login? && !Current(s, s.flights[id])
    requires forall n :: 0 <= n <= |actions| ==> id in Run(env, s, actions[..n]).flights
    ensures var t := Run(env, s, actions);
            Invariant(t) && id in t.flights && t.flights[id] == s.flights[id] && !Current(t, t.flights[id])
    decreases |actions|
  {
    hide Step, Invariant;
    if actions != [] {
      var n := |actions| - 1;
      assert actions[..|actions|] == actions;
      forall k | 0 <= k <= n
        ensures id in Run(env, s, actions[..n][..k]).flights
      {
        assert actions[..n][..k] == actions[..k];
      }
      StaleForever(env, s, actions[..n], id);
      StepKeeps(env, Run(env, s, actions[..n]), actions[n]);
      StaleStaysStale(env, Run(env, s, actions[..n]), actions[n], id);
    }
  }

  // ---- expiry --------------------------------------------------------------------------------

  ghost predicate HoldsNoCookies(s: Auth) {
    CookiesOf(s, s.jar) == {} && (s.file.Saved? ==> s.file.cookies == {})
  }

  /** A challenge to the current session leaves no cookie in the jar, and none in
      the file exactly unless the file held some and could not be rewritten; the
      session is reported expired exactly unless that raised. */
  lemma {:induction false} ChallengeClears(env: Url, s: Auth, id: nat, kept: set<Cookie>, write: Write)
    requires Invariant(s) && id in s.flights && s.flights[id].Request? && Current(s, s.flights[id])
    ensures var t := Step(env, s, Challenge(id, kept, write));
            && t.jar == s.next && CookiesOf(t, t.jar) == {}
            && (HoldsNoCookies(t) <==> !(write == Unwritten && s.file.Saved? && s.file.cookies != {}))
            && t.status == if s.source == Persisted && write != Clean then s.status else Status(Expired, s.url)
  {
  }

  /** A probe that finds the session expired leaves no cookie in the jar, and none
      in the file exactly if the file held none, or if the jar still held one and
      the file was rewritten: a jar that the server emptied first leaves the saved
      cookies behind. */
  lemma {:induction false} ProbeClearsExactly(env: Url, s: Auth, id: nat, kept: set<Cookie>, write: Write)
    requires Invariant(s) && id in s.flights && s.flights[id].Probe? && s.flights[id].current && Current(s, s.flights[id])
    ensures var t := Step(env, s, ProbeDone(id, Expired, kept, write));
            && CookiesOf(t, t.jar) == {}
            && (HoldsNoCookies(t) <==>
                  (CookiesOf(s, s.jar) != {} && write != Unwritten) || (s.file.Saved? ==> s.file.cookies == {}))
            && t.status == if CookiesOf(s, s.jar) != {} && s.source == Persisted && write != Clean then s.status else Status(Expired, s.url)
  {
  }

  /** The failing case: signed in with a saved cookie, a response deletes it
      from the jar, then a probe reports the session expired, and the file keeps
      the cookie. */
  lemma {:induction false} SavedCookieOutlivesExpiry()
    ensures var s := Auth("u", 0, Persisted, Status(Connected, "u"), Saved("u", {7}), map[0 := {7}], 1, map[]);
            var t := Run("", s, [BeginRequest(2), Respond(2, {}), Finish(2), BeginProbe(3, None), ProbeDone(3, Expired, {7}, Clean)]);
            Initial("", s) && t.status == Status(Expired, "u") && t.file == Saved("u", {7}) && CookiesOf(t, t.jar) == {}
  {
    var acts := [BeginRequest(2), Respond(2, {}), Finish(2), BeginProbe(3, None), ProbeDone(3, Expired, {7}, Clean)];
    var s0 := Auth("u", 0, Persisted, Status(Connected, "u"), Saved("u", {7}), map[0 := {7}], 1, map[]);
    var s1 := s0.(flights := map[2 := Request("u", 0)]);
    var s2 := s1.(cookies := map[0 := {}]);
    var s3 := s2.(flights := map[]);
    var s4 := s3.(flights := map[3 := Probe("u", 0, true)]);
    var s5 := s3.(status := Status(Expired, "u"));
    assert Step("", s0, acts[0]) == s1;
    assert Step("", s1, acts[1]) == s2;
    assert Step("", s2, acts[2]) == s3;
    assert Step("", s3, acts[3]) == s4;
    assert Step("", s4, acts[4]) == s5;
    hide Step;
    FiveSteps(s0, acts, s1, s2, s3, s4, s5);
  }

  /** The other failing case: a sign-in to the current origin is rejected, which
      reports the session expired and touches neither jar nor file. */
  lemma {:induction false} RejectedSignInKeepsCookies()
    ensures var s := Auth("u", 0, Persisted, Status(Connected, "u"), Saved("u", {7}), map[0 := {7}], 1, map[]);
            var t := Run("", s, [BeginLogin(2, "u"), LoginRejected(2)]);
            Initial("", s) && t.status == Status(Expired, "u") && t.file == Saved("u", {7}) && CookiesOf(t, t.jar) == {7}
  {
    var acts := [BeginLogin(2, "u"), LoginRejected(2)];
    var s0 := Auth("u", 0, Persisted, Status(Connected, "u"), Saved("u", {7}), map[0 := {7}], 1, map[]);
    var s1 := s0.(next := 2, cookies := map[0 := {7}, 1 := {}], flights := map[2 := Login("u", 1)]);
    assert Step("", s0, acts[0]) == s1;
    RunOne(s0, acts, 0, s0);
    RunOne(s0, acts, 1, s1);
    assert acts[..2] == acts;
  }

  /** A third: a challenge whose save fails empties the jar, keeps the file, and
      reports nothing. */
  lemma {:induction false} UnsavedExpiryKeepsFile()
    ensures var s := Auth("u", 0, Persisted, Status(Connected, "u"), Saved("u", {7}), map[0 := {7}], 1, map[]);
            var t := Run("", s, [BeginRequest(2), Challenge(2, {}, Unwritten)]);
            Initial("", s) && t.status == s.status && t.file == s.file && CookiesOf(t, t.jar) == {}
  {
    var acts := [BeginRequest(2), Challenge(2, {}, Unwritten)];
    var s0 := Auth("u", 0, Persisted, Status(Connected, "u"), Saved("u", {7}), map[0 := {7}], 1, map[]);
    var s1 := s0.(flights := map[2 := Request("u", 0)]);
    assert Step("", s0, acts[0]) == s1;
    RunOne(s0, acts, 0, s0);
    RunOne(s0, acts, 1, s1);
    assert acts[..2] == acts;
  }

  /** The action finds the session expired. */
  ghost predicate Expires(s: Auth, a: Action) {
    match a
    case Challenge(id, _, _) => id in s.flights && s.flights[id].Request? && Current(s, s.flights[id])
    case ProbeDone(id, condition, _, _) =>
      && condition == Expired && id in s.flights && s.flights[id].Probe?
      && s.flights[id].current && Current(s, s.flights[id])
    case LoginRejected(id) =>
      id in s.flights && s.flights[id].Login? && (s.flights[id].url == s.url || s.url == "")
    case _ => false
  }

  /** Its file cannot be rewritten, or fails after it was; the status is not set. */
  ghost predicate Raises(s: Auth, a: Action) {
    match a
    case Challenge(_, _, write) => DropRaises(s, write)
    case ProbeDone(_, condition, _, write) => ProbeDrops(s, condition) && DropRaises(s, write)
    case _ => false
  }

  /** What has to hold before the action for it to leave no cookie behind. */
  ghost predicate LeavesNone(s: Auth, a: Action) {
    var saved := s.file.Saved? && s.file.cookies != {};
    match a
    case Challenge(_, _, write) => !(saved && write == Unwritten)
    case ProbeDone(_, _, _, write) => (CookiesOf(s, s.jar) != {} && write != Unwritten) || !saved
    case _ => HoldsNoCookies(s)
  }

  /** Over every action that finds the session expired: exactly when it is
      reported expired, and exactly when neither the jar nor the file holds a
      cookie afterwards. No other action reports it. */
  lemma {:induction false} ExpiryClearsExactly(env: Url, s: Auth, a: Action)
    requires Invariant(s)
    ensures Expires(s, a) ==>
              var t := Step(env, s, a);
              && (if Raises(s, a) then t.status == s.status else t.status.condition == Expired)
              && (HoldsNoCookies(t) <==> LeavesNone(s, a))
    ensures !Expires(s, a) ==>
              Step(env, s, a).status.condition == Expired ==> Step(env, s, a).status == s.status
  {
    hide Invariant, Step;
    if Expires(s, a) {
      match a {
        case Challenge(id, kept, write) => ChallengeClears(env, s, id, kept, write);
        case ProbeDone(id, _, kept, write) => ProbeClearsExactly(env, s, id, kept, write);
        case LoginRejected(_) => RejectedKeeps(env, s, a);
      }
    } else if Step(env, s, a).status.condition == Expired {
      OthersDoNotExpire(env, s, a);
    }
  }

  lemma {:induction false} RejectedKeeps(env: Url, s: Auth, a: Action)
    requires a.LoginRejected? && Expires(s, a)
    ensures var t := Step(env, s, a);
            t.status.condition == Expired && t.jar == s.jar && t.file == s.file && t.cookies == s.cookies
  {
  }

  lemma {:induction false} OthersDoNotExpire(env: Url, s: Auth, a: Action)
    requires !Expires(s, a) && Step(env, s, a).status.condition == Expired
    ensures Step(env, s, a).status == s.status
  {
  }

  lemma {:induction false} FiveSteps(s0: Auth, acts: seq<Action>, s1: Auth, s2: Auth, s3: Auth, s4: Auth, s5: Auth)
    requires |acts| == 5 && Step("", s0, acts[0]) == s1 && Step("", s1, acts[1]) == s2 && Step("", s2, acts[2]) == s3
    requires Step("", s3, acts[3]) == s4 && Step("", s4, acts[4]) == s5
    ensures Run("", s0, acts) == s5
  {
    hide Step;
    RunOne(s0, acts, 0, s0);
    RunOne(s0, acts, 1, s1);
    RunOne(s0, acts, 2, s2);
    RunOne(s0, acts, 3, s3);
    RunOne(s0, acts, 4, s4);
    assert acts[..5] == acts;
  }

  lemma {:induction false} RunOne(s: Auth, actions: seq<Action>, n: nat, mid: Auth)
    requires n < |actions| && Run("", s, actions[..n]) == mid
    ensures Run("", s, actions[..n + 1]) == Step("", mid, actions[n])
  {
    assert actions[..n + 1][..n] == actions[..n];
  }

  /** Cleared: no cookie is stored and no flight can put one in the jar. */
  ghost predicate Cleared(s: Auth) {
    HoldsNoCookies(s) && forall id :: id in s.flights ==> s.flights[id].jar != s.jar
  }

  predicate Reopens(a: Action) {
    a.BeginRequest? || a.BeginProbe? || a.BeginLogout? || a.LoginDone?
  }

  /** After a challenge, operations that were already in flight cannot bring a
      cookie back: it takes a new request or a new sign-in. */
  lemma {:induction false} ClearedStays(env: Url, s: Auth, a: Action)
    requires Invariant(s) && Cleared(s) && !Reopens(a)
    ensures Cleared(Step(env, s, a))
  {
  }

  lemma {:induction false} ExpiryIsFinal(env: Url, s: Auth, id: nat, kept: set<Cookie>, write: Write, actions: seq<Action>)
    requires Invariant(s) && id in s.flights && s.flights[id].Request? && Current(s, s.flights[id])
    requires LeavesNone(s, Challenge(id, kept, write))
    requires forall n :: 0 <= n < |actions| ==> !Reopens(actions[n])
    ensures var t := Run(env, Step(env, s, Challenge(id, kept, write)), actions);
            Invariant(t) && Cleared(t)
    decreases |actions|
  {
    if actions == [] {
      ChallengeClears(env, s, id, kept, write);
      StepKeeps(env, s, Challenge(id, kept, write));
    } else {
      hide Step, Invariant, Cleared;
      var n := |actions| - 1;
      ExpiryIsFinal(env, s, id, kept, write, actions[..n]);
      var mid := Run(env, Step(env, s, Challenge(id, kept, write)), actions[..n]);
      ClearedStays(env, mid, actions[n]);
      StepKeeps(env, mid, actions[n]);
    }
  }
}
