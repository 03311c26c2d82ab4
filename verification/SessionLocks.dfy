/** The lock sections of `RemoteWebUIAuth` in hermes_bridge.py, as they update the
    object. Jars are heap objects compared by identity; ghost fields number them
    and list the operations in flight, so that every section is one step of the
    state machine of `Session`, and every run of sections one of its runs. */
module SessionLocks {
  import opened Common
  import opened Session

  class CookieJar {
    var cookies: set<Cookie>

    constructor (cookies: set<Cookie>)
      ensures this.cookies == cookies
    {
      this.cookies := cookies;
    }
  }

  datatype Fault = SignIn(status: Status) | SessionChanged | WriteFailed

  class RemoteAuth {
    const environment: Url
    var url: Url
    var jar: CookieJar
    var source: Source
    var status: Status
    var file: SavedFile
    ghost var jars: seq<CookieJar>
    ghost var number: Jar
    ghost var flights: map<nat, Flight>

    ghost function Contents(): map<Jar, set<Cookie>>
      reads this`jars, jars
    {
      map n: Jar | n < |jars| :: jars[n].cookies
    }

    ghost function State(): Auth
      reads this, jars
    {
      Auth(url, number, source, status, file, Contents(), |jars|, flights)
    }

    ghost predicate Valid()
      reads this, jars
    {
      Numbered() && Invariant(State())
    }

    /** Every jar has one number. */
    ghost predicate Numbered()
      reads this
    {
      number < |jars| && jars[number] == jar && forall i, k :: 0 <= i < k < |jars| ==> jars[i] != jars[k]
    }

    /** The snapshot that operation `id` works on. */
    ghost predicate Flies(id: nat, at: Url, used: CookieJar)
      reads this
    {
      id in flights && flights[id].url == at && flights[id].jar < |jars| && jars[flights[id].jar] == used
    }

    /** Finds nothing, a saved session, or a file that it cannot read. */
    constructor (environment: Url, saved: SavedFile)
      requires saved.Saved? ==> saved.url != ""
      ensures Valid() && this.environment == environment && fresh(jars) && Initial(environment, State())
    {
      this.environment := environment;
      file := saved;
      url := match saved case NoFile => environment case Unreadable => "" case Saved(at, _) => at;
      source := match saved
        case NoFile => (if environment != "" then Environment else NoSource)
        case Unreadable => NoSource
        case Saved(_, _) => Persisted;
      status := match saved
        case NoFile => Status(Disconnected, environment)
        case Unreadable => Status(Trouble, "")
        case Saved(at, _) => Status(Disconnected, at);
      var first := new CookieJar(if saved.Saved? then saved.cookies else {});
      jar, jars, number, flights := first, [first], 0, map[];
    }

    /** `_save`; `kept` are the cookies that have not expired. */
    method Save(kept: set<Cookie>, write: Write) returns (raised: bool)
      modifies this`file
      ensures raised == (write != Clean)
      ensures file == if write == Unwritten then old(file) else if url == "" then NoFile else Saved(url, kept * jar.cookies)
    {
      if write != Unwritten {
        file := if url == "" then NoFile else Saved(url, kept * jar.cookies);
      }
      raised := write != Clean;
    }

    method AddJar() returns (added: CookieJar)
      requires Numbered()
      modifies this`jars
      ensures Numbered() && fresh(added) && added.cookies == {} && jars == old(jars) + [added]
      ensures Contents() == old(Contents())[|old(jars)| := {}]
    {
      added := new CookieJar({});
      jars := jars + [added];
      assert Contents() == old(Contents())[|old(jars)| := {}];
    }

    method ReplaceJar()
      requires Numbered()
      modifies this`jar, this`jars, this`number
      ensures Numbered() && fresh(jar) && State() == old(NewJar(State()))
      ensures jar.cookies == {} && number == |old(jars)| && |jars| == |old(jars)| + 1
    {
      var added := AddJar();
      jar, number := added, |jars| - 1;
    }

    /** A fresh jar, and an empty saved session where one is saved. */
    method DropCookies(kept: set<Cookie>, write: Write) returns (raised: bool)
      requires Numbered()
      modifies this`jar, this`jars, this`number, this`file
      ensures Numbered() && State() == old(Session.DropCookies(State(), kept, write))
      ensures raised == old(DropRaises(State(), write))
    {
      ReplaceJar();
      if source == Persisted {
        raised := Save(kept, write);
      } else {
        raised := false;
      }
    }

    method ConnectingStatus(target: Option<Url>)
      requires Valid()
      modifies this`status
      ensures Valid() && State() == old(Step(environment, State(), ShowConnecting(target)))
    {
      hide Invariant;
      StepKeeps(environment, State(), ShowConnecting(target));
      status := Status(Connecting, if target.Some? then target.value else url);
    }

    /** The snapshot an unlocked request uses. */
    method CurrentSession(ghost id: nat) returns (r: Option<(Url, CookieJar)>)
      requires Valid() && id !in flights
      modifies this`flights
      ensures Valid() && State() == old(Step(environment, State(), BeginRequest(id)))
      ensures r.Some? ==> Flies(id, r.value.0, r.value.1) && flights[id].Request?
    {
      hide Invariant;
      ghost var next := Step(environment, State(), BeginRequest(id));
      StepKeeps(environment, State(), BeginRequest(id));
      if url == "" {
        assert State() == next;
        return None;
      }
      flights := flights[id := Request(url, number)];
      r := Some((url, jar));
      assert State() == next;
    }

    /** A response to operation `id` rewrites the jar that operation uses. */
    method Respond(ghost id: nat, used: CookieJar, now: set<Cookie>)
      requires Valid() && id in flights && Flies(id, flights[id].url, used)
      modifies used
      ensures Valid() && State() == old(Step(environment, State(), Action.Respond(id, now)))
    {
      hide Invariant;
      ghost var next := Step(environment, State(), Action.Respond(id, now));
      StepKeeps(environment, State(), Action.Respond(id, now));
      used.cookies := now;
      assert State() == next;
    }

    /** A challenge expires the session that was challenged, and no other; the
        fault says which of the two it was, or that the file could not be written. */
    method SessionFault(ghost id: nat, at: Url, used: CookieJar, kept: set<Cookie>, write: Write) returns (fault: Fault)
      requires Valid() && Flies(id, at, used) && flights[id].Request?
      modifies this
      ensures Valid() && State() == old(Step(environment, State(), Challenge(id, kept, write)))
      ensures fault == if old(Current(State(), flights[id]) && DropRaises(State(), write)) then WriteFailed
                       else if status.condition == Expired then SignIn(status) else SessionChanged
    {
      hide Invariant;
      ghost var next := Step(environment, State(), Challenge(id, kept, write));
      StepKeeps(environment, State(), Challenge(id, kept, write));
      if url == at && jar == used {
        var raised := DropCookies(kept, write);
        if raised {
          fault := WriteFailed;
        } else {
          status := Status(Expired, url);
          fault := SignIn(status);
        }
      } else if status.condition == Expired {
        fault := SignIn(status);
      } else {
        fault := SessionChanged;
      }
      flights := flights - {id};
      assert State() == next;
    }

    /** A probe of the session's own origin shares its jar; any other gets a jar
        of its own. None where no origin is configured. */
    method BeginProbe(ghost id: nat, target: Option<Url>) returns (r: Option<(Url, CookieJar, bool)>)
      requires Valid() && id !in flights
      modifies this
      ensures Valid() && State() == old(Step(environment, State(), Action.BeginProbe(id, target)))
      ensures r.Some? ==> Flies(id, r.value.0, r.value.1) && flights[id].Probe? && flights[id].current == r.value.2
    {
      hide Invariant;
      ghost var next := Step(environment, State(), Action.BeginProbe(id, target));
      StepKeeps(environment, State(), Action.BeginProbe(id, target));
      var at := if target.Some? && target.value != "" then target.value else url;
      if at == "" {
        status := Status(Disconnected, url);
        assert State() == next;
        return None;
      }
      if at == url {
        flights := flights[id := Probe(at, number, true)];
        assert State() == next;
        return Some((at, jar, true));
      }
      flights := flights[id := Probe(at, |jars|, false)];
      var candidate := AddJar();
      r := Some((at, candidate, false));
      assert State() == next;
    }

    /** A probe's result commits only while the session it probed is current. */
    method ProbeCommitted(ghost id: nat, at: Url, used: CookieJar, condition: Condition, kept: set<Cookie>, write: Write)
        returns (r: Status)
      requires Valid() && Flies(id, at, used) && flights[id].Probe? && flights[id].current
      modifies this
      ensures Valid() && State() == old(Step(environment, State(), ProbeDone(id, condition, kept, write))) && r == status
    {
      hide Invariant;
      ghost var next := Step(environment, State(), ProbeDone(id, condition, kept, write));
      StepKeeps(environment, State(), ProbeDone(id, condition, kept, write));
      if url == at && jar == used {
        var raised := false;
        if condition == Expired && jar.cookies != {} {
          raised := DropCookies(kept, write);
        }
        if !raised {
          status := Status(condition, at);
        }
      }
      flights := flights - {id};
      r := status;
      assert State() == next;
    }

    /** A sign-in works on a jar of its own. */
    method BeginLogin(ghost id: nat, at: Url) returns (own: CookieJar)
      requires Valid() && id !in flights && at != ""
      modifies this`jars, this`flights
      ensures Valid() && State() == old(Step(environment, State(), Action.BeginLogin(id, at)))
      ensures fresh(own) && Flies(id, at, own) && flights[id].Login?
    {
      hide Invariant;
      ghost var next := Step(environment, State(), Action.BeginLogin(id, at));
      StepKeeps(environment, State(), Action.BeginLogin(id, at));
      flights := flights[id := Login(at, |jars|)];
      own := AddJar();
      assert State() == next;
    }

    method LoginRejected(ghost id: nat, at: Url, own: CookieJar)
      requires Valid() && Flies(id, at, own) && flights[id].Login?
      modifies this
      ensures Valid() && State() == old(Step(environment, State(), Action.LoginRejected(id)))
    {
      hide Invariant;
      ghost var next := Step(environment, State(), Action.LoginRejected(id));
      StepKeeps(environment, State(), Action.LoginRejected(id));
      if at == url || url == "" {
        status := Status(Expired, at);
      }
      flights := flights - {id};
      assert State() == next;
    }

    method LoginCommitted(ghost id: nat, at: Url, own: CookieJar, kept: set<Cookie>, write: Write) returns (raised: bool)
      requires Valid() && Flies(id, at, own) && flights[id].Login?
      modifies this
      ensures Valid() && State() == old(Step(environment, State(), LoginDone(id, kept, write))) && raised == (write != Clean)
    {
      hide Invariant;
      ghost var next := Step(environment, State(), LoginDone(id, kept, write));
      StepKeeps(environment, State(), LoginDone(id, kept, write));
      number := flights[id].jar;
      url, jar, source := at, own, Persisted;
      status := Status(Connected, at);
      raised := Save(kept, write);
      flights := flights - {id};
      assert State() == next;
    }

    method BeginLogout(ghost id: nat) returns (at: Url, used: CookieJar)
      requires Valid() && id !in flights
      modifies this`flights
      ensures Valid() && State() == old(Step(environment, State(), Action.BeginLogout(id)))
      ensures Flies(id, at, used) && flights[id].Logout?
    {
      hide Invariant;
      ghost var next := Step(environment, State(), Action.BeginLogout(id));
      StepKeeps(environment, State(), Action.BeginLogout(id));
      flights := flights[id := Logout(url, number)];
      at, used := url, jar;
      assert State() == next;
    }

    method LogoutCommitted(ghost id: nat, deleted: bool)
      requires Valid() && id in flights && flights[id].Logout?
      modifies this
      ensures Valid() && State() == old(Step(environment, State(), LogoutDone(id, deleted)))
    {
      hide Invariant;
      ghost var next := Step(environment, State(), LogoutDone(id, deleted));
      StepKeeps(environment, State(), LogoutDone(id, deleted));
      ReplaceJar();
      if deleted {
        file := NoFile;
        url := environment;
        source := if environment != "" then Environment else NoSource;
        status := Status(Disconnected, url);
      }
      flights := flights - {id};
      assert State() == next;
    }
  }
}
