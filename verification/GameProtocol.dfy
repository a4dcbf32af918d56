/** Accounts, sessions and saves under concurrency: any number of requests in flight, each a few
    database steps, interleaved in any order. */
module GameProtocol {
  import opened FreshIds
  import opened Options
  import opened GameDatabase

  datatype Request =
    | Create(name: string, password: string)
    | Login(name: string, password: string)
    | Save(name: string, sid: string, radishes: int, upgrades: map<string, int>)

  datatype Answer = Refused | Created | LoggedIn(data: Loaded) | Changed

  /** Where a request is: each phase but the last is the database step that comes next. */
  datatype Phase =
    | Begin                     // is the user there (create), or online (login, save)?
    | InsertRow                 // create: insert the account
    | FindUser                  // login: does the user exist?
    | ReadSalt                  // login: read the user's salt
    | LoadAll(hash: string)     // login: the exclusive transaction
    | ProbeSession              // save: look for the session id
    | Commit                    // save: the exclusive transaction
    | Done(answer: Answer)

  datatype Proc = Proc(req: Request, phase: Phase)

  /** Besides the database and the requests, the run's history: every session id ever drawn, and the
      user and session id of every save that took effect. */
  datatype State = State(db: Db, procs: map<nat, Proc>, drawn: set<string>, saves: seq<(string, string)>)

  /** What a step draws from outside: the salt of a new account, the session id that the table
      generates, and the sixteen bytes that the session probe reads from the request. */
  datatype Event = Arrive(pid: nat, req: Request) | Advance(pid: nat, salt: string, freshSid: string, probe: string)

  type Hash = (string, string) -> string

  /** A session id is 32 hexadecimal digits drawn afresh. The probe reads 16 characters of the id in
      the request, and whatever lies behind it in memory when it is shorter. */
  predicate Enabled(s: State, e: Event) {
    match e
    case Arrive(pid, _) => pid !in s.procs
    case Advance(pid, _, sid, probe) =>
      && pid in s.procs && !s.procs[pid].phase.Done?
      && |sid| == 32 && sid !in s.drawn
      && |probe| == 16
      && (s.procs[pid].req.Save? && |s.procs[pid].req.sid| >= 16 ==> probe == s.procs[pid].req.sid[..16])
  }


  function StepCreate(h: Hash, db: Db, p: Proc, e: Event): (Db, Phase)
    requires p.req.Create? && e.Advance?
  {
    var Create(name, password) := p.req;
    match p.phase
    case Begin => (db, if UserExists(db, name) then Done(Refused) else InsertRow)
    case InsertRow => (InsertUser(db, name, h(password, e.salt), e.salt), Done(Created))
    case _ => (db, p.phase)
  }

  /** Without a row for the user the salt would be an uninitialised pointer. */
  function StepLogin(h: Hash, db: Db, p: Proc, e: Event): (Db, Phase)
    requires p.req.Login? && e.Advance?
  {
    var Login(name, password) := p.req;
    match p.phase
    case Begin => (db, if IsOnline(db, name) then Done(Refused) else FindUser)
    case FindUser => (db, if !UserExists(db, name) then Done(Refused) else ReadSalt)
    case ReadSalt => (db, LoadAll(if name in db.users then h(password, db.users[name].salt) else h(password, "")))
    case LoadAll(hash) =>
      var next := InsertSession(db, name, hash, e.freshSid);
      (next, Done(LoggedIn(Load(next, name, hash))))
    case _ => (db, p.phase)
  }

  /** The probe refuses a save when it finds a session. */
  function StepSave(db: Db, p: Proc, e: Event): (Db, Phase)
    requires p.req.Save? && e.Advance?
  {
    var Save(name, sid, radishes, upgrades) := p.req;
    match p.phase
    case Begin => (db, if !IsOnline(db, name) then Done(Refused) else ProbeSession)
    case ProbeSession => (db, if HasSession(db, name, e.probe) then Done(Refused) else Commit)
    case Commit => (Saved(db, name, sid, radishes, upgrades), Done(Changed))
    case _ => (db, p.phase)
  }

  function StepProc(h: Hash, db: Db, p: Proc, e: Event): (Db, Phase)
    requires e.Advance?
  {
    match p.req
    case Create(_, _) => StepCreate(h, db, p, e)
    case Login(_, _) => StepLogin(h, db, p, e)
    case Save(_, _, _, _) => StepSave(db, p, e)
  }

  /** Whether the event is the commit of a save whose session id is the user's at that moment. */
  predicate IsEffectiveSave(s: State, e: Event) {
    && e.Advance? && e.pid in s.procs && s.procs[e.pid].req.Save? && s.procs[e.pid].phase == Commit
    && HasSession(s.db, s.procs[e.pid].req.name, s.procs[e.pid].req.sid)
  }

  function Next(h: Hash, s: State, e: Event): State
    requires Enabled(s, e)
  {
    match e
    case Arrive(pid, req) => s.(procs := s.procs[pid := Proc(req, Begin)])
    case Advance(pid, _, sid, _) =>
      var p := s.procs[pid];
      var (db, phase) := StepProc(h, s.db, p, e);
      var saves := if IsEffectiveSave(s, e) then s.saves + [(p.req.name, p.req.sid)] else s.saves;
      State(db, s.procs[pid := Proc(p.req, phase)], s.drawn + {sid}, saves)
  }

  ghost predicate IsRun(h: Hash, s: State, es: seq<Event>)
    decreases |es|
  {
    es == [] || (Enabled(s, es[0]) && IsRun(h, Next(h, s, es[0]), es[1..]))
  }

  function RunAll(h: Hash, s: State, es: seq<Event>): State
    requires IsRun(h, s, es)
    decreases |es|
  {
    if es == [] then s else RunAll(h, Next(h, s, es[0]), es[1..])
  }

  // ---------------------------------------------------------------------------------------
  // What holds in every state of every run
  // ---------------------------------------------------------------------------------------

  /** User ids are distinct, and upgrade rows belong to users. */
  ghost predicate GoodUsers(db: Db) {
    DistinctIds(db) && forall k :: k in db.upgrades ==> k.0 in Ids(db)
  }

  /** Session ids are distinct, 32 characters long, and have been drawn. */
  ghost predicate GoodSessions(sessions: map<int, string>, drawn: set<string>) {
    && (forall i :: i in sessions ==> |sessions[i]| == 32 && sessions[i] in drawn)
    && (forall i, j :: i in sessions && j in sessions && i != j ==> sessions[i] != sessions[j])
  }

  /** Every session id that has authorised a save is spent: no other save has used it, and no
      session row holds it any more. */
  ghost predicate GoodSaves(saves: seq<(string, string)>, sessions: map<int, string>, drawn: set<string>) {
    && (forall i :: 0 <= i < |saves| ==> saves[i].1 in drawn)
    && (forall i, j :: 0 <= i < j < |saves| ==> saves[i].1 != saves[j].1)
    && (forall i, k :: 0 <= i < |saves| && k in sessions ==> sessions[k] != saves[i].1)
  }

  /** A login that has come as far as the salt has a user to read it from, one that has come as far
      as its transaction carries the hash of its password with that user's salt, and one that was
      given anything gave the right password. */
  ghost predicate GoodProc(h: Hash, db: Db, p: Proc) {
    p.req.Login? ==>
      var name := p.req.name;
      match p.phase
      case ReadSalt => name in db.users
      case LoadAll(hash) => name in db.users && hash == h(p.req.password, db.users[name].salt)
      case Done(LoggedIn(data)) =>
        data.sid.Some? || data.radishes.Some? || data.upgrades != map[] ==>
          name in db.users && PasswordMatches(db, name, h(p.req.password, db.users[name].salt))
      case _ => true
  }

  ghost predicate Inv(h: Hash, s: State) {
    && GoodUsers(s.db) && GoodSessions(s.db.sessions, s.drawn) && GoodSaves(s.saves, s.db.sessions, s.drawn)
    && forall pid :: pid in s.procs ==> GoodProc(h, s.db, s.procs[pid])
  }

  lemma {:induction false} InvInitially(h: Hash)
    ensures Inv(h, State(EMPTY, map[], {}, []))
  {
  }

  /** No account is lost, and its id, hash and salt are those it was created with. */
  ghost predicate Keeps(a: Db, b: Db) {
    forall name :: name in a.users ==>
      name in b.users && b.users[name].id == a.users[name].id &&
      b.users[name].hash == a.users[name].hash && b.users[name].salt == a.users[name].salt
  }

  lemma {:induction false} StepKeeps(h: Hash, s: State, e: Event)
    requires Enabled(s, e)
    ensures Keeps(s.db, Next(h, s, e).db)
  {
  }

  lemma {:induction false} InsertUserGood(db: Db, name: string, hash: string, salt: string)
    requires GoodUsers(db)
    ensures GoodUsers(InsertUser(db, name, hash, salt))
  {
    if name !in db.users {
      var user := User(NextId(Ids(db)), hash, salt, 0);
      InsertedIds(db, name, user);
      InsertedDistinct(db, name, user);
    }
  }

  lemma {:induction false} InsertedDistinct(db: Db, name: string, user: User)
    requires DistinctIds(db) && name !in db.users && user.id !in Ids(db)
    ensures DistinctIds(db.(users := db.users[name := user]))
  {
    assert forall n :: n in db.users ==> db.users[n].id in Ids(db);
  }

  lemma {:induction false} InsertedIds(db: Db, name: string, user: User)
    requires name !in db.users
    ensures Ids(db.(users := db.users[name := user])) == Ids(db) + {user.id}
  {
    var next := db.(users := db.users[name := user]);
    forall i ensures i in Ids(next) <==> i in Ids(db) + {user.id} {
      if i in Ids(db) {
        var n :| n in db.users && db.users[n].id == i;
        assert n in next.users && next.users[n].id == i;
      }
      assert name in next.users && next.users[name].id == user.id;
    }
  }

  lemma {:induction false} SavedGood(db: Db, name: string, sid: string, radishes: int, upgrades: map<string, int>)
    requires GoodUsers(db)
    ensures GoodUsers(Saved(db, name, sid, radishes, upgrades))
  {
    if HasSession(db, name, sid) {
      var next := Saved(db, name, sid, radishes, upgrades);
      var id := db.users[name].id;
      assert id in Ids(db);
      forall i | i in Ids(db) ensures i in Ids(next) {
        var n :| n in db.users && db.users[n].id == i;
        assert n in next.users && next.users[n].id == i;
      }
    }
  }

  lemma {:induction false} StepGoodUsers(h: Hash, s: State, e: Event)
    requires GoodUsers(s.db) && Enabled(s, e)
    ensures GoodUsers(Next(h, s, e).db)
  {
    if e.Advance? {
      var p := s.procs[e.pid];
      hide GoodUsers, Saved, InsertUser, InsertSession, Load, HasSession, IsOnline, UserExists;
      if p.req.Create? {
        InsertUserGood(s.db, p.req.name, h(p.req.password, e.salt), e.salt);
      } else if p.req.Login? {
        if p.phase.LoadAll? { InsertSessionUsers(s.db, p.req.name, p.phase.hash, e.freshSid); }
      } else {
        SavedGood(s.db, p.req.name, p.req.sid, p.req.radishes, p.req.upgrades);
      }
    }
  }

  lemma {:induction false} InsertSessionUsers(db: Db, name: string, hash: string, sid: string)
    ensures GoodUsers(InsertSession(db, name, hash, sid)) <==> GoodUsers(db)
  {
    assert Ids(InsertSession(db, name, hash, sid)) == Ids(db);
  }

  /** The session table changes only by an effective save, which removes the saver's row, and by a
      login's new row with a fresh id. */
  lemma {:induction false} SessionsAfter(h: Hash, s: State, e: Event)
    requires Enabled(s, e) && e.Advance?
    ensures var after := Next(h, s, e).db.sessions;
            if IsEffectiveSave(s, e) then after == s.db.sessions - {s.db.users[s.procs[e.pid].req.name].id}
            else after == s.db.sessions || exists i :: i !in s.db.sessions && after == s.db.sessions[i := e.freshSid]
  {
    hide Rows, Pairs, NextId, Load, Ids;
  }

  lemma {:induction false} AddSession(sessions: map<int, string>, saves: seq<(string, string)>, drawn: set<string>,
                                      i: int, sid: string)
    requires GoodSessions(sessions, drawn) && GoodSaves(saves, sessions, drawn) && |sid| == 32 && sid !in drawn
    ensures GoodSessions(sessions[i := sid], drawn + {sid}) && GoodSaves(saves, sessions[i := sid], drawn + {sid})
    ensures GoodSessions(sessions, drawn + {sid}) && GoodSaves(saves, sessions, drawn + {sid})
  {
  }

  lemma {:induction false} SpendSession(sessions: map<int, string>, saves: seq<(string, string)>, drawn: set<string>,
                                        i: int, name: string)
    requires GoodSessions(sessions, drawn) && GoodSaves(saves, sessions, drawn) && i in sessions
    ensures GoodSessions(sessions - {i}, drawn) && GoodSaves(saves + [(name, sessions[i])], sessions - {i}, drawn)
  {
  }

  lemma {:induction false} StepGoodSessions(h: Hash, s: State, e: Event)
    requires Inv(h, s) && Enabled(s, e)
    ensures var next := Next(h, s, e);
            GoodSessions(next.db.sessions, next.drawn) && GoodSaves(next.saves, next.db.sessions, next.drawn)
  {
    if e.Advance? {
      var next := Next(h, s, e);
      SessionsAfter(h, s, e);
      assert next.drawn == s.drawn + {e.freshSid};
      AddSession(s.db.sessions, s.saves, s.drawn, 0, e.freshSid);
      if IsEffectiveSave(s, e) {
        var req := s.procs[e.pid].req;
        assert next.saves == s.saves + [(req.name, req.sid)];
        hide Next, GoodSessions, GoodSaves, GoodProc, GoodUsers;
        SpendSession(s.db.sessions, s.saves, s.drawn + {e.freshSid}, s.db.users[req.name].id, req.name);
      } else {
        assert next.saves == s.saves;
        hide Next, GoodSessions, GoodSaves, GoodProc, GoodUsers;
        if next.db.sessions != s.db.sessions {
          var i :| i !in s.db.sessions && next.db.sessions == s.db.sessions[i := e.freshSid];
          AddSession(s.db.sessions, s.saves, s.drawn, i, e.freshSid);
        }
      }
    }
  }

  lemma {:induction false} StepGoodProcs(h: Hash, s: State, e: Event)
    requires Inv(h, s) && Enabled(s, e)
    ensures forall pid :: pid in Next(h, s, e).procs ==> GoodProc(h, Next(h, s, e).db, Next(h, s, e).procs[pid])
  {
    var next := Next(h, s, e);
    StepKeeps(h, s, e);
    if e.Advance? { AdvancedProcGood(h, s, e); }
    forall pid | pid in next.procs ensures GoodProc(h, next.db, next.procs[pid]) {
      if pid != e.pid { assert GoodProc(h, s.db, s.procs[pid]); }
    }
  }

  lemma {:induction false} AdvancedProcGood(h: Hash, s: State, e: Event)
    requires Inv(h, s) && Enabled(s, e) && e.Advance?
    ensures GoodProc(h, Next(h, s, e).db, Next(h, s, e).procs[e.pid])
  {
    assert GoodProc(h, s.db, s.procs[e.pid]);
    hide GoodUsers, GoodSessions, GoodSaves, Saved, InsertUser, Ids, NextId;
  }

  /** The invariant is kept by every event. */
  lemma {:induction false} StepInv(h: Hash, s: State, e: Event)
    requires Inv(h, s) && Enabled(s, e)
    ensures Inv(h, Next(h, s, e))
  {
    StepGoodUsers(h, s, e);
    StepGoodSessions(h, s, e);
    StepGoodProcs(h, s, e);
  }
}
