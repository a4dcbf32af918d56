/** What every interleaving of account creations, logins and saves keeps. */
module GameSafety {
  import opened FreshIds
  import opened Options
  import opened GameDatabase
  import opened GameProtocol

  /** What a user has saved. */
  datatype Progress = Progress(radishes: int, upgrades: map<string, int>)

  function ProgressOf(db: Db, name: string): Progress
    requires name in db.users
  {
    Progress(db.users[name].radishes, UpgradesOf(db, db.users[name].id))
  }

  predicate IsSaveOf(s: State, e: Event, name: string) {
    IsEffectiveSave(s, e) && s.procs[e.pid].req.name == name
  }

  // ---------------------------------------------------------------------------------------
  // One event
  // ---------------------------------------------------------------------------------------

  /** A save with the user's session changes exactly that user: the radishes and every listed
      upgrade are the new ones, the other upgrades stay, and the session is gone. */
  lemma {:induction false} SavedProgress(db: Db, name: string, sid: string, radishes: int,
                                         upgrades: map<string, int>, user: string)
    requires GoodUsers(db) && user in db.users && HasSession(db, name, sid)
    ensures var next := Saved(db, name, sid, radishes, upgrades);
            && user in next.users
            && ProgressOf(next, user) ==
                 (if user == name then Progress(radishes, ProgressOf(db, name).upgrades + upgrades)
                  else ProgressOf(db, user))
            && (user == name ==> !IsOnline(next, user))
            && (user != name ==> forall x :: HasSession(next, user, x) <==> HasSession(db, user, x))
  {
    var id := db.users[name].id;
    if user == name {
      OwnRows(db.upgrades, id, upgrades);
    } else {
      OtherRows(db.upgrades, id, upgrades, db.users[user].id);
    }
    hide Rows, ByOwner, Ids;
  }

  lemma {:induction false} InsertedUserKeeps(db: Db, name: string, hash: string, salt: string, user: string)
    requires user in db.users
    ensures var next := InsertUser(db, name, hash, salt);
            && user in next.users && ProgressOf(next, user) == ProgressOf(db, user)
            && forall x :: HasSession(next, user, x) <==> HasSession(db, user, x)
  {
  }

  /** A new account starts with nothing, whatever rows there are. */
  lemma {:induction false} NewAccountStartsEmpty(db: Db, name: string, hash: string, salt: string)
    requires GoodUsers(db) && name !in db.users
    ensures ProgressOf(InsertUser(db, name, hash, salt), name) == Progress(0, map[])
  {
    var id := NextId(Ids(db));
    hide Ids, NextId;
    assert forall k :: k in db.upgrades ==> k.0 != id;
    assert ByOwner(db.upgrades, id) == map[];
  }

  lemma {:induction false} InsertedSessionKeeps(db: Db, name: string, hash: string, sid: string, user: string)
    requires user in db.users
    ensures var next := InsertSession(db, name, hash, sid);
            && user in next.users && ProgressOf(next, user) == ProgressOf(db, user)
            && forall x :: HasSession(db, user, x) ==> HasSession(next, user, x)
  {
    hide NextId;
  }

  /** A user's progress changes only in the commit of a save whose session id is the user's at that
      moment; then everything in the save takes effect and the session ends. Otherwise nothing of
      the user's changes, and an open session stays open. */
  lemma {:induction false} OnlySavesChangeProgress(h: Hash, s: State, e: Event, user: string)
    requires Inv(h, s) && Enabled(s, e) && user in s.db.users
    ensures var next := Next(h, s, e);
            && user in next.db.users
            && (if IsSaveOf(s, e, user) then
                  var req := s.procs[e.pid].req;
                  && ProgressOf(next.db, user) == Progress(req.radishes, ProgressOf(s.db, user).upgrades + req.upgrades)
                  && !IsOnline(next.db, user)
                else
                  && ProgressOf(next.db, user) == ProgressOf(s.db, user)
                  && forall x :: HasSession(s.db, user, x) ==> HasSession(next.db, user, x))
  {
    hide GoodUsers, GoodSessions, GoodSaves, GoodProc, ProgressOf, StepProc, HasSession, IsOnline;
    if e.Advance? { StepProgress(h, s.db, s.procs[e.pid], e, user); }
  }

  lemma {:induction false} StepProgress(h: Hash, db: Db, p: Proc, e: Event, user: string)
    requires GoodUsers(db) && user in db.users && e.Advance?
    ensures var next := StepProc(h, db, p, e).0;
            && user in next.users
            && (if p.req.Save? && p.phase == Commit && p.req.name == user && HasSession(db, user, p.req.sid) then
                  && ProgressOf(next, user) == Progress(p.req.radishes, ProgressOf(db, user).upgrades + p.req.upgrades)
                  && !IsOnline(next, user)
                else
                  && ProgressOf(next, user) == ProgressOf(db, user)
                  && forall x :: HasSession(db, user, x) ==> HasSession(next, user, x))
  {
    hide Saved, InsertUser, InsertSession, Load, ProgressOf, UserExists, IsOnline, HasSession, GoodUsers;
    if p.req.Create? {
      InsertedUserKeeps(db, p.req.name, h(p.req.password, e.salt), e.salt, user);
    } else if p.req.Login? {
      if p.phase.LoadAll? { InsertedSessionKeeps(db, p.req.name, p.phase.hash, e.freshSid, user); }
    } else if p.phase == Commit {
      CommitChanges(db, p.req, user);
    }
  }

  lemma {:induction false} CommitChanges(db: Db, req: Request, user: string)
    requires GoodUsers(db) && user in db.users && req.Save?
    ensures var next := Saved(db, req.name, req.sid, req.radishes, req.upgrades);
            && user in next.users
            && (if req.name == user && HasSession(db, user, req.sid) then
                  && ProgressOf(next, user) == Progress(req.radishes, ProgressOf(db, user).upgrades + req.upgrades)
                  && !IsOnline(next, user)
                else
                  && ProgressOf(next, user) == ProgressOf(db, user)
                  && forall x :: HasSession(db, user, x) ==> HasSession(next, user, x))
  {
    hide GoodUsers, ProgressOf, Rows, Pairs;
    if HasSession(db, req.name, req.sid) {
      SavedProgress(db, req.name, req.sid, req.radishes, req.upgrades, user);
    } else {
      UnsavedKeeps(db, req.name, req.sid, req.radishes, req.upgrades, user);
    }
  }

  lemma {:induction false} UnsavedKeeps(db: Db, name: string, sid: string, radishes: int, upgrades: map<string, int>,
                                        user: string)
    requires user in db.users && !HasSession(db, name, sid)
    ensures var next := Saved(db, name, sid, radishes, upgrades);
            && next.users == db.users && next.sessions == db.sessions && next.upgrades == db.upgrades
            && ProgressOf(next, user) == ProgressOf(db, user)
  {
  }

  /** What the transaction of a right-password login gives: the user's progress, and the session
      that is open already, or else a fresh one. */
  lemma {:induction false} RightPasswordLogin(db: Db, name: string, hash: string, sid: string)
    requires PasswordMatches(db, name, hash)
    ensures var next := InsertSession(db, name, hash, sid);
            var data := Load(next, name, hash);
            && data.radishes == Some(ProgressOf(db, name).radishes) && data.upgrades == ProgressOf(db, name).upgrades
            && data.sid == Some(if IsOnline(db, name) then db.sessions[db.users[name].id] else sid)
            && HasSession(next, name, data.sid.value)
  {
  }

  /** A login with another password reads nothing, and still adds a session row: it gets the next
      free id. */
  lemma {:induction false} WrongPasswordLogin(db: Db, name: string, hash: string, sid: string)
    requires !PasswordMatches(db, name, hash)
    ensures var next := InsertSession(db, name, hash, sid);
            && Load(next, name, hash) == Loaded(None, map[], None)
            && next.sessions == db.sessions[NextId(db.sessions.Keys) := sid]
            && next.users == db.users && next.upgrades == db.upgrades
  {
    hide NextId;
  }

  /** So a login leaves every other user as online or offline as before exactly when its password is
      right or the next free session id is not the id of another user. */
  lemma {:induction false} LoginTouchesOnlyItsUser(db: Db, name: string, hash: string, sid: string)
    requires DistinctIds(db)
    ensures var next := InsertSession(db, name, hash, sid);
            (forall v :: v in db.users && v != name ==> IsOnline(next, v) == IsOnline(db, v)) <==>
            (|| PasswordMatches(db, name, hash)
             || forall v :: v in db.users && v != name ==> db.users[v].id != NextId(db.sessions.Keys))
  {
    hide NextId;
    var next := InsertSession(db, name, hash, sid);
    if !PasswordMatches(db, name, hash) {
      forall v | v in db.users
        ensures IsOnline(next, v) <==> IsOnline(db, v) || db.users[v].id == NextId(db.sessions.Keys) {}
    }
  }

  /** Two offline users: a login of the second with a wrong password puts the first online. */
  lemma {:induction false} WrongPasswordPutsAnotherOnline()
    ensures var users := map["ann" := User(1, "h1", "s1", 0), "bob" := User(2, "h2", "s2", 0)];
            var db := Db(users, map[], map[], multiset{});
            var next := InsertSession(db, "bob", "h3", "sid");
            DistinctIds(db) && !IsOnline(db, "ann") && IsOnline(next, "ann") && !IsOnline(next, "bob")
  {
    var users := map["ann" := User(1, "h1", "s1", 0), "bob" := User(2, "h2", "s2", 0)];
    var db := Db(users, map[], map[], multiset{});
    assert db.sessions.Keys == {};
    hide NextId;
    assert InsertSession(db, "bob", "h3", "sid").sessions == map[1 := "sid"];
  }

  /** The probe before a save never finds a session: it looks for 16 characters, and session ids
      have 32. So the probe refuses no save. */
  lemma {:induction false} ProbeNeverRefuses(h: Hash, s: State, e: Event)
    requires Inv(h, s) && Enabled(s, e) && e.Advance?
    requires s.procs[e.pid].req.Save? && s.procs[e.pid].phase == ProbeSession
    ensures Next(h, s, e).procs[e.pid].phase == Commit
  {
    hide GoodUsers, GoodSaves, GoodProc;
    assert !HasSession(s.db, s.procs[e.pid].req.name, e.probe);
  }

  /** A login that reads a salt finds one: its user was there and has not been removed since. */
  lemma {:induction false} SaltIsAlwaysFound(h: Hash, s: State, e: Event)
    requires Inv(h, s) && Enabled(s, e) && e.Advance?
    requires s.procs[e.pid].req.Login? && s.procs[e.pid].phase == ReadSalt
    ensures var req := s.procs[e.pid].req;
            && req.name in s.db.users
            && Next(h, s, e).procs[e.pid].phase == LoadAll(h(req.password, s.db.users[req.name].salt))
  {
    assert GoodProc(h, s.db, s.procs[e.pid]);
    hide GoodUsers, GoodSessions, GoodSaves;
  }

  /** The commit answers that it changed something, whether it did or not. */
  lemma {:induction false} CommitAlwaysAnswersChanged(h: Hash, s: State, e: Event)
    requires Enabled(s, e) && e.Advance? && s.procs[e.pid].req.Save? && s.procs[e.pid].phase == Commit
    ensures var req := s.procs[e.pid].req;
            && Next(h, s, e).procs[e.pid].phase == Done(Changed)
            && (Next(h, s, e).saves != s.saves <==> HasSession(s.db, req.name, req.sid))
  {
    hide Saved;
  }

  // ---------------------------------------------------------------------------------------
  // Whole runs
  // ---------------------------------------------------------------------------------------

  lemma {:induction false} RunInv(h: Hash, s: State, es: seq<Event>)
    requires Inv(h, s) && IsRun(h, s, es)
    ensures Inv(h, RunAll(h, s, es))
    decreases |es|
  {
    hide Inv, Next;
    if es != [] {
      StepInv(h, s, es[0]);
      RunInv(h, Next(h, s, es[0]), es[1..]);
    }
  }

  lemma {:induction false} KeepsTransitive(a: Db, b: Db, c: Db)
    requires Keeps(a, b) && Keeps(b, c)
    ensures Keeps(a, c)
  {
  }

  /** Over any run no account is lost, and ids, hashes and salts never change, even when several
      creations of one name pass their check before any of them inserts. */
  lemma {:induction false} RunKeepsAccounts(h: Hash, s: State, es: seq<Event>)
    requires IsRun(h, s, es)
    ensures Keeps(s.db, RunAll(h, s, es).db)
    decreases |es|
  {
    if es != [] {
      hide Keeps, Next;
      StepKeeps(h, s, es[0]);
      RunKeepsAccounts(h, Next(h, s, es[0]), es[1..]);
      KeepsTransitive(s.db, Next(h, s, es[0]).db, RunAll(h, s, es).db);
    }
  }

  /** Over any run from an empty database, a session id authorises at most one effective save, and
      no two users have the same session id. */
  lemma {:induction false} SessionsAuthoriseOnce(h: Hash, es: seq<Event>)
    requires IsRun(h, State(EMPTY, map[], {}, []), es)
    ensures var end := RunAll(h, State(EMPTY, map[], {}, []), es);
            && (forall i, j :: 0 <= i < j < |end.saves| ==> end.saves[i].1 != end.saves[j].1)
            && (forall a, b, x :: HasSession(end.db, a, x) && HasSession(end.db, b, x) ==> a == b)
            && (forall i, a :: 0 <= i < |end.saves| ==> !HasSession(end.db, a, end.saves[i].1))
  {
    InvInitially(h);
    RunInv(h, State(EMPTY, map[], {}, []), es);
    hide IsRun, RunAll, GoodProc;
  }

  lemma {:induction false} RunExtendsSaves(h: Hash, s: State, es: seq<Event>)
    requires IsRun(h, s, es)
    ensures s.saves <= RunAll(h, s, es).saves
    decreases |es|
  {
    if es != [] {
      assert s.saves <= Next(h, s, es[0]).saves by { hide StepProc; }
      hide Next;
      RunExtendsSaves(h, Next(h, s, es[0]), es[1..]);
    }
  }

  /** No save of the user takes effect between two states. */
  predicate NoSaveBetween(s: State, end: State, user: string) {
    forall i :: |s.saves| <= i < |end.saves| ==> end.saves[i].0 != user
  }

  lemma {:induction false} SaveShows(h: Hash, s: State, es: seq<Event>, user: string)
    requires IsRun(h, s, es) && es != [] && IsSaveOf(s, es[0], user)
    ensures !NoSaveBetween(s, RunAll(h, s, es), user)
  {
    var sid := s.procs[es[0].pid].req.sid;
    var next := Next(h, s, es[0]);
    assert next.saves == s.saves + [(user, sid)] by { hide StepProc; }
    RunExtendsSaves(h, next, es[1..]);
    hide Next;
    assert RunAll(h, s, es).saves[|s.saves|] == next.saves[|s.saves|] == (user, sid);
  }

  lemma {:induction false} FirstIsNoSave(h: Hash, s: State, es: seq<Event>, user: string)
    requires IsRun(h, s, es) && es != [] && NoSaveBetween(s, RunAll(h, s, es), user)
    ensures !IsSaveOf(s, es[0], user)
    ensures NoSaveBetween(Next(h, s, es[0]), RunAll(h, s, es), user)
  {
    assert s.saves <= Next(h, s, es[0]).saves by { hide StepProc; }
    hide Next;
    if IsSaveOf(s, es[0], user) { SaveShows(h, s, es, user); }
  }

  /** Over a run in which no save of a user takes effect, the user's progress stays, and so does an
      open session. */
  lemma {:induction false} RunKeepsProgress(h: Hash, s: State, es: seq<Event>, user: string)
    requires Inv(h, s) && IsRun(h, s, es) && user in s.db.users
    requires NoSaveBetween(s, RunAll(h, s, es), user)
    ensures var end := RunAll(h, s, es);
            && user in end.db.users && ProgressOf(end.db, user) == ProgressOf(s.db, user)
            && forall x :: HasSession(s.db, user, x) ==> HasSession(end.db, user, x)
    decreases |es|
  {
    if es != [] {
      var next := Next(h, s, es[0]);
      FirstIsNoSave(h, s, es, user);
      OnlySavesChangeProgress(h, s, es[0], user);
      StepInv(h, s, es[0]);
      hide Inv, Next, ProgressOf, HasSession, NoSaveBetween;
      RunKeepsProgress(h, next, es[1..], user);
    }
  }

  /** After the save a run without another effective save of that user, and then the transaction of
      a login of that user with the right password. */
  ghost predicate LoginAfterSave(h: Hash, s: State, save: Event, es: seq<Event>, login: Event)
    requires Enabled(s, save) && IsEffectiveSave(s, save)
  {
    IsRun(h, Next(h, s, save), es) &&
    var user := s.procs[save.pid].req.name;
    var end := RunAll(h, Next(h, s, save), es);
    && NoSaveBetween(Next(h, s, save), end, user)
    && Enabled(end, login) && login.Advance? && end.procs[login.pid].req.Login?
    && end.procs[login.pid].req.name == user && end.procs[login.pid].phase.LoadAll?
    && s.db.users[user].hash == h(end.procs[login.pid].req.password, s.db.users[user].salt)
  }

  /** A save and then, after any run without another effective save of that user, a login with the
      right password: it is given what was saved, on top of the upgrades that were not listed. */
  lemma {:induction false} SaveThenLogin(h: Hash, s: State, save: Event, es: seq<Event>, login: Event)
    requires Inv(h, s) && Enabled(s, save) && IsEffectiveSave(s, save)
    requires LoginAfterSave(h, s, save, es, login)
    ensures var req := s.procs[save.pid].req;
            var end := Next(h, RunAll(h, Next(h, s, save), es), login);
            && end.procs[login.pid].phase.Done? && end.procs[login.pid].phase.answer.LoggedIn?
            && var data := end.procs[login.pid].phase.answer.data;
               && data.radishes == Some(req.radishes)
               && data.upgrades == ProgressOf(s.db, req.name).upgrades + req.upgrades
               && data.sid.Some? && HasSession(end.db, req.name, data.sid.value)
  {
    var user := s.procs[save.pid].req.name;
    var saved := Next(h, s, save);
    var end := RunAll(h, saved, es);
    var p := end.procs[login.pid];
    OnlySavesChangeProgress(h, s, save, user);
    StepInv(h, s, save);
    StepKeeps(h, s, save);
    RunKeepsProgress(h, saved, es, user);
    RunInv(h, saved, es);
    RunKeepsAccounts(h, saved, es);
    KeepsTransitive(s.db, saved.db, end.db);
    assert GoodProc(h, end.db, p);
    assert PasswordMatches(end.db, user, p.phase.hash);
    RightPasswordLogin(end.db, user, p.phase.hash, login.freshSid);
    hide Inv, InsertSession, Load, ProgressOf, HasSession, RunAll, IsRun, NoSaveBetween, Keeps, GoodProc;
    assert Next(h, end, login).procs[login.pid] == Proc(p.req, StepLogin(h, end.db, p, login).1);
  }

  /** Two logins of a user with the right password and no effective save of that user between their
      transactions are given the same session, even if both found the user offline. */
  lemma {:induction false} RacingLoginsShareSession(h: Hash, s: State, es: seq<Event>, user: string, hash: string,
                                                    sid: string)
    requires Inv(h, s) && IsRun(h, s, es) && user in s.db.users && IsOnline(s.db, user)
    requires NoSaveBetween(s, RunAll(h, s, es), user)
    requires PasswordMatches(RunAll(h, s, es).db, user, hash)
    ensures var end := RunAll(h, s, es);
            && Load(InsertSession(end.db, user, hash, sid), user, hash).sid == Some(s.db.sessions[s.db.users[user].id])
            && InsertSession(end.db, user, hash, sid) == end.db
  {
    RunKeepsProgress(h, s, es, user);
    var x := s.db.sessions[s.db.users[user].id];
    assert HasSession(s.db, user, x);
    RightPasswordLogin(RunAll(h, s, es).db, user, hash, sid);
    hide Inv, RunAll, IsRun, ProgressOf, NoSaveBetween;
  }
}
