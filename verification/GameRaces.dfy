/** What the interleavings of the game protocol do not prevent, as runs. */
module GameRaces {
  import opened FreshIds
  import opened Options
  import opened GameDatabase
  import opened GameProtocol
  import opened GameSafety
  import opened GameHandler

  // ---------------------------------------------------------------------------------------
  // Saves without effect
  // ---------------------------------------------------------------------------------------

  lemma {:induction false} SpentId(h: Hash, s: State, name: string, i: nat)
    requires Inv(h, s) && i < |s.saves|
    ensures !HasSession(s.db, name, s.saves[i].1)
  {
    hide GoodUsers, GoodSessions, GoodProc;
  }

  /** A save with a session id that has authorised a save before, in any run and for any user, is
      answered like the first one; but no table row of any user changes, and what it lists becomes rows
      that belong to nobody. */
  lemma {:induction false} SecondSaveIsLost(h: Hash, s: State, first: Event, es: seq<Event>, second: Event)
    requires Inv(h, s) && Enabled(s, first) && IsEffectiveSave(s, first)
    requires IsRun(h, Next(h, s, first), es)
    requires var end := RunAll(h, Next(h, s, first), es);
             && Enabled(end, second) && second.Advance?
             && end.procs[second.pid].req.Save? && end.procs[second.pid].phase == Commit
             && end.procs[second.pid].req.sid == s.procs[first.pid].req.sid
    ensures var end := RunAll(h, Next(h, s, first), es);
            var (req, last) := (end.procs[second.pid].req, Next(h, end, second));
            && last.procs[second.pid].phase == Done(Changed) == Next(h, s, first).procs[first.pid].phase
            && last.saves == end.saves
            && last.db == end.db.(orphans := end.db.orphans + multiset(Pairs(req.upgrades)))
  {
    var saved := Next(h, s, first);
    var end := RunAll(h, saved, es);
    var req := end.procs[second.pid].req;
    assert saved.saves == s.saves + [(s.procs[first.pid].req.name, req.sid)];
    StepInv(h, s, first);
    RunInv(h, saved, es);
    RunExtendsSaves(h, saved, es);
    CommitAlwaysAnswersChanged(h, s, first);
    hide Inv, RunAll, IsRun, Pairs, Rows, HasSession;
    assert end.saves[|s.saves|] == saved.saves[|s.saves|];
    SpentId(h, end, req.name, |s.saves|);
  }

  /** Two saves of one user with the user's session id, both at their transactions: the first to
      commit takes effect, the second does not, and both are answered with success. */
  lemma {:induction false} RacingSaves(h: Hash, s: State, a: Event, b: Event)
    requires Inv(h, s) && Enabled(s, a) && a.Advance? && b.Advance? && a.pid != b.pid && b.pid in s.procs
    requires s.procs[a.pid].req.Save? && s.procs[a.pid].phase == Commit
    requires s.procs[b.pid].req.Save? && s.procs[b.pid].phase == Commit
    requires var (x, y) := (s.procs[a.pid].req, s.procs[b.pid].req); x.name == y.name && x.sid == y.sid
    requires HasSession(s.db, s.procs[a.pid].req.name, s.procs[a.pid].req.sid)
    requires Enabled(Next(h, s, a), b)
    ensures var (x, y, end) := (s.procs[a.pid].req, s.procs[b.pid].req, Next(h, Next(h, s, a), b));
            && end.procs[a.pid].phase == end.procs[b.pid].phase == Done(Changed)
            && end.saves == s.saves + [(x.name, x.sid)]
            && x.name in end.db.users
            && ProgressOf(end.db, x.name) == Progress(x.radishes, ProgressOf(s.db, x.name).upgrades + x.upgrades)
            && end.db.orphans == s.db.orphans + multiset(Pairs(y.upgrades))
  {
    var x := s.procs[a.pid].req;
    var next := Next(h, s, a);
    assert RunAll(h, next, []) == next && IsRun(h, next, []);
    assert IsSaveOf(s, a, x.name);
    assert next.procs[b.pid] == s.procs[b.pid];
    assert next.saves == s.saves + [(x.name, x.sid)];
    assert next.db.orphans == s.db.orphans;
    SecondSaveIsLost(h, s, a, [], b);
    OnlySavesChangeProgress(h, s, a, x.name);
    hide Inv, HasSession, Pairs, Rows, StepProc;
    assert Next(h, next, b).procs[a.pid] == next.procs[a.pid];
  }

  // ---------------------------------------------------------------------------------------
  // Who is online after a login
  // ---------------------------------------------------------------------------------------

  /** A login transaction puts online whoever has the user id of its row: its own user with the right
      password, and otherwise the user with the next free id, if there is one. Nobody goes offline. */
  lemma {:induction false} OnlineAfterLogin(db: Db, name: string, hash: string, sid: string, v: string)
    requires v in db.users && DistinctIds(db)
    ensures IsOnline(InsertSession(db, name, hash, sid), v) <==>
      || IsOnline(db, v)
      || (if PasswordMatches(db, name, hash) then v == name else db.users[v].id == NextId(db.sessions.Keys))
  {
    hide NextId;
  }

  /** Nobody who saves knows this session id. */
  ghost predicate NobodyHas(s: State, sid: string) {
    forall pid :: pid in s.procs && s.procs[pid].req.Save? ==> s.procs[pid].req.sid != sid
  }

  ghost predicate NobodyBrings(es: seq<Event>, sid: string) {
    forall i :: 0 <= i < |es| && es[i].Arrive? && es[i].req.Save? ==> es[i].req.sid != sid
  }

  /** A session whose id no save carries never ends: over any such run its user stays online, with the
      same progress. */
  lemma {:induction false} UnknownSessionStays(h: Hash, s: State, es: seq<Event>, user: string, sid: string)
    requires Inv(h, s) && IsRun(h, s, es) && HasSession(s.db, user, sid)
    requires NobodyHas(s, sid) && NobodyBrings(es, sid)
    ensures var end := RunAll(h, s, es);
            HasSession(end.db, user, sid) && ProgressOf(end.db, user) == ProgressOf(s.db, user)
    decreases |es|
  {
    if es != [] {
      var next := Next(h, s, es[0]);
      assert !IsSaveOf(s, es[0], user);
      assert NobodyHas(next, sid);
      OnlySavesChangeProgress(h, s, es[0], user);
      StepInv(h, s, es[0]);
      assert NobodyBrings(es[1..], sid);
      hide Inv, Next, ProgressOf, NobodyHas, NobodyBrings;
      UnknownSessionStays(h, next, es[1..], user, sid);
    }
  }

  /** So its user is locked out: every login that asks whether the user is online is refused. */
  lemma {:induction false} LockedOut(h: Hash, s: State, es: seq<Event>, user: string, sid: string, login: Event)
    requires Inv(h, s) && IsRun(h, s, es) && HasSession(s.db, user, sid)
    requires NobodyHas(s, sid) && NobodyBrings(es, sid)
    requires var end := RunAll(h, s, es);
             && Enabled(end, login) && login.Advance? && end.procs[login.pid].req.Login?
             && end.procs[login.pid].req.name == user && end.procs[login.pid].phase == Begin
    ensures Next(h, RunAll(h, s, es), login).procs[login.pid].phase == Done(Refused)
  {
    UnknownSessionStays(h, s, es, user, sid);
    hide Inv, RunAll, IsRun, NobodyHas, NobodyBrings, ProgressOf;
  }

  // ---------------------------------------------------------------------------------------
  // A run that locks a user out
  // ---------------------------------------------------------------------------------------

  lemma {:induction false} RunAppend(h: Hash, s: State, a: seq<Event>, b: seq<Event>)
    requires IsRun(h, s, a) && IsRun(h, RunAll(h, s, a), b)
    ensures IsRun(h, s, a + b) && RunAll(h, s, a + b) == RunAll(h, RunAll(h, s, a), b)
    decreases |a|
  {
    hide Next, Enabled;
    if a == [] {
      assert a + b == b;
    } else {
      assert (a + b)[0] == a[0] && (a + b)[1..] == a[1..] + b;
      RunAppend(h, Next(h, s, a[0]), a[1..], b);
    }
  }

  /** The run goes on with one more event. */
  lemma {:induction false} RunOn(h: Hash, s: State, es: seq<Event>, e: Event) returns (all: seq<Event>)
    requires IsRun(h, s, es) && Enabled(RunAll(h, s, es), e)
    ensures IsRun(h, s, all) && RunAll(h, s, all) == Next(h, RunAll(h, s, es), e)
    ensures all == es + [e]
  {
    hide Next;
    all := es + [e];
    assert [e][1..] == [];
    assert IsRun(h, RunAll(h, s, es), [e]);
    RunAppend(h, s, es, [e]);
  }

  /** Session ids for a run: 32 times the same character. */
  function Sid(c: char): (sid: string)
    ensures |sid| == 32 && sid[0] == c
  {
    seq(32, _ => c)
  }

  const PROBE: string := seq(16, _ => '0')

  /** The ids drawn are those of characters before c. */
  ghost predicate DrawnBefore(s: State, c: char) {
    forall sid :: sid in s.drawn ==> sid != "" && sid[0] < c
  }

  /** One step of a request that is no save, with the session id of c. */
  lemma {:induction false} Advanced(h: Hash, s: State, es: seq<Event>, pid: nat, salt: string, c: char, next: char)
    returns (all: seq<Event>)
    requires IsRun(h, s, es)
    requires var now := RunAll(h, s, es);
             && DrawnBefore(now, c) && c < next
             && pid in now.procs && !now.procs[pid].req.Save? && !now.procs[pid].phase.Done?
    ensures IsRun(h, s, all)
    ensures var (now, e) := (RunAll(h, s, es), Advance(pid, salt, Sid(c), PROBE));
            && Enabled(now, e) && RunAll(h, s, all) == Next(h, now, e) && DrawnBefore(RunAll(h, s, all), next)
            && all == es + [e]
  {
    var e := Advance(pid, salt, Sid(c), PROBE);
    hide Next, RunAll, IsRun;
    all := RunOn(h, s, es, e);
    assert Next(h, RunAll(h, s, es), e).drawn == RunAll(h, s, es).drawn + {Sid(c)} by {
      DrawnGrows(h, RunAll(h, s, es), e);
    }
  }

  lemma {:induction false} DrawnGrows(h: Hash, s: State, e: Event)
    requires Enabled(s, e) && e.Advance?
    ensures Next(h, s, e).drawn == s.drawn + {e.freshSid}
  {
    hide StepProc;
  }

  /** An account created with nothing in between. */
  lemma {:induction false} Created(h: Hash, s: State, es: seq<Event>, pid: nat, name: string, password: string,
                                   salt: string,
                                   c: char, d: char, next: char) returns (all: seq<Event>)
    requires IsRun(h, s, es) && c < d < next
    requires var now := RunAll(h, s, es); DrawnBefore(now, c) && pid !in now.procs && name !in now.db.users
    ensures IsRun(h, s, all) && DrawnBefore(RunAll(h, s, all), next)
    ensures var (now, end) := (RunAll(h, s, es), RunAll(h, s, all));
            && end.db == InsertUser(now.db, name, h(password, salt), salt)
            && end.procs.Keys == now.procs.Keys + {pid}
    ensures es <= all && forall i :: |es| <= i < |all| && all[i].Arrive? ==> all[i].req == Create(name, password)
  {
    hide RunAll, IsRun, InsertUser, DrawnBefore;
    all := RunOn(h, s, es, Arrive(pid, Create(name, password)));
    assert DrawnBefore(RunAll(h, s, all), c) by { SameDrawn(RunAll(h, s, es), RunAll(h, s, all), c); }
    all := Advanced(h, s, all, pid, salt, c, d);
    assert RunAll(h, s, all).procs[pid].phase == InsertRow;
    all := Advanced(h, s, all, pid, salt, d, next);
  }

  lemma {:induction false} SameDrawn(a: State, b: State, c: char)
    requires DrawnBefore(a, c) && b.drawn == a.drawn
    ensures DrawnBefore(b, c)
  {
  }

  /** A login of an offline user with nothing in between. */
  lemma {:induction false} LoggedInAlone(h: Hash, s: State, es: seq<Event>, pid: nat, name: string, password: string,
                                         c: char, d: char, e: char, f: char, next: char) returns (all: seq<Event>)
    requires IsRun(h, s, es) && c < d < e < f < next
    requires var now := RunAll(h, s, es);
             DrawnBefore(now, c) && pid !in now.procs && name in now.db.users && !IsOnline(now.db, name)
    ensures IsRun(h, s, all)
    ensures var (now, end) := (RunAll(h, s, es), RunAll(h, s, all));
            var hash := h(password, now.db.users[name].salt);
            && end.db == InsertSession(now.db, name, hash, Sid(f))
            && pid in end.procs && end.procs[pid].phase == Done(LoggedIn(Load(end.db, name, hash)))
    ensures es <= all && forall i :: |es| <= i < |all| && all[i].Arrive? ==> all[i].req == Login(name, password)
  {
    hide RunAll, IsRun, InsertSession, Load, DrawnBefore, IsOnline;
    all := RunOn(h, s, es, Arrive(pid, Login(name, password)));
    assert DrawnBefore(RunAll(h, s, all), c) by { SameDrawn(RunAll(h, s, es), RunAll(h, s, all), c); }
    all := Advanced(h, s, all, pid, "", c, d);
    all := Advanced(h, s, all, pid, "", d, e);
    all := Advanced(h, s, all, pid, "", e, f);
    assert RunAll(h, s, all).procs[pid].phase == LoadAll(h(password, RunAll(h, s, es).db.users[name].salt));
    all := Advanced(h, s, all, pid, "", f, next);
  }

  /** From an empty database: two accounts are created, and a login of the second with a wrong password
      puts the first online, who has never logged in. Nobody is given the session id. */
  lemma {:induction false} WrongPasswordRun(h: Hash, ann: string, bob: string, right: string, wrong: string,
                                            salt: string)
    returns (es: seq<Event>)
    requires ann != bob && h(wrong, salt) != h(right, salt)
    ensures IsRun(h, State(EMPTY, map[], {}, []), es)
    ensures forall i :: 0 <= i < |es| && es[i].Arrive? && es[i].req.Login? ==> es[i].req == Login(bob, wrong)
    ensures var end := RunAll(h, State(EMPTY, map[], {}, []), es);
            && HasSession(end.db, ann, Sid('7')) && !IsOnline(end.db, bob)
            && 2 in end.procs && end.procs[2].phase == Done(LoggedIn(Loaded(None, map[], None)))
  {
    var start := State(EMPTY, map[], {}, []);
    es := [];
    es := Created(h, start, es, 0, ann, right, salt, '0', '1', '2');
    es := Created(h, start, es, 1, bob, right, salt, '2', '3', '4');
    var db := RunAll(h, start, es).db;
    TwoAccounts(ann, bob, h(right, salt), salt, db);
    hide RunAll, IsRun, InsertUser, DrawnBefore;
    es := LoggedInAlone(h, start, es, 2, bob, wrong, '4', '5', '6', '7', '8');
    WrongPasswordLogin(db, bob, h(wrong, salt), Sid('7'));
  }

  lemma {:induction false} TwoAccounts(ann: string, bob: string, hash: string, salt: string, db: Db)
    requires ann != bob && db == InsertUser(InsertUser(EMPTY, ann, hash, salt), bob, hash, salt)
    ensures ann in db.users && bob in db.users && db.sessions == map[]
    ensures db.users[ann].id == 1 != db.users[bob].id && db.users[bob].hash == hash && db.users[bob].salt == salt
    ensures NextId(db.sessions.Keys) == 1
  {
    var first := InsertUser(EMPTY, ann, hash, salt);
    assert Ids(EMPTY) == {};
    assert first.users[ann].id in Ids(first);
    assert EMPTY.sessions.Keys == {};
    hide NextId, Ids;
  }
}
