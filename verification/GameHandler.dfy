/** The handler's three operations as they run when no other request comes between their steps. */
module GameHandler {
  import opened Options
  import opened GameDatabase
  import opened GameProtocol

  // ---------------------------------------------------------------------------------------
  // The steps of one request
  // ---------------------------------------------------------------------------------------

  /** The phases that a request goes through. */
  predicate OnTrack(p: Proc) {
    match p.req
    case Create(_, _) => p.phase.Begin? || p.phase.InsertRow? || p.phase.Done?
    case Login(_, _) => p.phase.Begin? || p.phase.FindUser? || p.phase.ReadSalt? || p.phase.LoadAll? || p.phase.Done?
    case Save(_, _, _, _) => p.phase.Begin? || p.phase.ProbeSession? || p.phase.Commit? || p.phase.Done?
  }

  /** A bound on the steps that a request has before it. */
  function StepsLeft(phase: Phase): nat {
    match phase
    case Begin => 4
    case FindUser => 3
    case ReadSalt => 2
    case ProbeSession => 2
    case LoadAll(_) => 1
    case InsertRow => 1
    case Commit => 1
    case Done(_) => 0
  }

  /** Every step of a request brings it nearer to its answer, whatever the database: a request is
      answered after four steps of its own at most. */
  lemma {:induction false} StepsRunOut(h: Hash, db: Db, p: Proc, e: Event)
    requires e.Advance? && OnTrack(p) && !p.phase.Done?
    ensures var phase := StepProc(h, db, p, e).1;
            OnTrack(Proc(p.req, phase)) && StepsLeft(phase) < StepsLeft(p.phase) <= 4
  {
    hide InsertUser, InsertSession, Load, Saved;
  }

  ghost predicate AllOnTrack(s: State) {
    forall pid :: pid in s.procs ==> OnTrack(s.procs[pid])
  }

  lemma {:induction false} NextOnTrack(h: Hash, s: State, e: Event)
    requires Enabled(s, e) && AllOnTrack(s)
    ensures AllOnTrack(Next(h, s, e))
  {
    if e.Advance? {
      StepsRunOut(h, s.db, s.procs[e.pid], e);
      hide StepProc, OnTrack, StepsLeft;
    }
  }

  /** In every run every request is on its track. */
  lemma {:induction false} RunOnTrack(h: Hash, s: State, es: seq<Event>)
    requires IsRun(h, s, es) && AllOnTrack(s)
    ensures AllOnTrack(RunAll(h, s, es))
    decreases |es|
  {
    if es != [] {
      NextOnTrack(h, s, es[0]);
      hide Next, AllOnTrack;
      RunOnTrack(h, Next(h, s, es[0]), es[1..]);
    }
  }

  /** A request's remaining steps with nothing in between: the database and the answer. */
  ghost function Finish(h: Hash, db: Db, p: Proc, e: Event): (Db, Answer)
    requires e.Advance? && OnTrack(p)
    decreases StepsLeft(p.phase)
  {
    if p.phase.Done? then (db, p.phase.answer)
    else
      StepsRunOut(h, db, p, e);
      var (next, phase) := StepProc(h, db, p, e);
      Finish(h, next, Proc(p.req, phase), e)
  }

  lemma {:induction false} FinishStep(h: Hash, db: Db, p: Proc, e: Event)
    requires e.Advance? && OnTrack(p) && !p.phase.Done?
    ensures var (next, phase) := StepProc(h, db, p, e);
            && OnTrack(Proc(p.req, phase))
            && Finish(h, db, p, e) ==
              if phase.Done? then (next, phase.answer) else Finish(h, next, Proc(p.req, phase), e)
  {
    StepsRunOut(h, db, p, e);
    hide StepProc, OnTrack, StepsLeft;
  }

  /** Creating an account: refused if the name is taken. */
  lemma {:induction false} FinishCreate(h: Hash, db: Db, name: string, password: string, e: Event)
    requires e.Advance?
    ensures Finish(h, db, Proc(Create(name, password), Begin), e) ==
      if UserExists(db, name) then (db, Refused) else (InsertUser(db, name, h(password, e.salt), e.salt), Created)
  {
    hide InsertUser;
    FinishStep(h, db, Proc(Create(name, password), Begin), e);
    if !UserExists(db, name) { FinishStep(h, db, Proc(Create(name, password), InsertRow), e); }
  }

  /** Logging in: refused exactly when the user is online or unknown. */
  lemma {:induction false} FinishLogin(h: Hash, db: Db, name: string, password: string, e: Event)
    requires e.Advance?
    ensures Finish(h, db, Proc(Login(name, password), Begin), e) ==
      if IsOnline(db, name) || !UserExists(db, name) then (db, Refused)
      else
        var hash := h(password, db.users[name].salt);
        var next := InsertSession(db, name, hash, e.freshSid);
        (next, LoggedIn(Load(next, name, hash)))
  {
    hide InsertSession, Load, IsOnline;
    var req := Login(name, password);
    FinishStep(h, db, Proc(req, Begin), e);
    if !IsOnline(db, name) {
      FinishStep(h, db, Proc(req, FindUser), e);
      if UserExists(db, name) {
        FinishStep(h, db, Proc(req, ReadSalt), e);
        FinishStep(h, db, Proc(req, LoadAll(h(password, db.users[name].salt))), e);
      }
    }
  }

  /** Saving: refused exactly when the user is offline or the probe finds a session. */
  lemma {:induction false} FinishSave(h: Hash, db: Db, req: Request, e: Event)
    requires e.Advance? && req.Save?
    ensures Finish(h, db, Proc(req, Begin), e) ==
      if !IsOnline(db, req.name) || HasSession(db, req.name, e.probe) then (db, Refused)
      else (Saved(db, req.name, req.sid, req.radishes, req.upgrades), Changed)
  {
    hide Saved, IsOnline, HasSession;
    FinishStep(h, db, Proc(req, Begin), e);
    if IsOnline(db, req.name) {
      FinishStep(h, db, Proc(req, ProbeSession), e);
      if !HasSession(db, req.name, e.probe) { FinishStep(h, db, Proc(req, Commit), e); }
    }
  }

  // ---------------------------------------------------------------------------------------
  // The handler
  // ---------------------------------------------------------------------------------------

  const NO_DATA := Loaded(None, map[], None)

  /** The draws of a call are the salt, the session id and the probe that its steps take from outside. */
  class GameRequestHandler {
    const connection: Connection
    const hash: Hash
    var gameData: Loaded

    constructor (connection: Connection, hash: Hash)
      ensures this.connection == connection && this.hash == hash && gameData == NO_DATA
    {
      this.connection := connection;
      this.hash := hash;
      this.gameData := NO_DATA;
    }

    method AddUser(name: string, password: string, draws: Event) returns (ok: bool)
      requires draws.Advance?
      modifies connection
      ensures (connection.db, if ok then Created else Refused) ==
        Finish(hash, old(connection.db), Proc(Create(name, password), Begin), draws)
    {
      FinishCreate(hash, connection.db, name, password, draws);
      if UserExists(connection.db, name) {
        return false;
      }
      connection.AddUser(name, hash(password, draws.salt), draws.salt);
      return true;
    }

    /** A handler lives for one request, so its data is empty before. */
    method GetValues(name: string, password: string, draws: Event) returns (ok: bool)
      requires draws.Advance? && gameData == NO_DATA
      modifies this, connection
      ensures (connection.db, if ok then LoggedIn(gameData) else Refused) ==
        Finish(hash, old(connection.db), Proc(Login(name, password), Begin), draws)
      ensures !ok ==> gameData == NO_DATA
    {
      FinishLogin(hash, connection.db, name, password, draws);
      if IsOnline(connection.db, name) || !UserExists(connection.db, name) {
        return false;
      }
      var salt := connection.db.users[name].salt;
      gameData := connection.LoginTransaction(name, hash(password, salt), draws.freshSid);
      return true;
    }

    method UpdateValues(name: string, sid: string, radishes: int, upgrades: map<string, int>, draws: Event)
      returns (ok: bool)
      requires draws.Advance?
      modifies connection
      ensures (connection.db, if ok then Changed else Refused) ==
        Finish(hash, old(connection.db), Proc(Save(name, sid, radishes, upgrades), Begin), draws)
    {
      FinishSave(hash, connection.db, Save(name, sid, radishes, upgrades), draws);
      if !IsOnline(connection.db, name) || HasSession(connection.db, name, draws.probe) {
        return false;
      }
      connection.SaveTransaction(name, sid, radishes, upgrades);
      return true;
    }
  }
}
