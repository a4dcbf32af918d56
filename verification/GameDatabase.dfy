/** The game's three tables and the SQL statements that the game handler runs on them. */
module GameDatabase {
  import opened FreshIds
  import opened Options

  /** A row of the users table. The username is the key of the table below: it is UNIQUE. */
  datatype User = User(id: int, hash: string, salt: string, radishes: int)

  /** The session table maps a user id, its PRIMARY KEY, to a session id. An upgrade row belongs to a
      user id and an upgrade type; rows whose user id is NULL are kept apart, as they are distinct
      from one another and from all others. */
  datatype Db = Db(
    users: map<string, User>,
    sessions: map<int, string>,
    upgrades: map<(int, string), int>,
    orphans: multiset<(string, int)>)

  const EMPTY := Db(map[], map[], map[], multiset{})

  function Ids(db: Db): set<int> {
    set name | name in db.users :: db.users[name].id
  }

  // ---------------------------------------------------------------------------------------
  // Queries
  // ---------------------------------------------------------------------------------------

  predicate UserExists(db: Db, name: string) {
    name in db.users
  }

  predicate IsOnline(db: Db, name: string) {
    name in db.users && db.users[name].id in db.sessions
  }

  /** The session row of the user holds exactly this session id. */
  predicate HasSession(db: Db, name: string, sid: string) {
    IsOnline(db, name) && db.sessions[db.users[name].id] == sid
  }

  predicate PasswordMatches(db: Db, name: string, hash: string) {
    name in db.users && db.users[name].hash == hash
  }

  /** The upgrade rows of a user. */
  function UpgradesOf(db: Db, id: int): map<string, int> {
    ByOwner(db.upgrades, id)
  }

  function ByOwner(upgrades: map<(int, string), int>, id: int): map<string, int> {
    map k | k in upgrades && k.0 == id :: k.1 := upgrades[k]
  }

  // ---------------------------------------------------------------------------------------
  // Statements
  // ---------------------------------------------------------------------------------------

  /** INSERT OR IGNORE INTO users. */
  function InsertUser(db: Db, name: string, hash: string, salt: string): Db {
    if name in db.users then db
    else db.(users := db.users[name := User(NextId(Ids(db)), hash, salt, 0)])
  }

  /** INSERT OR IGNORE INTO sessions of the id of the user with this name and hash. When there is
      none the id is NULL, and the row gets the next free id. */
  function InsertSession(db: Db, name: string, hash: string, sid: string): Db {
    var id := if PasswordMatches(db, name, hash) then db.users[name].id else NextId(db.sessions.Keys);
    if id in db.sessions then db else db.(sessions := db.sessions[id := sid])
  }

  /** What the login queries read: nothing without a matching password. */
  datatype Loaded = Loaded(radishes: Option<int>, upgrades: map<string, int>, sid: Option<string>)

  function Load(db: Db, name: string, hash: string): Loaded {
    if !PasswordMatches(db, name, hash) then Loaded(None, map[], None)
    else
      var u := db.users[name];
      Loaded(Some(u.radishes), UpgradesOf(db, u.id), if u.id in db.sessions then Some(db.sessions[u.id]) else None)
  }

  /** UPDATE users SET radish_num, if the user has this session. */
  function UpdateRadishes(db: Db, name: string, sid: string, radishes: int): Db {
    if HasSession(db, name, sid) then db.(users := db.users[name := db.users[name].(radishes := radishes)]) else db
  }

  /** INSERT OR REPLACE INTO upgrades: without this session the user id is NULL. */
  function ReplaceUpgrade(db: Db, name: string, sid: string, kind: string, num: int): Db {
    if HasSession(db, name, sid) then db.(upgrades := db.upgrades[(db.users[name].id, kind) := num])
    else db.(orphans := db.orphans + multiset{(kind, num)})
  }

  /** DELETE FROM sessions the row of this user with this session id. */
  function DeleteSession(db: Db, name: string, sid: string): Db {
    if HasSession(db, name, sid) then db.(sessions := db.sessions - {db.users[name].id}) else db
  }

  // ---------------------------------------------------------------------------------------
  // The save transaction as a whole
  // ---------------------------------------------------------------------------------------

  function Rows(id: int, upgrades: map<string, int>): map<(int, string), int> {
    map kind | kind in upgrades :: (id, kind) := upgrades[kind]
  }

  function Pairs(upgrades: map<string, int>): set<(string, int)> {
    set kind | kind in upgrades :: (kind, upgrades[kind])
  }

  /** All or nothing: with the user's session the radishes, every listed upgrade and the removal of
      the session take effect together; without it no user's rows change, and every listed upgrade
      becomes a row that belongs to nobody. */
  function Saved(db: Db, name: string, sid: string, radishes: int, upgrades: map<string, int>): Db {
    if HasSession(db, name, sid) then
      var u := db.users[name];
      Db(db.users[name := u.(radishes := radishes)], db.sessions - {u.id}, db.upgrades + Rows(u.id, upgrades),
        db.orphans)
    else
      db.(orphans := db.orphans + multiset(Pairs(upgrades)))
  }

  /** The database as the handler's connections see it: every method is one atomic step. */
  class Connection {
    var db: Db

    constructor (db: Db)
      ensures this.db == db
    {
      this.db := db;
    }

    /** The last step of creating an account. */
    method AddUser(name: string, hash: string, salt: string)
      modifies this
      ensures db == InsertUser(old(db), name, hash, salt)
    {
      db := InsertUser(db, name, hash, salt);
    }

    /** The exclusive transaction of a login: its four commands, the third of which writes. */
    method LoginTransaction(name: string, hash: string, freshSid: string) returns (data: Loaded)
      modifies this
      ensures db == InsertSession(old(db), name, hash, freshSid)
      ensures data == Load(db, name, hash)
    {
      data := Loaded(None, map[], None);
      for i := 0 to 4
        invariant db == if i <= 2 then old(db) else InsertSession(old(db), name, hash, freshSid)
        invariant data.radishes == if i == 0 then None else Load(old(db), name, hash).radishes
        invariant data.upgrades == if i <= 1 then map[] else Load(old(db), name, hash).upgrades
        invariant data.sid == if i <= 3 then None else Load(db, name, hash).sid
      {
        if i == 0 {
          if PasswordMatches(db, name, hash) {
            data := data.(radishes := Some(db.users[name].radishes));
          }
        } else if i == 1 {
          if PasswordMatches(db, name, hash) {
            var rows := ReadUpgrades(db.users[name].id);
            data := data.(upgrades := rows);
          }
        } else if i == 2 {
          db := InsertSession(db, name, hash, freshSid);
        } else {
          if PasswordMatches(db, name, hash) && db.users[name].id in db.sessions {
            data := data.(sid := Some(db.sessions[db.users[name].id]));
          }
        }
      }
    }

    /** The rows of a user one by one, in any order. */
    method ReadUpgrades(id: int) returns (found: map<string, int>)
      ensures found == UpgradesOf(db, id)
    {
      found := map[];
      var left := set k | k in db.upgrades && k.0 == id;
      while left != {}
        invariant forall k :: k in left ==> k in db.upgrades && k.0 == id
        invariant forall kind :: kind in found <==> (id, kind) in db.upgrades && (id, kind) !in left
        invariant forall kind :: kind in found ==> found[kind] == db.upgrades[(id, kind)]
        decreases |left|
      {
        var k :| k in left;
        found := found[k.1 := db.upgrades[k]];
        left := left - {k};
      }
    }

    /** The exclusive transaction of a save: the radishes first, then one command for each upgrade in
        any order, and the session last. */
    method SaveTransaction(name: string, sid: string, radishes: int, upgrades: map<string, int>)
      modifies this
      ensures db == Saved(old(db), name, sid, radishes, upgrades)
    {
      db := UpdateRadishes(db, name, sid, radishes);
      ReplaceUpgrades(name, sid, upgrades);
      SavedInSteps(old(db), name, sid, radishes, upgrades);
      db := DeleteSession(db, name, sid);
    }

    method ReplaceUpgrades(name: string, sid: string, upgrades: map<string, int>)
      modifies this
      ensures db == Replaced(old(db), name, sid, upgrades)
    {
      hide Rows, Pairs, ReplaceUpgrade, HasSession, Replaced;
      var left := upgrades.Keys;
      ghost var done: map<string, int> := map[];
      ReplacedNothing(db, name, sid);
      while left != {}
        invariant left <= upgrades.Keys && done == upgrades - left
        invariant db == Replaced(old(db), name, sid, done)
        decreases |left|
      {
        var kind :| kind in left;
        ReplacedNext(old(db), name, sid, done, kind, upgrades[kind]);
        db := ReplaceUpgrade(db, name, sid, kind, upgrades[kind]);
        done := done[kind := upgrades[kind]];
        left := left - {kind};
      }
      assert done == upgrades;
    }
  }

  /** The state inside a save transaction when the upgrades of done have been written. */
  ghost function Replaced(db: Db, name: string, sid: string, done: map<string, int>): Db {
    if HasSession(db, name, sid) then db.(upgrades := db.upgrades + Rows(db.users[name].id, done))
    else db.(orphans := db.orphans + multiset(Pairs(done)))
  }

  lemma {:induction false} ReplacedNothing(db: Db, name: string, sid: string)
    ensures Replaced(db, name, sid, map[]) == db
  {
    assert Pairs(map[]) == {};
    assert HasSession(db, name, sid) ==> Rows(db.users[name].id, map[]) == map[];
  }

  lemma {:induction false} SavedInSteps(db: Db, name: string, sid: string, radishes: int, upgrades: map<string, int>)
    ensures DeleteSession(Replaced(UpdateRadishes(db, name, sid, radishes), name, sid, upgrades), name, sid) ==
      Saved(db, name, sid, radishes, upgrades)
  {
    hide Rows, Pairs;
  }

  lemma {:induction false} ReplacedNext(db: Db, name: string, sid: string, done: map<string, int>, kind: string,
                                        num: int)
    requires kind !in done
    ensures ReplaceUpgrade(Replaced(db, name, sid, done), name, sid, kind, num) ==
      Replaced(db, name, sid, done[kind := num])
  {
    hide Rows, Pairs;
    if HasSession(db, name, sid) {
      var id := db.users[name].id;
      RowsInsert(id, done, kind, num);
      assert (db.upgrades + Rows(id, done))[(id, kind) := num] == db.upgrades + Rows(id, done)[(id, kind) := num];
    } else {
      PairsInsert(done, kind, num);
      assert db.orphans + multiset(Pairs(done)) + multiset{(kind, num)} ==
        db.orphans + (multiset(Pairs(done)) + multiset{(kind, num)});
    }
  }

  lemma {:induction false} PairsInsert(m: map<string, int>, kind: string, num: int)
    requires kind !in m
    ensures multiset(Pairs(m[kind := num])) == multiset(Pairs(m)) + multiset{(kind, num)}
  {
    var n := m[kind := num];
    assert Pairs(n) == Pairs(m) + {(kind, num)} by {
      assert kind in n;
      forall k | k in m ensures (k, m[k]) in Pairs(n) { assert k in n; }
    }
    assert (kind, num) !in Pairs(m);
  }

  lemma {:induction false} RowsInsert(id: int, m: map<string, int>, kind: string, num: int)
    ensures Rows(id, m[kind := num]) == Rows(id, m)[(id, kind) := num]
  {
  }

  // ---------------------------------------------------------------------------------------
  // What the statements do to a user's rows
  // ---------------------------------------------------------------------------------------

  predicate DistinctIds(db: Db) {
    forall a, b :: a in db.users && b in db.users && a != b ==> db.users[a].id != db.users[b].id
  }

  lemma {:induction false} OwnRows(upgrades: map<(int, string), int>, id: int, added: map<string, int>)
    ensures ByOwner(upgrades + Rows(id, added), id) == ByOwner(upgrades, id) + added
  {
    var all := upgrades + Rows(id, added);
    forall kind ensures (id, kind) in all <==> (id, kind) in upgrades || kind in added {}
    assert forall kind :: kind in added ==> all[(id, kind)] == added[kind];
  }

  lemma {:induction false} OtherRows(upgrades: map<(int, string), int>, id: int, added: map<string, int>, other: int)
    requires other != id
    ensures ByOwner(upgrades + Rows(id, added), other) == ByOwner(upgrades, other)
  {
    var all := upgrades + Rows(id, added);
    forall kind ensures (other, kind) in all <==> (other, kind) in upgrades {}
  }
}
