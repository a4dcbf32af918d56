/** Saving and loading the clicker game: what a login brings back, alone and through the server. */
module ClickerSaves {
  import opened ClickerWorld
  import opened Options
  import opened Prices
  import GameDatabase
  import GameProtocol
  import GameSafety

  // ---------------------------------------------------------------------------------------
  // Saving and loading
  // ---------------------------------------------------------------------------------------

  const KEYS: set<string> :=
    {"moneyCount", "farmerCount", "farmCount", "taffyCount", "lobsterCount", "almondCount", "hasCharlie", "hasPowell"}

  /** Of what the server sends the client reads only the upgrades that a logout saves. */
  function Received(radishes: int, sent: map<string, int>): Loaded
    requires radishes >= 0
    requires forall k :: k in KEYS && k in sent ==> sent[k] >= 0
  {
    Loaded(radishes, map k | k in KEYS && k in sent :: sent[k])
  }

  /** The game as a save keeps it: money is cut to whole dollars. */
  function Kept(w: World): (int, int, Counts, bool, bool) {
    (w.radishes, w.money / 100 * 100, w.counts, w.charlie, w.powell)
  }

  /** A logout sends every number under its own name. */
  lemma {:induction false} SavedValues(w: World)
    ensures var u := SavedUpgrades(w);
            && "moneyCount" in u && u["moneyCount"] == w.money / 100
            && "farmerCount" in u && u["farmerCount"] == w.counts.farmer
            && "farmCount" in u && u["farmCount"] == w.counts.farm
            && "taffyCount" in u && u["taffyCount"] == w.counts.taffy
            && "lobsterCount" in u && u["lobsterCount"] == w.counts.lobster
            && "almondCount" in u && u["almondCount"] == w.counts.almond
            && "hasCharlie" in u && u["hasCharlie"] == (if w.charlie then 1 else 0)
            && "hasPowell" in u && u["hasPowell"] == (if w.powell then 1 else 0)
  {
  }

  lemma {:induction false} SavedKeys(w: World)
    requires w.money >= 0
    ensures SavedUpgrades(w).Keys == KEYS
    ensures forall k :: k in SavedUpgrades(w) ==> SavedUpgrades(w)[k] >= 0
  {
  }

  /** A load takes a number that is there and not zero under its own name, and leaves everything else. */
  lemma {:induction false} LoadTakes(w: World, data: Loaded)
    ensures var (u, l) := (data.upgrades, LoadGlobals(w, data));
            var (c, d) := (w.counts, l.counts);
            && l.radishes == (if data.radishes > 0 then data.radishes else w.radishes)
            && l.money == (if "moneyCount" in u && u["moneyCount"] > 0 then 100 * u["moneyCount"] else w.money)
            && d.farmer == (if "farmerCount" in u && u["farmerCount"] > 0 then u["farmerCount"] else c.farmer)
            && d.farm == (if "farmCount" in u && u["farmCount"] > 0 then u["farmCount"] else c.farm)
            && d.taffy == (if "taffyCount" in u && u["taffyCount"] > 0 then u["taffyCount"] else c.taffy)
            && d.lobster == (if "lobsterCount" in u && u["lobsterCount"] > 0 then u["lobsterCount"] else c.lobster)
            && d.almond == (if "almondCount" in u && u["almondCount"] > 0 then u["almondCount"] else c.almond)
            && l.charlie == (w.charlie || ("hasCharlie" in u && u["hasCharlie"] > 0))
            && l.powell == (w.powell || ("hasPowell" in u && u["hasPowell"] > 0))
  {
  }

  /** Whatever the server had before is overridden by a save, as far as the client reads it. */
  lemma {:induction false} ReceivedIsSaved(w: World, before: map<string, int>)
    requires w.radishes >= 0 && w.money >= 0
    ensures forall k :: k in KEYS ==>
      k in before + SavedUpgrades(w) && (before + SavedUpgrades(w))[k] == SavedUpgrades(w)[k] >= 0
    ensures Received(w.radishes, before + SavedUpgrades(w)) == Loaded(w.radishes, SavedNats(w))
  {
    SavedKeys(w);
    hide SavedUpgrades;
  }

  function SavedNats(w: World): map<string, nat>
    requires w.money >= 0
  {
    SavedKeys(w);
    var u := SavedUpgrades(w);
    map k | k in u :: u[k]
  }

  /** What the load keeps of the client is nothing that the save says otherwise: a value that was
      saved as zero is not taken over, so it must be zero already. */
  predicate NothingLeftOver(w: World, r: World) {
    && (w.radishes == 0 ==> r.radishes == 0)
    && (w.money < 100 ==> r.money == 0)
    && (w.counts.farmer == 0 ==> r.counts.farmer == 0)
    && (w.counts.farm == 0 ==> r.counts.farm == 0)
    && (w.counts.taffy == 0 ==> r.counts.taffy == 0)
    && (w.counts.lobster == 0 ==> r.counts.lobster == 0)
    && (w.counts.almond == 0 ==> r.counts.almond == 0)
    && (r.charlie ==> w.charlie) && (r.powell ==> w.powell)
  }

  function Values(w: World): (int, int, Counts, bool, bool) {
    (w.radishes, w.money, w.counts, w.charlie, w.powell)
  }

  lemma {:induction false} LoadSaved(w: World, r: World)
    requires w.radishes >= 0 && w.money >= 0
    ensures Values(LoadGlobals(r, Loaded(w.radishes, SavedNats(w)))) == Kept(w) <==> NothingLeftOver(w, r)
  {
    SavedValues(w);
    SavedKeys(w);
    hide SavedUpgrades;
  }

  /** A login brings back a saved game exactly when nothing is left over from the game that the client
      has: whatever the server had before, and whatever the client has done since. */
  lemma {:induction false} LoadRestoresExactly(w: World, r: World, before: map<string, int>)
    requires w.radishes >= 0 && w.money >= 0 && AllCards(r.cards)
    ensures forall k :: k in KEYS ==> k in before + SavedUpgrades(w) && (before + SavedUpgrades(w))[k] >= 0
    ensures var back := Next(r, Load(Received(w.radishes, before + SavedUpgrades(w))));
            Values(back) == Kept(w) <==> NothingLeftOver(w, r)
  {
    ReceivedIsSaved(w, before);
    LoadSaved(w, r);
    hide SavedUpgrades, LoadGlobals, Received, SavedNats;
  }

  /** What a login gives of an account that was saved from a new game. */
  function NewAccount(): Loaded {
    Received(0, SavedUpgrades(InitialWorld()))
  }

  /** A guest clicks once and logs in to such an account: the guest's radish is still there. */
  lemma {:induction false} GuestRadishSurvivesLogin() returns (es: seq<Event>)
    ensures IsRun(InitialWorld(), es)
    ensures var guest := After(InitialWorld(), es);
            && AllCards(guest.cards) && Next(guest, Load(NewAccount())).radishes == 1
            && Values(Next(guest, Load(NewAccount()))) != Kept(InitialWorld())
  {
    InitiallyGood();
    assert AllCards(InitialWorld().cards);
    es := Clicks(InitialWorld(), 1);
    hide Cost;
  }

  lemma {:induction false} SoundNotNegative(w: World)
    requires Sound(w)
    ensures w.radishes >= 0 && w.money >= 0 && AllCards(w.cards)
  {
  }

  lemma {:induction false} LogoutLeavesNothing(w: World)
    requires AllCards(w.cards)
    ensures forall saved :: NothingLeftOver(saved, Next(w, Logout))
  {
    hide Cost;
  }

  /** A logout and then a login that is given the saved radishes, and the saved upgrades on top of
      whatever the server had before, restores radishes, counts and flags, and the money in whole
      dollars; and all counted cards agree with what was restored, also if they did not before. */
  lemma {:induction false} LogoutThenLoginRestores(w: World, before: map<string, int>)
    requires Sound(w)
    ensures w.radishes >= 0 && forall k :: k in KEYS ==>
      k in before + SavedUpgrades(w) && (before + SavedUpgrades(w))[k] >= 0
    ensures var out := Next(w, Logout);
            var back := Next(out, Load(Received(w.radishes, before + SavedUpgrades(w))));
            Good(out) && Good(back) && Values(back) == Kept(w)
  {
    SoundNotNegative(w);
    LogoutLeavesNothing(w);
    LoadRestoresExactly(w, Next(w, Logout), before);
    LogoutIsGood(w);
    LoadAfterLogoutIsGood(w, Received(w.radishes, before + SavedUpgrades(w)));
    hide *;
  }

  lemma {:induction false} LogoutIsGood(w: World)
    requires Sound(w)
    ensures Good(Next(w, Logout)) && AllCards(Next(w, Logout).cards)
  {
    NextSound(w, Logout);
    hide Next;
  }

  lemma {:induction false} LoadAfterLogoutIsGood(w: World, data: Loaded)
    requires Sound(w)
    ensures AllCards(Next(w, Logout).cards) && Good(Next(Next(w, Logout), Load(data)))
  {
    LogoutIsGood(w);
    assert !Next(w, Logout).charlie;
    NextSound(Next(w, Logout), Load(data));
    hide Next;
  }

  // ---------------------------------------------------------------------------------------
  // With the server
  // ---------------------------------------------------------------------------------------

  /** A number as the server's 32-bit int holds it. */
  function Int32(x: int): int {
    (x + 0x8000_0000) % 0x1_0000_0000 - 0x8000_0000
  }

  function Sent(upgrades: map<string, int>): map<string, int> {
    map k | k in upgrades :: Int32(upgrades[k])
  }

  predicate Fits(w: World) {
    w.radishes < 0x8000_0000 && forall k :: k in SavedUpgrades(w) ==> SavedUpgrades(w)[k] < 0x8000_0000
  }

  /** The server is sent what the client has exactly when every number is below 2^31. */
  lemma {:induction false} SentUnchanged(w: World)
    requires w.radishes >= 0 && w.money >= 0
    ensures Fits(w) <==> Int32(w.radishes) == w.radishes && Sent(SavedUpgrades(w)) == SavedUpgrades(w)
  {
    SavedKeys(w);
    hide SavedUpgrades, Int32;
    var u := SavedUpgrades(w);
    forall x: nat ensures Int32(x) == x <==> x < 0x8000_0000 { Int32Fits(x); }
    assert Sent(u) == u <==> forall k :: k in u ==> Sent(u)[k] == u[k];
    assert forall k :: k in u ==> Sent(u)[k] == Int32(u[k]);
  }

  lemma {:induction false} Int32Fits(x: nat)
    ensures Int32(x) == x <==> x < 0x8000_0000
    ensures Int32(0x7fff_ffff) == 0x7fff_ffff && Int32(0x8000_0000) == -0x8000_0000
  {
  }

  /** What a login gives the client after a logout brings back the game. */
  ghost predicate Restores(w: World, data: GameDatabase.Loaded)
    requires AllCards(w.cards)
  {
    && data.radishes.Some? && data.radishes.value >= 0
    && (forall k :: k in KEYS && k in data.upgrades ==> data.upgrades[k] >= 0)
    && var out := Next(w, Logout);
       AllCards(out.cards) &&
       var back := Next(out, Load(Received(data.radishes.value, data.upgrades)));
       Good(back) && Values(back) == Kept(w)
  }

  lemma {:induction false} RestoresSaved(w: World, before: map<string, int>)
    requires Sound(w)
    ensures forall data: GameDatabase.Loaded ::
              data.radishes == Some(w.radishes) && data.upgrades == before + SavedUpgrades(w) ==> Restores(w, data)
  {
    LogoutThenLoginRestores(w, before);
    hide Good, Sound, SavedUpgrades, Next, Received;
  }

  /** The whole way: the game's values go out in an effective save, any run of other requests
      follows in which no other save of the user takes effect, and a login with the right password
      gives the client what restores its game. */
  lemma {:induction false} GameSurvivesServer(h: GameProtocol.Hash, s: GameProtocol.State, save: GameProtocol.Event,
                                              es: seq<GameProtocol.Event>, login: GameProtocol.Event, w: World)
    requires Sound(w) && Fits(w)
    requires GameProtocol.Inv(h, s) && GameProtocol.Enabled(s, save) && GameProtocol.IsEffectiveSave(s, save)
    requires s.procs[save.pid].req.radishes == Int32(w.radishes)
    requires s.procs[save.pid].req.upgrades == Sent(SavedUpgrades(w))
    requires GameSafety.LoginAfterSave(h, s, save, es, login)
    ensures var end := GameProtocol.Next(h, GameProtocol.RunAll(h, GameProtocol.Next(h, s, save), es), login);
            && end.procs[login.pid].phase.Done? && end.procs[login.pid].phase.answer.LoggedIn?
            && Restores(w, end.procs[login.pid].phase.answer.data)
  {
    hide Good, Sound, Fits, Sent, SavedUpgrades, Restores, GameProtocol.Inv, GameProtocol.Next, GameProtocol.RunAll,
      GameProtocol.Enabled, GameSafety.LoginAfterSave, GameSafety.ProgressOf;
    SoundNotNegative(w);
    SentUnchanged(w);
    GameSafety.SaveThenLogin(h, s, save, es, login);
    RestoresSaved(w, GameSafety.ProgressOf(s.db, s.procs[save.pid].req.name).upgrades);
  }
}
