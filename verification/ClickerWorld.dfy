/** The state of the clicker game in the browser and the events that change it. */
module ClickerWorld {
  import opened Prices

  datatype CardId = Farmer | Farm | Taffy | Charlie | Almond | Lobster | Powell

  /** Prices are in dollars. */
  datatype Card = Card(initialCost: nat, cost: nat, count: nat)

  /** The upgrades that can be bought again and again. */
  datatype Counts = Counts(farmer: nat, farm: nat, taffy: nat, lobster: nat, almond: nat)

  /** Money, the radish price and its upper end are in cents. A unique card is shown as bought when
      its button has been renamed; that is not always so when its flag is set. */
  datatype World = World(
    radishes: int,
    money: int,
    counts: Counts,
    charlie: bool,
    powell: bool,
    charlieShown: bool,
    powellShown: bool,
    cards: map<CardId, Card>,
    timer: nat,
    price: nat,
    priceMax: nat)

  const PRICE_MIN := 75
  const INITIAL_PRICE_MAX := 125
  const LOBSTER_GAIN := 20
  const FARMER_THRESHOLD := 100
  const FARM_GAIN := 10

  function InitialCost(id: CardId): nat {
    match id
    case Farmer => 100
    case Farm => 1000
    case Taffy => 2000
    case Charlie => 4000
    case Almond => 20000
    case Lobster => 50000
    case Powell => 100000
  }

  predicate IsCounted(id: CardId) {
    id != Charlie && id != Powell
  }

  function CountOf(counts: Counts, id: CardId): nat
    requires IsCounted(id)
  {
    match id
    case Farmer => counts.farmer
    case Farm => counts.farm
    case Taffy => counts.taffy
    case Lobster => counts.lobster
    case Almond => counts.almond
  }

  function Incremented(counts: Counts, id: CardId): Counts
    requires IsCounted(id)
  {
    match id
    case Farmer => counts.(farmer := counts.farmer + 1)
    case Farm => counts.(farm := counts.farm + 1)
    case Taffy => counts.(taffy := counts.taffy + 1)
    case Lobster => counts.(lobster := counts.lobster + 1)
    case Almond => counts.(almond := counts.almond + 1)
  }

  function Flag(b: bool): nat {
    if b then 1 else 0
  }

  function PowellModifier(w: World): nat {
    1 + Flag(w.powell) * (w.counts.farmer / FARMER_THRESHOLD)
  }

  function RadishPerSecond(w: World): nat {
    var farmerRps := w.counts.farmer * (w.counts.taffy + 1);
    var farmRps := w.counts.farm * FARM_GAIN * (1 + Flag(w.charlie) * w.counts.almond);
    PowellModifier(w) * (farmerRps + farmRps)
  }

  // ---------------------------------------------------------------------------------------
  // Events
  // ---------------------------------------------------------------------------------------

  /** What the server sends back at a login: absent upgrades are not in the map. */
  datatype Loaded = Loaded(radishes: nat, upgrades: map<string, nat>)

  /** A sale of All sells every radish; a tick may draw a new price between the two ends. */
  datatype Amount = One | Ten | All

  datatype Event =
    | Click
    | Tick(draw: nat)
    | Sell(amount: Amount)
    | Buy(id: CardId)
    | Load(data: Loaded)
    | Logout

  predicate Enabled(w: World, e: Event) {
    e.Tick? ==> PRICE_MIN <= e.draw <= w.priceMax
  }

  function AmountOf(w: World, amount: Amount): int {
    match amount
    case One => 1
    case Ten => 10
    case All => w.radishes
  }

  /** One more unit of a card against its price. */
  function Paid(w: World, id: CardId): (next: World)
    requires id in w.cards
    ensures next.cards.Keys == w.cards.Keys
  {
    var card := w.cards[id];
    w.(money := w.money - card.cost * 100, cards := w.cards[id := card.(count := card.count + 1)])
  }

  /** A counted card gets its next price and its global one more. */
  function Counted(w: World, id: CardId): (next: World)
    requires id in w.cards && IsCounted(id)
    ensures next.cards.Keys == w.cards.Keys
  {
    var card := w.cards[id];
    w.(cards := w.cards[id := card.(cost := Cost(card.initialCost, card.count))],
       counts := Incremented(w.counts, id),
       priceMax := if id == Lobster then w.priceMax + LOBSTER_GAIN else w.priceMax)
  }

  /** A unique card keeps its price; its flag is set and it is shown as bought. */
  function Owned(w: World, id: CardId): (next: World)
    ensures next.cards == w.cards
  {
    w.(charlie := w.charlie || id == Charlie, powell := w.powell || id == Powell,
       charlieShown := w.charlieShown || id == Charlie, powellShown := w.powellShown || id == Powell)
  }

  /** A card is bought if there is money enough. */
  function Bought(w: World, id: CardId): (next: World)
    requires id in w.cards
    ensures next.cards.Keys == w.cards.Keys
  {
    if w.cards[id].cost * 100 > w.money then w
    else if IsCounted(id) then Counted(Paid(w, id), id)
    else Owned(Paid(w, id), id)
  }

  /** A counted card as its global has it. */
  function Fresh(w: World, id: CardId): Card
    requires id in w.cards && IsCounted(id)
  {
    Card(w.cards[id].initialCost, Cost(w.cards[id].initialCost, CountOf(w.counts, id)), CountOf(w.counts, id))
  }

  /** The order in which the cards were made, which is the order in which they are refreshed. */
  const ORDER: seq<CardId> := [Farmer, Farm, Taffy, Charlie, Almond, Lobster, Powell]

  function Position(id: CardId): (i: nat)
    ensures i < |ORDER| && ORDER[i] == id
  {
    match id
    case Farmer => 0
    case Farm => 1
    case Taffy => 2
    case Charlie => 3
    case Almond => 4
    case Lobster => 5
    case Powell => 6
  }

  /** Showing a unique card as bought a second time throws: its button has no longer the class under
      which it is looked up. */
  predicate StopsAtCharlie(w: World) {
    w.charlie && w.charlieShown
  }

  /** The cards after a refresh. When it stops at Charlie, the cards that come later are not reached. */
  function Refreshed(w: World): World {
    var stops := StopsAtCharlie(w);
    w.(cards := map id | id in w.cards ::
         if IsCounted(id) && (Position(id) < Position(Charlie) || !stops) then Fresh(w, id) else w.cards[id],
       charlieShown := w.charlie,
       powellShown := if stops then w.powellShown else w.powell)
  }

  /** The refresh of one card, if it does not throw. */
  function RefreshedCard(w: World, id: CardId): World
    requires id in w.cards
  {
    if id == Charlie then w.(charlieShown := w.charlie)
    else if id == Powell then w.(powellShown := w.powell)
    else w.(cards := w.cards[id := Fresh(w, id)])
  }

  predicate Throws(w: World, id: CardId) {
    (id == Charlie && w.charlie && w.charlieShown) || (id == Powell && w.powell && w.powellShown)
  }

  function WalkedCards(w: World, i: nat): map<CardId, Card> {
    map id | id in w.cards :: if IsCounted(id) && Position(id) < i then Fresh(w, id) else w.cards[id]
  }

  /** The world after the refresh of the first i cards. */
  function Walked(w: World, i: nat): World {
    w.(cards := WalkedCards(w, i),
       charlieShown := if i <= Position(Charlie) then w.charlieShown else w.charlie,
       powellShown := if i <= Position(Powell) then w.powellShown else w.powell)
  }

  lemma {:induction false} WalkedNothing(w: World)
    ensures Walked(w, 0) == w
  {
  }

  lemma {:induction false} WalkedCardsNext(w: World, i: nat)
    requires AllCards(w.cards) && i < |ORDER|
    ensures var (id, cards) := (ORDER[i], WalkedCards(w, i));
            && cards.Keys == w.cards.Keys && cards[id] == w.cards[id]
            && WalkedCards(w, i + 1) == if IsCounted(id) then cards[id := Fresh(w, id)] else cards
  {
    hide Fresh;
    var id := ORDER[i];
    assert Position(id) == i && forall other: CardId :: Position(other) == i ==> other == id;
    hide Position;
  }

  lemma {:induction false} WalkedNext(w: World, i: nat)
    requires AllCards(w.cards) && i < |ORDER|
    ensures AllCards(Walked(w, i).cards)
    ensures Walked(w, i + 1) == RefreshedCard(Walked(w, i), ORDER[i])
    ensures Throws(Walked(w, i), ORDER[i]) <==> Throws(w, ORDER[i])
  {
    WalkedCardsNext(w, i);
    PositionsOfUnique();
    assert Position(ORDER[i]) == i;
    hide Cost, CountOf, WalkedCards, Position;
  }

  lemma {:induction false} PositionsOfUnique()
    ensures Position(Charlie) == 3 && Position(Powell) == 6
  {
  }

  /** A walk ended by an exception, and one that is not, leave the cards as Refreshed has them. */
  lemma {:induction false} WalkedIsRefreshed(w: World, i: nat)
    requires AllCards(w.cards) && i <= |ORDER|
    requires i > Position(Charlie) ==> !Throws(w, Charlie)
    requires if i < |ORDER| then Throws(w, ORDER[i]) else !Throws(w, Powell)
    ensures Walked(w, i) == Refreshed(w)
  {
    hide Cost, CountOf;
    assert Walked(w, i).cards == Refreshed(w).cards;
  }

  /** A value is loaded only if it is there and not zero. */
  predicate Given(upgrades: map<string, nat>, key: string) {
    key in upgrades && upgrades[key] != 0
  }

  function Pick(upgrades: map<string, nat>, key: string, current: nat): nat {
    if Given(upgrades, key) then upgrades[key] else current
  }

  function PickCounts(u: map<string, nat>, c: Counts): Counts {
    Counts(Pick(u, "farmerCount", c.farmer), Pick(u, "farmCount", c.farm), Pick(u, "taffyCount", c.taffy),
           Pick(u, "lobsterCount", c.lobster), Pick(u, "almondCount", c.almond))
  }

  function LoadGlobals(w: World, data: Loaded): World {
    var u := data.upgrades;
    w.(radishes := if data.radishes != 0 then data.radishes else w.radishes,
       money := if Given(u, "moneyCount") then u["moneyCount"] * 100 else w.money,
       counts := PickCounts(u, w.counts),
       charlie := w.charlie || Given(u, "hasCharlie"),
       powell := w.powell || Given(u, "hasPowell"))
  }

  function ResetGlobals(w: World): World {
    w.(radishes := 0, money := 0, counts := Counts(0, 0, 0, 0, 0), charlie := false, powell := false,
       priceMax := INITIAL_PRICE_MAX)
  }

  /** What a logout sends: money is cut to whole dollars by the integer column, flags become 0 or 1. */
  function SavedUpgrades(w: World): map<string, int> {
    map[
      "moneyCount" := w.money / 100,
      "farmerCount" := w.counts.farmer,
      "farmCount" := w.counts.farm,
      "taffyCount" := w.counts.taffy,
      "lobsterCount" := w.counts.lobster,
      "almondCount" := w.counts.almond,
      "hasCharlie" := Flag(w.charlie),
      "hasPowell" := Flag(w.powell)]
  }

  function Next(w: World, e: Event): World
    requires Enabled(w, e) && AllCards(w.cards)
  {
    match e
    case Click => w.(radishes := w.radishes + PowellModifier(w))
    case Tick(draw) =>
      var grown := w.(radishes := w.radishes + RadishPerSecond(w));
      if w.timer + 1 >= 10 then grown.(timer := 0, price := draw) else grown.(timer := w.timer + 1)
    case Sell(amount) =>
      var n := AmountOf(w, amount);
      if w.radishes >= n then w.(radishes := w.radishes - n, money := w.money + n * w.price) else w
    case Buy(id) => Bought(w, id)
    case Load(data) => Refreshed(LoadGlobals(w, data))
    case Logout => Refreshed(ResetGlobals(w))
  }

  predicate AllCards(cards: map<CardId, Card>) {
    forall id: CardId :: id in cards
  }

  function InitialCards(): map<CardId, Card> {
    map id | id in {Farmer, Farm, Taffy, Charlie, Almond, Lobster, Powell} :: Card(InitialCost(id), InitialCost(id), 0)
  }

  function InitialWorld(): World {
    World(0, 0, Counts(0, 0, 0, 0, 0), false, false, false, false, InitialCards(), 0, 100, INITIAL_PRICE_MAX)
  }

  // ---------------------------------------------------------------------------------------
  // What holds in every state between events
  // ---------------------------------------------------------------------------------------

  /** A card has its initial price, and the price of its next unit by its own count. */
  predicate IsPriced(w: World, id: CardId)
    requires id in w.cards
  {
    && w.cards[id].initialCost == InitialCost(id)
    && w.cards[id].cost == if IsCounted(id) then Cost(InitialCost(id), w.cards[id].count) else InitialCost(id)
  }

  /** A counted card has the count of its global. */
  predicate InStep(w: World, id: CardId)
    requires id in w.cards && IsCounted(id)
  {
    w.cards[id].count == CountOf(w.counts, id)
  }

  ghost predicate Sound(w: World) {
    && w.radishes >= 0 && w.money >= 0 && w.priceMax >= PRICE_MIN
    && AllCards(w.cards)
    && (forall id: CardId :: IsPriced(w, id))
    && InStep(w, Farmer) && InStep(w, Farm) && InStep(w, Taffy)
    && w.charlieShown == w.charlie && (w.powellShown ==> w.powell)
  }

  /** All counted cards are in step with their globals: those after Charlie as well. */
  ghost predicate Good(w: World) {
    Sound(w) && InStep(w, Almond) && InStep(w, Lobster)
  }

  lemma {:induction false} CostAtZero(initial: nat)
    ensures Cost(initial, 0) == initial
  {
    assert Pow(23, 0) == 1 && Pow(20, 0) == 1;
  }

  lemma {:induction false} InitiallyGood()
    ensures Good(InitialWorld())
  {
    forall id: CardId ensures id in InitialCards() && Cost(InitialCost(id), 0) == InitialCost(id) {
      CostAtZero(InitialCost(id));
    }
    hide Cost;
  }

  lemma {:induction false} IncrementedCount(counts: Counts, id: CardId, other: CardId)
    requires IsCounted(id) && IsCounted(other)
    ensures CountOf(Incremented(counts, id), other) == CountOf(counts, other) + if other == id then 1 else 0
  {
  }

  lemma {:induction false} CountedCount(w: World, id: CardId, other: CardId)
    requires id in w.cards && other in w.cards && IsCounted(id) && IsCounted(other)
    ensures var (next, units) := (Counted(Paid(w, id), id), if id == other then 1 else 0);
            && next.cards[other].count == w.cards[other].count + units
            && CountOf(next.counts, other) == CountOf(w.counts, other) + units
  {
    IncrementedCount(w.counts, id, other);
    hide Cost, CountOf, Incremented;
  }

  /** A purchase moves a card and its global together... */
  lemma {:induction false} BoughtCount(w: World, id: CardId, other: CardId)
    requires id in w.cards && other in w.cards && IsCounted(other)
    ensures var (next, units) := (Bought(w, id), if id == other && w.cards[id].cost * 100 <= w.money then 1 else 0);
            && next.cards[other].count == w.cards[other].count + units
            && CountOf(next.counts, other) == CountOf(w.counts, other) + units
  {
    if IsCounted(id) { CountedCount(w, id, other); }
    hide Cost, CountOf, Counted;
  }

  /** ...so it neither loses nor repairs their step. */
  lemma {:induction false} BoughtInStep(w: World, id: CardId, other: CardId)
    requires id in w.cards && other in w.cards && IsCounted(other)
    ensures InStep(Bought(w, id), other) <==> InStep(w, other)
  {
    BoughtCount(w, id, other);
    hide CountOf, Bought;
  }

  lemma {:induction false} CountedPriced(w: World, id: CardId, other: CardId)
    requires id in w.cards && other in w.cards && IsCounted(id)
    requires w.cards[id].initialCost == InitialCost(id) && (other != id ==> IsPriced(w, other))
    ensures IsPriced(Counted(w, id), other)
  {
    hide Cost, InitialCost, Incremented;
  }

  lemma {:induction false} BoughtPriced(w: World, id: CardId, other: CardId)
    requires id in w.cards && other in w.cards && IsPriced(w, id) && IsPriced(w, other)
    ensures IsPriced(Bought(w, id), other)
  {
    hide Cost, InitialCost, Counted;
    var paid := Paid(w, id);
    assert other != id ==> IsPriced(paid, other);
    if IsCounted(id) { CountedPriced(paid, id, other); }
  }

  lemma {:induction false} BoughtSound(w: World, id: CardId)
    requires Sound(w)
    ensures Sound(Bought(w, id)) && (Good(Bought(w, id)) <==> Good(w))
  {
    BoughtInStep(w, id, Farmer);
    BoughtInStep(w, id, Farm);
    BoughtInStep(w, id, Taffy);
    BoughtInStep(w, id, Almond);
    BoughtInStep(w, id, Lobster);
    forall other: CardId ensures IsPriced(Bought(w, id), other) {
      BoughtPriced(w, id, other);
    }
    hide Cost, Incremented, InitialCost, InStep, IsPriced;
  }

  /** A refresh of cards that were priced before. */
  lemma {:induction false} RefreshedSound(w: World)
    requires w.radishes >= 0 && w.money >= 0 && w.priceMax >= PRICE_MIN && AllCards(w.cards)
    requires forall id: CardId :: IsPriced(w, id)
    requires w.powellShown ==> w.powell || !StopsAtCharlie(w)
    ensures Sound(Refreshed(w))
    ensures Good(Refreshed(w)) <==> !StopsAtCharlie(w) || (InStep(w, Almond) && InStep(w, Lobster))
  {
    hide Cost, CountOf, InitialCost;
    forall id: CardId ensures IsPriced(Refreshed(w), id) {
      assert IsPriced(w, id);
    }
  }

  lemma {:induction false} SaleProceeds(w: World, amount: Amount)
    requires w.radishes >= 0
    ensures AmountOf(w, amount) >= 0 && AmountOf(w, amount) * w.price >= 0
  {
  }

  /** An event that touches neither cards nor counts. */
  lemma {:induction false} SameCards(w: World, next: World)
    requires Sound(w) && next.radishes >= 0 && next.money >= 0
    requires next == w.(radishes := next.radishes, money := next.money, timer := next.timer, price := next.price)
    ensures Sound(next) && (Good(next) <==> Good(w))
  {
    hide Cost, CountOf;
    forall id: CardId ensures IsPriced(next, id) {
      assert IsPriced(w, id);
    }
  }

  lemma {:induction false} LoadSound(w: World, data: Loaded)
    requires Sound(w)
    ensures Sound(Next(w, Load(data)))
    ensures Good(Next(w, Load(data))) <==>
      !w.charlie || (w.cards[Almond].count == Pick(data.upgrades, "almondCount", w.counts.almond) &&
                     w.cards[Lobster].count == Pick(data.upgrades, "lobsterCount", w.counts.lobster))
  {
    hide Cost, Pick;
    var l := LoadGlobals(w, data);
    forall id: CardId ensures IsPriced(l, id) {
      assert IsPriced(w, id);
    }
    RefreshedSound(l);
  }

  lemma {:induction false} LogoutSound(w: World)
    requires Sound(w)
    ensures Good(Next(w, Logout))
  {
    hide Cost;
    var r := ResetGlobals(w);
    forall id: CardId ensures IsPriced(r, id) {
      assert IsPriced(w, id);
    }
    RefreshedSound(r);
  }

  /** Whether the counted cards are in step after an event. A logout puts them all in step. A load
      does so when Charlie was not bought; otherwise only if the two counts it does not reach have not
      changed. Every other event leaves them as they were. */
  predicate StepsKept(w: World, e: Event)
    requires AllCards(w.cards)
  {
    match e
    case Logout => true
    case Load(data) =>
      !w.charlie || (w.cards[Almond].count == Pick(data.upgrades, "almondCount", w.counts.almond) &&
                     w.cards[Lobster].count == Pick(data.upgrades, "lobsterCount", w.counts.lobster))
    case _ => InStep(w, Almond) && InStep(w, Lobster)
  }

  /** No event makes money or radishes negative or gives a card a price that is not that of its next
      unit; and after every event all counted cards agree with their globals exactly when StepsKept
      says so. */
  lemma {:induction false} NextSound(w: World, e: Event)
    requires Sound(w) && Enabled(w, e)
    ensures Sound(Next(w, e))
    ensures Good(Next(w, e)) <==> StepsKept(w, e)
  {
    hide Cost, IsPriced, RadishPerSecond, PowellModifier, Bought, Refreshed, LoadGlobals, ResetGlobals, CountOf;
    match e
    case Buy(id) => BoughtSound(w, id);
    case Load(data) => LoadSound(w, data);
    case Logout => LogoutSound(w);
    case Sell(amount) => SaleProceeds(w, amount); SameCards(w, Next(w, e));
    case Click => SameCards(w, Next(w, e));
    case Tick(_) => SameCards(w, Next(w, e));
  }

  /** In particular a load into a world whose cards agree leaves them so unless Charlie was bought and
      the almonds or lobsters change. */
  lemma {:induction false} LoadKeepsGood(w: World, data: Loaded)
    requires Good(w)
    ensures Good(Next(w, Load(data))) <==>
      !w.charlie || (LoadGlobals(w, data).counts.almond == w.counts.almond &&
                     LoadGlobals(w, data).counts.lobster == w.counts.lobster)
  {
    hide Pick;
    NextSound(w, Load(data));
    hide Next;
  }

  // ---------------------------------------------------------------------------------------
  // Runs
  // ---------------------------------------------------------------------------------------

  ghost predicate IsRun(w: World, es: seq<Event>)
    decreases |es|
  {
    es == [] || (AllCards(w.cards) && Enabled(w, es[0]) && IsRun(Next(w, es[0]), es[1..]))
  }

  ghost function After(w: World, es: seq<Event>): World
    requires IsRun(w, es)
    decreases |es|
  {
    if es == [] then w else After(Next(w, es[0]), es[1..])
  }

  /** Every run leads from sound worlds to sound worlds. */
  lemma {:induction false} RunSound(w: World, es: seq<Event>)
    requires Sound(w) && IsRun(w, es)
    ensures Sound(After(w, es))
    decreases |es|
  {
    if es != [] {
      NextSound(w, es[0]);
      hide Sound, Next;
      RunSound(Next(w, es[0]), es[1..]);
    }
  }

  lemma {:induction false} RunAppend(w: World, a: seq<Event>, b: seq<Event>)
    requires IsRun(w, a) && IsRun(After(w, a), b)
    ensures IsRun(w, a + b) && After(w, a + b) == After(After(w, a), b)
    decreases |a|
  {
    if a == [] {
      assert a + b == b;
    } else {
      assert (a + b)[0] == a[0] && (a + b)[1..] == a[1..] + b;
      RunAppend(Next(w, a[0]), a[1..], b);
    }
  }

  lemma {:induction false} Clicks(w: World, n: nat) returns (es: seq<Event>)
    requires AllCards(w.cards) && !w.powell
    ensures IsRun(w, es) && After(w, es) == w.(radishes := w.radishes + n)
    decreases n
  {
    if n == 0 {
      es := [];
    } else {
      var next := Next(w, Click);
      var rest := Clicks(next, n - 1);
      es := [Click] + rest;
      assert es[1..] == rest;
    }
  }

  lemma {:induction false} RunOne(w: World, e: Event)
    requires AllCards(w.cards) && Enabled(w, e)
    ensures IsRun(w, [e]) && After(w, [e]) == Next(w, e)
  {
    assert [e][1..] == [];
  }

  /** The run goes on with one more event. */
  lemma {:induction false} RunOn(w: World, es: seq<Event>, e: Event) returns (all: seq<Event>)
    requires IsRun(w, es) && AllCards(After(w, es).cards) && Enabled(After(w, es), e)
    ensures IsRun(w, all) && After(w, all) == Next(After(w, es), e)
  {
    hide Next;
    all := es + [e];
    RunOne(After(w, es), e);
    RunAppend(w, es, [e]);
  }

  /** A guest can play without an account until Charlie is bought. */
  lemma {:induction false} GuestBuysCharlie() returns (es: seq<Event>)
    ensures IsRun(InitialWorld(), es)
    ensures var w := After(InitialWorld(), es);
            && w.charlie && w.counts == Counts(0, 0, 0, 0, 0)
            && Almond in w.cards && w.cards[Almond] == InitialCards()[Almond]
  {
    var start := InitialWorld();
    InitiallyGood();
    assert AllCards(start.cards);
    hide InitialWorld, InitialCards, Good, Sound, Cost;
    es := Clicks(start, 4000);
    es := RunOn(start, es, Sell(All));
    var rich := start.(money := 400000);
    assert After(start, es) == rich by { InitialMoney(); }
    es := RunOn(start, es, Buy(Charlie));
    InitialMoney();
  }

  lemma {:induction false} InitialMoney()
    ensures var w := InitialWorld();
            && w.radishes == 0 && w.money == 0 && w.price == 100 && !w.powell && w.counts == Counts(0, 0, 0, 0, 0)
            && w.cards == InitialCards() && Charlie in w.cards && w.cards[Charlie].cost == 4000
  {
  }

  /** A guest clicks, sells, buys Charlie and then logs in to an account with three almonds: the game
      has the almonds, and their card still offers the first one. */
  lemma {:induction false} GuestLoginLeavesStaleCard() returns (es: seq<Event>)
    ensures IsRun(InitialWorld(), es)
    ensures var w := After(InitialWorld(), es);
            && Sound(w) && !Good(w)
            && w.counts.almond == 3 && w.cards[Almond].count == 0 && w.cards[Almond].cost == InitialCost(Almond)
  {
    es := GuestBuysCharlie();
    var bought := After(InitialWorld(), es);
    InitiallyGood();
    RunSound(InitialWorld(), es);
    assert InitialCards()[Almond] == Card(InitialCost(Almond), InitialCost(Almond), 0);
    hide Cost, IsRun, After, InitialWorld, InitialCards;
    var account := Loaded(0, map["almondCount" := 3]);
    es := RunOn(InitialWorld(), es, Load(account));
    NextSound(bought, Load(account));
  }
}
