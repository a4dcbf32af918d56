/** The rules of the clicker game in numbers: prices, rates, sales and the changing price. */
module ClickerRules {
  import opened ClickerWorld
  import opened Prices

  // ---------------------------------------------------------------------------------------
  // The start
  // ---------------------------------------------------------------------------------------

  /** A new game has nothing; the cards cost these dollars, and a radish a dollar. */
  lemma {:induction false} NewGame()
    ensures var w := InitialWorld();
            && w.radishes == 0 && w.money == 0 && w.counts == Counts(0, 0, 0, 0, 0) && !w.charlie && !w.powell
            && w.price == 100 && w.priceMax == 125 && w.timer == 0 && AllCards(w.cards)
            && w.cards[Farmer] == Card(100, 100, 0) && w.cards[Farm] == Card(1000, 1000, 0)
            && w.cards[Taffy] == Card(2000, 2000, 0) && w.cards[Charlie] == Card(4000, 4000, 0)
            && w.cards[Almond] == Card(20000, 20000, 0) && w.cards[Lobster] == Card(50000, 50000, 0)
            && w.cards[Powell] == Card(100000, 100000, 0)
  {
    InitiallyGood();
    assert AllCards(InitialWorld().cards);
    hide Cost;
  }

  /** A logout takes everything, and puts the upper end of the price back; the clock and the price go on. */
  lemma {:induction false} LogoutTakesAll(w: World)
    requires AllCards(w.cards)
    ensures var out := Next(w, Logout);
            && out.radishes == 0 && out.money == 0 && out.counts == Counts(0, 0, 0, 0, 0)
            && !out.charlie && !out.powell && !out.charlieShown && !out.powellShown
            && out.priceMax == 125 && out.price == w.price && out.timer == w.timer
  {
    hide Cost;
  }

  // ---------------------------------------------------------------------------------------
  // Radishes
  // ---------------------------------------------------------------------------------------

  /** With Powell, every hundred farmers count once more. */
  function Boost(farmers: nat, powell: bool): nat {
    if powell then 1 + farmers / 100 else 1
  }

  /** A click gives one radish, and with Powell one more for every hundred farmers. */
  lemma {:induction false} ClickGives(w: World)
    requires AllCards(w.cards)
    ensures Next(w, Click) == w.(radishes := w.radishes + Boost(w.counts.farmer, w.powell))
  {
  }

  /** A tick gives the radishes of one second, and moves the clock. */
  lemma {:induction false} TickGives(w: World, draw: nat)
    requires AllCards(w.cards) && Enabled(w, Tick(draw))
    ensures var next := Next(w, Tick(draw));
            next == w.(radishes := w.radishes + RadishPerSecond(w), timer := next.timer, price := next.price)
  {
    hide RadishPerSecond;
  }

  /** A game without farmers and farms grows nothing. */
  lemma {:induction false} NothingGrows(w: World)
    requires w.counts.farmer == 0 && w.counts.farm == 0
    ensures RadishPerSecond(w) == 0
  {
  }

  lemma {:induction false} MulIs(x: int, y: int)
    ensures x * y == Mul(x, y)
  {
  }

  /** The farms count ten radishes each, and with Charlie again for every almond. */
  function PerFarm(almonds: nat, charlie: bool): nat {
    if charlie then 10 + 10 * almonds else 10
  }

  lemma {:induction false} RateIs(w: World)
    ensures RadishPerSecond(w) ==
      Mul(Boost(w.counts.farmer, w.powell),
          Mul(w.counts.farmer, w.counts.taffy + 1) + Mul(w.counts.farm, PerFarm(w.counts.almond, w.charlie)))
  {
    var (c, more) := (w.counts, 1 + Flag(w.charlie) * w.counts.almond);
    assert PowellModifier(w) == Boost(c.farmer, w.powell);
    assert 10 * more == PerFarm(c.almond, w.charlie);
    assert c.farm * 10 * more == c.farm * (10 * more);
  }

  /** An affordable purchase of one kind and what it leaves. */
  predicate Buys(w: World, id: CardId) {
    id in w.cards && w.cards[id].cost * 100 <= w.money
  }

  /** A purchase costs the card's price and sets one flag at most, and a lobster raises the upper end of
      the radish price by 20 cents. */
  lemma {:induction false} PurchaseChanges(w: World, id: CardId)
    requires Buys(w, id)
    ensures var next := Bought(w, id);
            && next.money == w.money - 100 * w.cards[id].cost && next.radishes == w.radishes
            && next.charlie == (w.charlie || id == Charlie) && next.powell == (w.powell || id == Powell)
            && next.priceMax == w.priceMax + (if id == Lobster then 20 else 0)
            && next.price == w.price && next.timer == w.timer
  {
    hide Cost, Incremented;
    var paid := Paid(w, id);
    assert paid == w.(money := w.money - 100 * w.cards[id].cost, cards := paid.cards);
    hide Paid;
  }

  /** A purchase adds one to the count of its upgrade, if it has one, and to no other. */
  lemma {:induction false} PurchaseCounts(w: World, id: CardId)
    requires Buys(w, id)
    ensures var (next, c) := (Bought(w, id), w.counts);
            next.counts == match id
                           case Farmer => c.(farmer := c.farmer + 1)
                           case Farm => c.(farm := c.farm + 1)
                           case Taffy => c.(taffy := c.taffy + 1)
                           case Lobster => c.(lobster := c.lobster + 1)
                           case Almond => c.(almond := c.almond + 1)
                           case Charlie => c
                           case Powell => c
  {
    hide Cost;
    assert IsCounted(id) ==> Counted(Paid(w, id), id).counts == Incremented(w.counts, id);
    assert !IsCounted(id) ==> Owned(Paid(w, id), id).counts == w.counts;
    hide Paid, Counted, Owned;
  }

  /** A purchase that there is no money for changes nothing. */
  lemma {:induction false} TooExpensive(w: World, id: CardId)
    requires id in w.cards && !Buys(w, id)
    ensures Bought(w, id) == w
  {
  }

  /** Each farm adds its ten radishes or more. */
  lemma {:induction false} FarmAdds(w: World)
    requires Buys(w, Farm)
    ensures RadishPerSecond(Bought(w, Farm)) ==
      RadishPerSecond(w) + Boost(w.counts.farmer, w.powell) * PerFarm(w.counts.almond, w.charlie)
  {
    PurchaseChanges(w, Farm);
    PurchaseCounts(w, Farm);
    RateIs(w);
    RateIs(Bought(w, Farm));
    var (c, b, per) := (w.counts, Boost(w.counts.farmer, w.powell), PerFarm(w.counts.almond, w.charlie));
    hide Bought, RadishPerSecond, Boost, PerFarm;
    MulIs(b, per);
    MulAdd(c.farm, 1, per);
    assert Mul(1, per) == per;
    MulAdd(Mul(c.farmer, c.taffy + 1) + Mul(c.farm, per), per, b);
    hide Mul;
  }

  /** Each taffy adds one radish for every farmer. */
  lemma {:induction false} TaffyAdds(w: World)
    requires Buys(w, Taffy)
    ensures RadishPerSecond(Bought(w, Taffy)) == RadishPerSecond(w) + Boost(w.counts.farmer, w.powell) * w.counts.farmer
  {
    PurchaseChanges(w, Taffy);
    PurchaseCounts(w, Taffy);
    RateIs(w);
    RateIs(Bought(w, Taffy));
    var (c, b) := (w.counts, Boost(w.counts.farmer, w.powell));
    var farms := Mul(c.farm, PerFarm(c.almond, w.charlie));
    hide Bought, RadishPerSecond, Boost, PerFarm;
    MulIs(b, c.farmer);
    MulAdd(c.taffy + 1, 1, c.farmer);
    assert Mul(c.farmer, 1) == c.farmer;
    MulAdd(Mul(c.farmer, c.taffy + 1) + farms, c.farmer, b);
    hide Mul;
  }

  /** Each almond adds ten radishes for every farm, once there is Charlie. */
  lemma {:induction false} AlmondAdds(w: World)
    requires Buys(w, Almond)
    ensures RadishPerSecond(Bought(w, Almond)) ==
      RadishPerSecond(w) + if w.charlie then Boost(w.counts.farmer, w.powell) * (10 * w.counts.farm) else 0
  {
    PurchaseChanges(w, Almond);
    PurchaseCounts(w, Almond);
    RateIs(w);
    RateIs(Bought(w, Almond));
    var (c, b, per) := (w.counts, Boost(w.counts.farmer, w.powell), PerFarm(w.counts.almond, w.charlie));
    assert PerFarm(c.almond + 1, w.charlie) == if w.charlie then per + 10 else per;
    hide Bought, RadishPerSecond, Boost, PerFarm;
    MulIs(b, 10 * c.farm);
    MulAdd(per, 10, c.farm);
    assert Mul(c.farm, 10) == 10 * c.farm;
    MulAdd(Mul(c.farmer, c.taffy + 1) + Mul(c.farm, per), 10 * c.farm, b);
    hide Mul;
  }

  /** Charlie adds, the first time, what the almonds give to the farms. */
  lemma {:induction false} CharlieAdds(w: World)
    requires Buys(w, Charlie)
    ensures var c := w.counts;
            RadishPerSecond(Bought(w, Charlie)) ==
              RadishPerSecond(w) + if w.charlie then 0 else Boost(c.farmer, w.powell) * (c.farm * (10 * c.almond))
  {
    PurchaseChanges(w, Charlie);
    PurchaseCounts(w, Charlie);
    RateIs(w);
    RateIs(Bought(w, Charlie));
    var (c, b, more) := (w.counts, Boost(w.counts.farmer, w.powell), 10 * w.counts.almond);
    hide Bought, RadishPerSecond, Boost;
    MulIs(c.farm, more);
    MulIs(b, c.farm * more);
    MulAdd(10, more, c.farm);
    MulAdd(Mul(c.farmer, c.taffy + 1) + Mul(c.farm, 10), Mul(c.farm, more), b);
    hide Mul;
  }

  /** Powell adds, the first time, the whole rate again for every hundred farmers. */
  lemma {:induction false} PowellAdds(w: World)
    requires Buys(w, Powell)
    ensures RadishPerSecond(Bought(w, Powell)) ==
      RadishPerSecond(w) + if w.powell then 0 else (w.counts.farmer / 100) * RadishPerSecond(w)
  {
    PurchaseChanges(w, Powell);
    PurchaseCounts(w, Powell);
    RateIs(w);
    RateIs(Bought(w, Powell));
    var (c, hundreds) := (w.counts, w.counts.farmer / 100);
    var base := Mul(c.farmer, c.taffy + 1) + Mul(c.farm, PerFarm(c.almond, w.charlie));
    hide Bought, RadishPerSecond, PerFarm;
    MulAdd(1, hundreds, base);
    assert Mul(1, base) == base;
    MulIs(hundreds, base);
    hide Mul;
  }

  /** A lobster adds nothing. */
  lemma {:induction false} LobsterAddsNothing(w: World)
    requires Buys(w, Lobster)
    ensures RadishPerSecond(Bought(w, Lobster)) == RadishPerSecond(w)
  {
    PurchaseChanges(w, Lobster);
    PurchaseCounts(w, Lobster);
    RateIs(w);
    RateIs(Bought(w, Lobster));
    hide Bought, RadishPerSecond, Mul;
  }

  /** The rate that one more farmer leads to, with this many times the whole. */
  lemma {:induction false} FarmerRates(w: World)
    requires Buys(w, Farmer)
    ensures var (c, next) := (w.counts, Bought(w, Farmer));
            var (base, more) := (Mul(c.farmer, c.taffy + 1) + Mul(c.farm, PerFarm(c.almond, w.charlie)), c.taffy + 1);
            && RadishPerSecond(w) == Mul(Boost(c.farmer, w.powell), base)
            && RadishPerSecond(next) == Mul(Boost(c.farmer + 1, w.powell), base + more)
            && RadishPerSecond(next.(powell := false)) == Mul(1, base + more)
  {
    PurchaseChanges(w, Farmer);
    PurchaseCounts(w, Farmer);
    var (c, next) := (w.counts, Bought(w, Farmer));
    RateIs(w);
    RateIs(next);
    RateIs(next.(powell := false));
    assert Boost(c.farmer + 1, false) == 1;
    hide Bought, RadishPerSecond, PerFarm, Boost;
    MulAdd(c.farmer, 1, c.taffy + 1);
    assert Mul(1, c.taffy + 1) == c.taffy + 1;
    hide Mul;
  }

  /** Each farmer adds one radish and one for every taffy; with Powell, every hundredth farmer adds the
      whole rate without Powell again. */
  lemma {:induction false} FarmerAdds(w: World)
    requires Buys(w, Farmer)
    ensures var (c, next) := (w.counts, Bought(w, Farmer));
            var each := Boost(c.farmer, w.powell) * (c.taffy + 1);
            RadishPerSecond(next) == RadishPerSecond(w) + each +
              if w.powell && (c.farmer + 1) % 100 == 0 then RadishPerSecond(next.(powell := false)) else 0
  {
    FarmerRates(w);
    var c := w.counts;
    var b := Boost(c.farmer, w.powell);
    Hundreds(c.farmer);
    assert Boost(c.farmer + 1, w.powell) == if w.powell && (c.farmer + 1) % 100 == 0 then b + 1 else b;
    hide Bought, RadishPerSecond, PerFarm, Boost, Buys;
    MulIs(b, c.taffy + 1);
    OneMoreHundred(b, Mul(c.farmer, c.taffy + 1) + Mul(c.farm, PerFarm(c.almond, w.charlie)), c.taffy + 1);
    hide Mul;
  }

  lemma {:induction false} OneMoreHundred(b: nat, base: nat, more: nat)
    ensures Mul(b, base + more) == Mul(b, base) + Mul(b, more)
    ensures Mul(b + 1, base + more) == Mul(b, base) + Mul(b, more) + Mul(1, base + more)
    ensures Mul(1, base + more) == base + more
  {
    MulAdd(base, more, b);
    MulAdd(b, 1, base + more);
  }

  lemma {:induction false} Hundreds(n: nat)
    ensures (n + 1) / 100 == n / 100 + if (n + 1) % 100 == 0 then 1 else 0
  {
  }

  /** What is shown as bought after a load: Charlie if he is bought, and Powell too, unless Charlie was
      bought before and the refresh did not come as far as Powell. */
  lemma {:induction false} LoadShows(w: World, data: Loaded)
    requires Sound(w)
    ensures var back := Next(w, Load(data));
            back.charlieShown == back.charlie && back.powellShown == if w.charlie then w.powellShown else back.powell
  {
    hide Cost, Pick, PickCounts;
  }

  // ---------------------------------------------------------------------------------------
  // Sales
  // ---------------------------------------------------------------------------------------

  /** One radish is sold if there is one, ten if there are ten, and all whatever there is, each at the
      current price. */
  lemma {:induction false} SaleExactly(w: World)
    requires AllCards(w.cards) && w.radishes >= 0
    ensures Next(w, Sell(One)) ==
      if w.radishes >= 1 then w.(radishes := w.radishes - 1, money := w.money + w.price) else w
    ensures Next(w, Sell(Ten)) ==
      if w.radishes >= 10 then w.(radishes := w.radishes - 10, money := w.money + 10 * w.price) else w
    ensures Next(w, Sell(All)) == w.(radishes := 0, money := w.money + w.radishes * w.price)
  {
  }

  // ---------------------------------------------------------------------------------------
  // The price of radishes
  // ---------------------------------------------------------------------------------------

  function Ticks(es: seq<Event>): nat {
    if es == [] then 0 else Ticks(es[..|es| - 1]) + if es[|es| - 1].Tick? then 1 else 0
  }

  lemma {:induction false} TicksFirst(es: seq<Event>)
    requires es != []
    ensures Ticks(es) == (if es[0].Tick? then 1 else 0) + Ticks(es[1..])
  {
    var n := |es| - 1;
    if n > 0 {
      assert es[..n][0] == es[0] && es[..n][1..] == es[1..][..n - 1] && es[1..][n - 1] == es[n];
      TicksFirst(es[..n]);
    } else {
      assert es[1..] == [] && es[..0] == [];
    }
  }

  lemma {:induction false} TimerCounts(w: World, es: seq<Event>)
    requires IsRun(w, es) && w.timer < 10
    ensures After(w, es).timer == (w.timer + Ticks(es)) % 10
    decreases |es|
  {
    if es != [] {
      TicksFirst(es);
      TimerNext(w, es[0]);
      hide Next;
      TimerCounts(Next(w, es[0]), es[1..]);
    }
  }

  lemma {:induction false} TimerNext(w: World, e: Event)
    requires AllCards(w.cards) && Enabled(w, e) && w.timer < 10
    ensures Next(w, e).timer == if e.Tick? then (w.timer + 1) % 10 else w.timer
    ensures Next(w, e).price == if e.Tick? && w.timer == 9 then e.draw else w.price
  {
    hide Cost, Bought, RadishPerSecond;
    if e.Buy? { TimerBought(w, e.id); }
  }

  lemma {:induction false} TimerBought(w: World, id: CardId)
    requires id in w.cards
    ensures Bought(w, id).timer == w.timer && Bought(w, id).price == w.price
  {
    hide Cost, Incremented;
  }

  /** After any run from the start, the next event changes the price if it is a tick, and the tenth,
      twentieth and so on; then to a price between 75 cents and the upper end. No other event does. */
  lemma {:induction false} PriceEveryTenthTick(es: seq<Event>, e: Event)
    requires IsRun(InitialWorld(), es)
    requires AllCards(After(InitialWorld(), es).cards) && Enabled(After(InitialWorld(), es), e)
    ensures var w := After(InitialWorld(), es);
            if e.Tick? && (Ticks(es) + 1) % 10 == 0 then Next(w, e).price == e.draw && 75 <= e.draw <= w.priceMax
            else Next(w, e).price == w.price
  {
    TimerCounts(InitialWorld(), es);
    TimerNext(After(InitialWorld(), es), e);
    hide Next, IsRun, After;
  }
}
