/** What every play of the clicker game keeps: the books balance, and spending follows the prices. */
module ClickerEconomy {
  import opened ClickerWorld
  import opened Prices

  // ---------------------------------------------------------------------------------------
  // The rate
  // ---------------------------------------------------------------------------------------

  lemma {:induction false} Product(a: nat, b: nat, c: nat, d: nat)
    requires a <= b && c <= d
    ensures a * c <= b * d
  {
    assert a * c <= b * c && b * c <= b * d;
  }

  lemma {:induction false} BoughtMore(w: World, id: CardId)
    requires id in w.cards
    ensures HasMore(w, Bought(w, id))
  {
    assert IsCounted(id) ==> Counted(Paid(w, id), id).counts == Incremented(w.counts, id);
    hide Cost, Counted;
  }

  predicate HasMore(a: World, b: World) {
    && a.counts.farmer <= b.counts.farmer && a.counts.farm <= b.counts.farm && a.counts.taffy <= b.counts.taffy
    && a.counts.almond <= b.counts.almond && (a.charlie ==> b.charlie) && (a.powell ==> b.powell)
  }

  /** Buying anything never lowers the radishes per second. */
  lemma {:induction false} BuyingNeverLowersRate(w: World, id: CardId)
    requires id in w.cards
    ensures RadishPerSecond(Bought(w, id)) >= RadishPerSecond(w)
  {
    BoughtMore(w, id);
    hide Bought, RadishPerSecond;
    MoreIsFaster(w, Bought(w, id));
  }

  lemma {:induction false} MoreIsFaster(a: World, b: World)
    requires HasMore(a, b)
    ensures RadishPerSecond(a) <= RadishPerSecond(b)
  {
    var farmersA, farmersB := a.counts.farmer * (a.counts.taffy + 1), b.counts.farmer * (b.counts.taffy + 1);
    var boostA, boostB := Flag(a.charlie) * a.counts.almond, Flag(b.charlie) * b.counts.almond;
    var farmsA, farmsB := a.counts.farm * FARM_GAIN * (1 + boostA), b.counts.farm * FARM_GAIN * (1 + boostB);
    Product(a.counts.farmer, b.counts.farmer, a.counts.taffy + 1, b.counts.taffy + 1);
    Product(Flag(a.charlie), Flag(b.charlie), a.counts.almond, b.counts.almond);
    Product(a.counts.farm * FARM_GAIN, b.counts.farm * FARM_GAIN, 1 + boostA, 1 + boostB);
    Product(Flag(a.powell), Flag(b.powell), a.counts.farmer / FARMER_THRESHOLD, b.counts.farmer / FARMER_THRESHOLD);
    Product(PowellModifier(a), PowellModifier(b), farmersA + farmsA, farmersB + farmsB);
  }

  // ---------------------------------------------------------------------------------------
  // The books
  // ---------------------------------------------------------------------------------------

  /** What an event brings in: the price of every radish it sells. */
  function Revenue(w: World, e: Event): int {
    if e.Sell? && w.radishes >= AmountOf(w, e.amount) then AmountOf(w, e.amount) * w.price else 0
  }

  /** The dollars that an event spends on one kind of card. */
  function Spent(w: World, e: Event, id: CardId): nat
    requires id in w.cards
  {
    if e == Buy(id) && w.cards[id].cost * 100 <= w.money then w.cards[id].cost else 0
  }

  /** A play is a run without logins and logouts. */
  predicate IsPlay(es: seq<Event>) {
    forall i :: 0 <= i < |es| ==> !es[i].Load? && !es[i].Logout?
  }

  lemma {:induction false} StepBalances(w: World, e: Event)
    requires AllCards(w.cards) && Enabled(w, e) && !e.Load? && !e.Logout?
    ensures Next(w, e).money == w.money + Revenue(w, e) - 100 * (if e.Buy? then Spent(w, e, e.id) else 0)
  {
    hide RadishPerSecond, PowellModifier, InitialCost, CountOf, Cost;
  }

  ghost function RevenueOf(w: World, es: seq<Event>): int
    requires IsRun(w, es)
    decreases |es|
  {
    if es == [] then 0 else Revenue(w, es[0]) + RevenueOf(Next(w, es[0]), es[1..])
  }

  ghost function SpentOn(w: World, es: seq<Event>, id: CardId): nat
    requires IsRun(w, es)
    decreases |es|
  {
    if es == [] then 0 else Spent(w, es[0], id) + SpentOn(Next(w, es[0]), es[1..], id)
  }

  ghost function TotalSpent(w: World, es: seq<Event>): nat
    requires IsRun(w, es)
  {
    SpentOn(w, es, Farmer) + SpentOn(w, es, Farm) + SpentOn(w, es, Taffy) + SpentOn(w, es, Charlie) +
    SpentOn(w, es, Almond) + SpentOn(w, es, Lobster) + SpentOn(w, es, Powell)
  }

  lemma {:induction false} SpentIsSum(w: World, e: Event)
    requires AllCards(w.cards)
    ensures (if e.Buy? then Spent(w, e, e.id) else 0) ==
      Spent(w, e, Farmer) + Spent(w, e, Farm) + Spent(w, e, Taffy) + Spent(w, e, Charlie) +
      Spent(w, e, Almond) + Spent(w, e, Lobster) + Spent(w, e, Powell)
  {
    if e.Buy? {
      assert forall id: CardId :: id != e.id ==> Spent(w, e, id) == 0;
      hide Spent;
      match e.id
      case Farmer =>
      case Farm =>
      case Taffy =>
      case Charlie =>
      case Almond =>
      case Lobster =>
      case Powell =>
    }
  }

  /** Over any play the money is what there was, plus what the sales brought in, minus the price of
      every unit bought; and neither money nor radishes are ever negative. */
  lemma {:induction false} BooksBalance(w: World, es: seq<Event>)
    requires Sound(w) && IsRun(w, es) && IsPlay(es)
    ensures Sound(After(w, es))
    ensures After(w, es).money == w.money + RevenueOf(w, es) - 100 * TotalSpent(w, es)
    decreases |es|
  {
    if es != [] {
      NextSound(w, es[0]);
      StepBalances(w, es[0]);
      SpentIsSum(w, es[0]);
      hide Sound, Next, Spent, Revenue;
      BooksBalance(Next(w, es[0]), es[1..]);
    }
  }

  /** An event of a play buys nothing of a counted upgrade, or one unit at the price that its card's
      count gives. The global and the card move together, in step or not. */
  lemma {:induction false} StepSpends(w: World, e: Event, id: CardId)
    requires Sound(w) && Enabled(w, e) && !e.Load? && !e.Logout? && IsCounted(id)
    ensures var (next, c) := (Next(w, e), w.cards[id].count);
            && id in next.cards
            && (var d := next.cards[id].count;
                && (if d == c then Spent(w, e, id) == 0 else d == c + 1 && Spent(w, e, id) == Cost(InitialCost(id), c))
                && CountOf(next.counts, id) - CountOf(w.counts, id) == d - c)
  {
    if e.Buy? { BoughtCount(w, e.id, id); }
    assert IsPriced(w, id);
    PricePositive(w, id);
    hide Cost, CountOf, InitialCost, RadishPerSecond, PowellModifier, Bought;
  }

  lemma {:induction false} PricePositive(w: World, id: CardId)
    requires id in w.cards && IsPriced(w, id)
    ensures w.cards[id].cost > 0
  {
    if IsCounted(id) { CostPositive(InitialCost(id), w.cards[id].count); }
    hide Cost;
  }

  lemma {:induction false} CostPositive(initial: nat, n: nat)
    requires initial >= 100
    ensures Cost(initial, n) >= initial
    decreases n
  {
    if n == 0 {
      CostAtZero(initial);
    } else {
      CostRises(initial, n - 1);
      CostPositive(initial, n - 1);
    }
  }

  lemma {:induction false} SumFromFirst(initial: nat, from: nat, to: nat)
    requires from < to
    ensures SumCosts(initial, from, to) == Cost(initial, from) + SumCosts(initial, from + 1, to)
  {
    hide Cost;
    if from + 1 < to { SumFromFirst(initial, from, to - 1); }
  }

  /** What a play spends on a counted upgrade is the price of its units, from the card's count before
      to its count after; and the global count has risen by as many. */
  lemma {:induction false} SpendingFollowsCount(w: World, es: seq<Event>, id: CardId)
    requires Sound(w) && IsRun(w, es) && IsPlay(es) && IsCounted(id)
    ensures id in After(w, es).cards
    ensures var (c, d) := (w.cards[id].count, After(w, es).cards[id].count);
            && c <= d && SpentOn(w, es, id) == SumCosts(InitialCost(id), c, d)
            && CountOf(After(w, es).counts, id) == CountOf(w.counts, id) + (d - c)
    decreases |es|
  {
    if es != [] {
      NextSound(w, es[0]);
      StepSpends(w, es[0], id);
      hide Sound, Next, Spent, Cost, CountOf, InitialCost;
      SpendingFollowsCount(Next(w, es[0]), es[1..], id);
      FirstPrice(w.cards[id].count, Next(w, es[0]).cards[id].count, After(w, es).cards[id].count, InitialCost(id));
    }
  }

  lemma {:induction false} FirstPrice(c: nat, next: nat, d: nat, initial: nat)
    requires (next == c || next == c + 1) && next <= d
    ensures SumCosts(initial, c, d) == (if next == c then 0 else Cost(initial, c)) + SumCosts(initial, next, d)
  {
    hide Cost;
    if next == c + 1 { SumFromFirst(initial, c, d); }
  }

  /** From every reachable world on, that is the geometric sum with ratio 23/20 between the two
      counts, cut by less than one dollar for each unit. */
  lemma {:induction false} SpendingIsGeometric(w: World, es: seq<Event>, id: CardId)
    requires Sound(w) && IsRun(w, es) && IsPlay(es) && IsCounted(id)
    ensures id in After(w, es).cards
    ensures var (c, d, spent) := (w.cards[id].count, After(w, es).cards[id].count, SpentOn(w, es, id));
            && c <= d
            && var geometric := 20 * InitialCost(id) * (Pow(23, d) - Pow(23, c) * Pow(20, d - c));
               3 * spent * Pow(20, d) <= geometric <= 3 * (spent + (d - c)) * Pow(20, d)
  {
    SpendingFollowsCount(w, es, id);
    var (c, d, spent) := (w.cards[id].count, After(w, es).cards[id].count, SpentOn(w, es, id));
    hide Sound, IsRun, After, SpentOn, Pow, SumCosts, InitialCost, IsPlay, IsClose;
    SumWithinGeometric(InitialCost(id), c, d);
    CloseToGeometric(InitialCost(id), d - c, spent, Pow(20, d), Pow(23, d), Carried(c, d));
  }

  /** In a world whose cards are in step the counts are those of the globals, and stay so. */
  lemma {:induction false} PlayStaysInStep(w: World, es: seq<Event>)
    requires Sound(w) && IsRun(w, es) && IsPlay(es)
    ensures Good(After(w, es)) <==> Good(w)
    decreases |es|
  {
    if es != [] {
      NextSound(w, es[0]);
      hide Sound, Next;
      PlayStaysInStep(Next(w, es[0]), es[1..]);
    }
  }
}
