/** The script's functions: globals and market cards that the events change in place. */
module Clicker {
  import opened ClickerWorld
  import opened Prices

  class Game {
    var radishCount: int
    var moneyCount: int
    var counts: Counts
    var hasCharlie: bool
    var hasPowell: bool
    var charlieShown: bool
    var powellShown: bool
    var cardMap: map<CardId, Card>
    var priceFluctuationTimer: nat
    var currentRadishPrice: nat
    var priceMax: nat

    ghost function Now(): World
      reads this
    {
      World(radishCount, moneyCount, counts, hasCharlie, hasPowell, charlieShown, powellShown, cardMap,
            priceFluctuationTimer, currentRadishPrice, priceMax)
    }

    ghost predicate Valid()
      reads this
    {
      Sound(Now())
    }

    constructor ()
      ensures Valid() && Now() == InitialWorld()
    {
      radishCount, moneyCount, counts := 0, 0, Counts(0, 0, 0, 0, 0);
      hasCharlie, hasPowell, charlieShown, powellShown := false, false, false, false;
      cardMap := InitialCards();
      priceFluctuationTimer, currentRadishPrice, priceMax := 0, 100, INITIAL_PRICE_MAX;
      InitiallyGood();
      new;
      hide Sound;
    }

    method OnRadishClick()
      requires Valid()
      modifies this`radishCount
      ensures Valid() && Now() == Next(old(Now()), Click)
      ensures radishCount > old(radishCount)
    {
      NextSound(Now(), Click);
      hide Sound;
      var powellModifier := 1 + (if hasPowell then counts.farmer / FARMER_THRESHOLD else 0);
      radishCount := radishCount + powellModifier;
    }

    method CalcRadishPerSecond() returns (rps: nat)
      ensures rps == RadishPerSecond(Now())
    {
      var taffyModifier := counts.taffy + 1;
      var farmerRps := counts.farmer * taffyModifier;
      var farmModifier := 1 + Flag(hasCharlie) * counts.almond;
      var farmRps := counts.farm * FARM_GAIN * farmModifier;
      var powellModifier := 1 + Flag(hasPowell) * (counts.farmer / FARMER_THRESHOLD);
      assert powellModifier == PowellModifier(Now());
      hide PowellModifier, Flag;
      rps := powellModifier * (farmerRps + farmRps);
    }

    method UpdateLoop(draw: nat)
      requires Valid() && PRICE_MIN <= draw <= priceMax
      modifies this`radishCount, this`priceFluctuationTimer, this`currentRadishPrice
      ensures Valid() && Now() == Next(old(Now()), Tick(draw))
      ensures radishCount >= old(radishCount)
    {
      NextSound(Now(), Tick(draw));
      hide Sound;
      var rps := CalcRadishPerSecond();
      radishCount := radishCount + rps;
      priceFluctuationTimer := priceFluctuationTimer + 1;
      if priceFluctuationTimer >= 10 {
        priceFluctuationTimer := 0;
        currentRadishPrice := draw;
      }
    }

    /** A sale turns radishes into money at the current price: together they are worth the same. */
    method SellRadish(amount: Amount)
      requires Valid()
      modifies this`radishCount, this`moneyCount
      ensures Valid() && Now() == Next(old(Now()), Sell(amount))
      ensures moneyCount + radishCount * currentRadishPrice == old(moneyCount + radishCount * currentRadishPrice)
    {
      NextSound(Now(), Sell(amount));
      hide Sound;
      var n := match amount case One => 1 case Ten => 10 case All => radishCount;
      if radishCount >= n {
        assert radishCount * currentRadishPrice == (radishCount - n) * currentRadishPrice + n * currentRadishPrice;
        radishCount := radishCount - n;
        moneyCount := moneyCount + n * currentRadishPrice;
      }
    }

    method BuyUpgrade(id: CardId)
      requires Valid()
      modifies this
      ensures Valid() && Now() == Next(old(Now()), Buy(id))
    {
      ghost var before := Now();
      NextSound(before, Buy(id));
      assert id in cardMap && Next(before, Buy(id)) == Bought(before, id);
      hide Sound, Next, Counted, Owned;
      var card := cardMap[id];
      if card.cost * 100 > moneyCount {
        return;
      }
      moneyCount := moneyCount - card.cost * 100;
      cardMap := cardMap[id := card.(count := card.count + 1)];
      assert Now() == Paid(before, id);
      if id == Charlie || id == Powell {
        BuyUniqueUpgrade(id);
      } else {
        BuyCountedUpgrade(id);
      }
    }

    /** The flag is set, and if the card is shown as bought already the rest throws. */
    method BuyUniqueUpgrade(id: CardId)
      requires !IsCounted(id)
      modifies this`hasCharlie, this`hasPowell, this`charlieShown, this`powellShown
      ensures Now() == Owned(old(Now()), id)
    {
      if id == Charlie {
        hasCharlie := true;
      } else {
        hasPowell := true;
      }
      var _ := UpdateUniqueUpgradeUI(id, true);
    }

    method BuyCountedUpgrade(id: CardId)
      requires IsCounted(id) && id in cardMap
      modifies this`cardMap, this`counts, this`priceMax
      ensures Now() == Counted(old(Now()), id)
    {
      hide Cost, Incremented;
      UpdateUpgradeUI(id);
      CountBought(id);
    }

    method UpdateUpgradeUI(id: CardId)
      requires id in cardMap
      modifies this`cardMap
      ensures var card := old(cardMap[id]);
              cardMap == old(cardMap)[id := card.(cost := Cost(card.initialCost, card.count))]
    {
      cardMap := cardMap[id := cardMap[id].(cost := Cost(cardMap[id].initialCost, cardMap[id].count))];
    }

    method CountBought(id: CardId)
      requires IsCounted(id)
      modifies this`counts, this`priceMax
      ensures counts == Incremented(old(counts), id)
      ensures priceMax == if id == Lobster then old(priceMax) + LOBSTER_GAIN else old(priceMax)
    {
      if id == Farmer {
        counts := counts.(farmer := counts.farmer + 1);
      } else if id == Farm {
        counts := counts.(farm := counts.farm + 1);
      } else if id == Taffy {
        counts := counts.(taffy := counts.taffy + 1);
      } else if id == Lobster {
        counts := counts.(lobster := counts.lobster + 1);
        priceMax := priceMax + LOBSTER_GAIN;
      } else {
        counts := counts.(almond := counts.almond + 1);
      }
    }

    /** Not ok is the exception on a button that is shown as bought already. */
    method UpdateUniqueUpgradeUI(id: CardId, bought: bool) returns (ok: bool)
      requires !IsCounted(id)
      modifies this`charlieShown, this`powellShown
      ensures ok <==> !(bought && old(if id == Charlie then charlieShown else powellShown))
      ensures charlieShown == if id == Charlie then bought else old(charlieShown)
      ensures powellShown == if id == Powell then bought else old(powellShown)
    {
      var shown := if id == Charlie then charlieShown else powellShown;
      if bought && shown {
        return false;
      }
      if id == Charlie {
        charlieShown := bought;
      } else {
        powellShown := bought;
      }
      return true;
    }

    method ResetUpgradeUI(id: CardId, count: nat)
      requires id in cardMap
      modifies this`cardMap
      ensures var initialCost := old(cardMap[id].initialCost);
              cardMap == old(cardMap)[id := Card(initialCost, Cost(initialCost, count), count)]
    {
      var updatedCost := Cost(cardMap[id].initialCost, count);
      cardMap := cardMap[id := cardMap[id].(count := count, cost := updatedCost)];
    }

    /** The cards in the order in which they were made. An exception ends the walk: it comes from a
        unique card that is shown as bought already. */
    method UpdateMarketUI() returns (ok: bool)
      requires AllCards(cardMap)
      modifies this`cardMap, this`charlieShown, this`powellShown
      ensures Now() == Refreshed(old(Now()))
      ensures ok <==> !old((hasCharlie && charlieShown) || (hasPowell && powellShown))
    {
      ghost var before := Now();
      hide Walked, Refreshed, Cost;
      WalkedNothing(before);
      for i := 0 to |ORDER|
        invariant AllCards(cardMap) && Now() == Walked(before, i)
        invariant forall j :: 0 <= j < i ==> !Throws(before, ORDER[j])
      {
        WalkedNext(before, i);
        var id := ORDER[i];
        var shown := RefreshCard(id);
        if !shown {
          WalkedIsRefreshed(before, i);
          return false;
        }
      }
      assert ORDER[Position(Charlie)] == Charlie && ORDER[Position(Powell)] == Powell;
      WalkedIsRefreshed(before, |ORDER|);
      return true;
    }

    method RefreshCard(id: CardId) returns (ok: bool)
      requires id in cardMap
      modifies this`cardMap, this`charlieShown, this`powellShown
      ensures ok <==> !Throws(old(Now()), id)
      ensures Now() == if ok then RefreshedCard(old(Now()), id) else old(Now())
    {
      ok := true;
      if id == Charlie {
        ok := UpdateUniqueUpgradeUI(id, hasCharlie);
      } else if id == Powell {
        ok := UpdateUniqueUpgradeUI(id, hasPowell);
      } else {
        ResetUpgradeUI(id, CountOf(counts, id));
      }
    }

    /** The saved values that are there and not zero. */
    method TakeValues(data: Loaded)
      modifies this`radishCount, this`moneyCount, this`counts, this`hasCharlie, this`hasPowell
      ensures Now() == LoadGlobals(old(Now()), data)
    {
      hide PickCounts;
      var u := data.upgrades;
      if data.radishes != 0 {
        radishCount := data.radishes;
      }
      if Given(u, "moneyCount") {
        moneyCount := u["moneyCount"] * 100;
      }
      TakeCounts(u);
      hasCharlie := hasCharlie || Given(u, "hasCharlie");
      hasPowell := hasPowell || Given(u, "hasPowell");
    }

    method TakeCounts(u: map<string, nat>)
      modifies this`counts
      ensures counts == PickCounts(u, old(counts))
    {
      hide Pick;
      counts := counts.(farmer := Pick(u, "farmerCount", counts.farmer));
      counts := counts.(farm := Pick(u, "farmCount", counts.farm));
      counts := counts.(taffy := Pick(u, "taffyCount", counts.taffy));
      counts := counts.(lobster := Pick(u, "lobsterCount", counts.lobster));
      counts := counts.(almond := Pick(u, "almondCount", counts.almond));
    }

    /** The part of a login that takes over the saved values. An exception from the cards is caught:
        it shows as a failed login, with the values taken over. */
    method LoadData(data: Loaded) returns (ok: bool)
      requires Valid()
      modifies this
      ensures Valid() && Now() == Next(old(Now()), Load(data))
      ensures !ok <==> old(hasCharlie) || old(hasPowell && powellShown)
    {
      NextSound(Now(), Load(data));
      assert AllCards(cardMap) && charlieShown == hasCharlie && (powellShown ==> hasPowell);
      hide Sound;
      TakeValues(data);
      ok := UpdateMarketUI();
    }

    method ResetVars()
      modifies this
      ensures Now() == ResetGlobals(old(Now()))
    {
      radishCount, moneyCount, counts := 0, 0, Counts(0, 0, 0, 0, 0);
      hasCharlie, hasPowell, priceMax := false, false, INITIAL_PRICE_MAX;
    }

    /** The part of a logout that follows the server's answer: no card throws, as no flag is set. */
    method DoLogout() returns (ok: bool)
      requires Valid()
      modifies this
      ensures Valid() && Now() == Next(old(Now()), Logout)
      ensures ok && Good(Now())
    {
      NextSound(Now(), Logout);
      assert AllCards(cardMap);
      hide Sound;
      ResetVars();
      ok := UpdateMarketUI();
    }
  }
}
