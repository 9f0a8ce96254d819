/**
 * The purchase rule both shops apply: look the item up by its lower-case
 * name, refuse it when unknown or unaffordable, otherwise take the price
 * and append the item, as typed, to the inventory.
 */
module Shop {
  import opened Options
  import opened Text

  /** The two fields of a user record a purchase touches. */
  datatype Purse = Purse(coins: int, inventory: seq<string>)

  datatype Outcome = UnknownItem | NotEnoughCoins(price: nat) | Bought(price: nat)

  /** Case-insensitive price lookup. */
  function PriceOf(prices: map<string, nat>, item: string): Option<nat> {
    if Lower(item) in prices then Some(prices[Lower(item)]) else None
  }

  function Purchase(p: Purse, item: string, prices: map<string, nat>): (Outcome, Purse) {
    match PriceOf(prices, item)
    case None => (UnknownItem, p)
    case Some(price) =>
      if p.coins < price then (NotEnoughCoins(price), p)
      else (Bought(price), Purse(p.coins - price, p.inventory + [item]))
  }

  /**
   * A purchase goes through exactly when the item is known and affordable;
   * a refused one changes nothing; an accepted one takes exactly the price,
   * never overdraws, and appends the item as typed.
   */
  lemma PurchaseRule(p: Purse, item: string, prices: map<string, nat>)
    ensures var (outcome, after) := Purchase(p, item, prices);
      && (outcome.Bought? <==> Lower(item) in prices && p.coins >= prices[Lower(item)])
      && (outcome.UnknownItem? <==> Lower(item) !in prices)
      && (!outcome.Bought? ==> after == p)
      && (outcome.Bought? ==> outcome.price == prices[Lower(item)]
                              && after.coins == p.coins - outcome.price
                              && after.coins >= 0
                              && after.inventory == p.inventory + [item])
  {
  }

  /** The purse after buying each of items in turn, whatever the outcome of each. */
  function PurchaseAll(p: Purse, items: seq<string>, prices: map<string, nat>): Purse {
    if items == [] then p
    else Purchase(PurchaseAll(p, items[..|items| - 1], prices), items[|items| - 1], prices).1
  }

  /** The summed prices of the items. */
  function Cost(items: seq<string>, prices: map<string, nat>): int {
    if items == [] then 0
    else Cost(items[..|items| - 1], prices) + (if Lower(items[|items| - 1]) in prices then prices[Lower(items[|items| - 1])] else 0)
  }

  /**
   * Over any run of purchases nothing is lost or created: the inventory only
   * grows at its end, the coins left plus the prices of what was appended
   * equal the coins at the start, every appended item is a shop item, and a
   * balance that started non-negative stays non-negative.
   */
  lemma {:induction false} PurchasesConserveCoins(p: Purse, items: seq<string>, prices: map<string, nat>)
    ensures var after := PurchaseAll(p, items, prices);
      && |p.inventory| <= |after.inventory|
      && after.inventory[..|p.inventory|] == p.inventory
      && after.coins + Cost(after.inventory[|p.inventory|..], prices) == p.coins
      && (forall i :: |p.inventory| <= i < |after.inventory| ==> Lower(after.inventory[i]) in prices)
      && (p.coins >= 0 ==> after.coins >= 0)
  {
    if items != [] {
      var mid := PurchaseAll(p, items[..|items| - 1], prices);
      PurchasesConserveCoins(p, items[..|items| - 1], prices);
      var item := items[|items| - 1];
      var (outcome, after) := Purchase(mid, item, prices);
      if outcome.Bought? {
        var added := after.inventory[|p.inventory|..];
        assert added[..|added| - 1] == mid.inventory[|p.inventory|..];
        assert added[|added| - 1] == item;
      }
    }
  }
}
