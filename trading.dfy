/** The shop's purchase of one item. */
module Trading {
  import opened Stats

  /** The purchase goes ahead only for an exact (case-sensitive) item name
      the shop sells, and only when the player has at least its price. */
  predicate CanBuy(s: State, shop: Catalog, choice: string) {
    choice in shop && s.gold >= shop[choice]
  }

  /** The state after asking the shop for `choice`. */
  function Purchase(s: State, shop: Catalog, choice: string): State {
    if CanBuy(s, shop, choice) then
      s.(gold := s.gold - shop[choice], inventory := s.inventory + [choice])
    else
      s
  }

  /** Either the price is paid and exactly that one item is appended, or
      nothing changes at all. */
  lemma PurchaseAllOrNothing(s: State, shop: Catalog, choice: string)
    ensures CanBuy(s, shop, choice) ==>
      && Purchase(s, shop, choice).gold == s.gold - shop[choice]
      && Purchase(s, shop, choice).inventory == s.inventory + [choice]
      && Purchase(s, shop, choice).(gold := s.gold, inventory := s.inventory) == s
    ensures !CanBuy(s, shop, choice) ==> Purchase(s, shop, choice) == s
  {
  }

  /** A name differing from a catalog key only in letter case is not sold. */
  lemma PurchaseIsCaseSensitive(s: State)
    requires s.gold >= 100
    ensures Purchase(s, Shop, "potion") == s
    ensures Purchase(s, Shop, "Potion").inventory == s.inventory + ["Potion"]
  {
    assert "potion" != "Potion" by { assert "potion"[0] != "Potion"[0]; }
    assert "potion" !in Shop;
  }

  /** Buying never drives gold below zero, and whatever ends up in the
      inventory is a catalog item. */
  lemma PurchaseKeepsInv(s: State, shop: Catalog, choice: string)
    requires Inv(s, shop)
    ensures Inv(Purchase(s, shop, choice), shop)
  {
    var t := Purchase(s, shop, choice);
    forall item | item in t.inventory
      ensures item in shop
    {
      if CanBuy(s, shop, choice) && item !in s.inventory {
        assert item == choice;
      }
    }
  }
}
