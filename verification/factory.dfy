/**
 * Factories that draw collectibles from pools: a plain collectible factory
 * (with or without replacement) and the shop factory, which composes priced
 * shop offers from a special pool (drawn without replacement, more likely the
 * higher the shop's quality) and a common pool (drawn with replacement).
 */
module Factory {
  import opened Wrappers
  import opened Random

  /** A collectible, reduced to what the factories look at: its default price. */
  datatype Collectible = Collectible(name: string, defaultPrice: int)

  /** A collectible offered in a shop for a price. */
  datatype ShopItem = ShopItem(item: Collectible, price: int)

  /** No position of the pool is drawn twice. */
  ghost predicate Distinct(picks: seq<nat>)
  {
    forall j, k | 0 <= j < k < |picks| :: picks[j] != picks[k]
  }

  /** `drawn[k]` is the pool element at position `picks[k]`. */
  ghost predicate DrawnAt(pool: seq<Collectible>, picks: seq<nat>, drawn: seq<Collectible>)
  {
    && |picks| == |drawn|
    && forall k | 0 <= k < |drawn| :: picks[k] < |pool| && drawn[k] == pool[picks[k]]
  }

  /**
   * Removes the element at position `i`, as a removing draw from a list does.
   */
  function RemoveAt<T>(s: seq<T>, i: nat): (r: seq<T>)
    requires i < |s|
    ensures |r| == |s| - 1
    ensures forall j | 0 <= j < i :: r[j] == s[j]
    ensures forall j | i <= j < |r| :: r[j] == s[j + 1]
    ensures multiset(r) + multiset{s[i]} == multiset(s)
  {
    assert s == s[..i] + [s[i]] + s[i + 1..];
    s[..i] + s[i + 1..]
  }

  /**
   * `origin` gives the pool position of every element still in `remaining`;
   * these positions and the positions already drawn are all different.
   */
  ghost predicate Tracks(pool: seq<Collectible>, remaining: seq<Collectible>, origin: seq<nat>, picks: seq<nat>)
  {
    && |origin| == |remaining|
    && (forall j | 0 <= j < |remaining| :: origin[j] < |pool| && remaining[j] == pool[origin[j]])
    && Distinct(origin)
    && Distinct(picks)
    && (forall j, k | 0 <= j < |origin| && 0 <= k < |picks| :: origin[j] != picks[k])
  }

  /** Drawing the element at position `k` with removal keeps the positions apart. */
  lemma TracksStep(pool: seq<Collectible>, remaining: seq<Collectible>, origin: seq<nat>, picks: seq<nat>, k: nat)
    requires Tracks(pool, remaining, origin, picks) && k < |remaining|
    ensures Tracks(pool, RemoveAt(remaining, k), RemoveAt(origin, k), picks + [origin[k]])
  {
    var origin' := RemoveAt(origin, k);
    var picks' := picks + [origin[k]];
    forall j | 0 <= j < |origin'|
      ensures origin'[j] == origin[if j < k then j else j + 1]
    {
    }
  }

  /** The state of a run of draws with removal from a copy of `pool`. */
  ghost predicate Drawing(pool: seq<Collectible>, drawn: seq<Collectible>, remaining: seq<Collectible>,
                          origin: seq<nat>, picks: seq<nat>)
  {
    && |remaining| == |pool| - |drawn|
    && DrawnAt(pool, picks, drawn)
    && Tracks(pool, remaining, origin, picks)
    && multiset(drawn) + multiset(remaining) == multiset(pool)
  }

  /** One draw with removal keeps `Drawing`. */
  lemma DrawingStep(pool: seq<Collectible>, drawn: seq<Collectible>, remaining: seq<Collectible>,
                    origin: seq<nat>, picks: seq<nat>, k: nat)
    requires Drawing(pool, drawn, remaining, origin, picks) && k < |remaining|
    ensures Drawing(pool, drawn + [remaining[k]], RemoveAt(remaining, k), RemoveAt(origin, k), picks + [origin[k]])
  {
    TracksStep(pool, remaining, origin, picks, k);
  }

  class CollectibleFactory {
    /** The pool the factory draws from; the factory never changes it. */
    const pool: seq<Collectible>
    const rm: RandomManager

    constructor (pool: seq<Collectible>)
      ensures this.pool == pool
      ensures fresh(rm)
    {
      this.pool := pool;
      rm := new RandomManager();
    }

    /**
     * One element of the pool, drawn without removing it; drawing from an
     * empty pool is an error.
     */
    method Produce() returns (r: Option<Collectible>)
      modifies rm
      ensures r.Some? <==> |pool| > 0
      ensures r.Some? ==> r.value in pool
      ensures r.Some? ==> rm.draws == old(rm.draws) + 1
    {
      if |pool| == 0 {
        return None;
      }
      var i := rm.GetIndex(|pool|);
      r := Some(pool[i]);
    }

    /**
     * `n` elements drawn one after the other. With `unique` each draw removes
     * the element from a private copy of the pool, so no position of the pool
     * is drawn twice; otherwise every draw is from the whole pool. A draw from
     * an empty list is an error.
     */
    method ProduceMultiple(n: nat, unique: bool) returns (r: Option<seq<Collectible>>, ghost picks: seq<nat>)
      modifies rm
      ensures unique ==> (r.Some? <==> n <= |pool|)
      ensures !unique ==> (r.Some? <==> n == 0 || |pool| > 0)
      ensures r.Some? ==> |r.value| == n && DrawnAt(pool, picks, r.value)
      ensures r.Some? ==> forall k | 0 <= k < n :: r.value[k] in pool
      ensures r.Some? && unique ==> Distinct(picks) && multiset(r.value) <= multiset(pool)
      ensures r.Some? ==> rm.draws == old(rm.draws) + n
    {
      if unique {
        r, picks := ProduceUnique(n);
      } else {
        r, picks := ProduceRepeated(n);
      }
    }

    /** Draws with removal from a copy of the pool. */
    method ProduceUnique(n: nat) returns (r: Option<seq<Collectible>>, ghost picks: seq<nat>)
      modifies rm
      ensures r.Some? <==> n <= |pool|
      ensures r.Some? ==> |r.value| == n && DrawnAt(pool, picks, r.value) && Distinct(picks)
      ensures r.Some? ==> multiset(r.value) <= multiset(pool)
      ensures r.Some? ==> rm.draws == old(rm.draws) + n
    {
      var remaining := pool;
      var drawn: seq<Collectible> := [];
      // positions in `pool` of the elements still in `remaining`
      ghost var origin: seq<nat> := seq(|pool|, j => j);
      picks := [];
      for i := 0 to n
        invariant |drawn| == i
        invariant Drawing(pool, drawn, remaining, origin, picks)
        invariant rm.draws == old(rm.draws) + i
      {
        if |remaining| == 0 {
          return None, picks;
        }
        var k := rm.GetIndex(|remaining|);
        DrawingStep(pool, drawn, remaining, origin, picks, k);
        drawn := drawn + [remaining[k]];
        picks := picks + [origin[k]];
        remaining := RemoveAt(remaining, k);
        origin := RemoveAt(origin, k);
      }
      r := Some(drawn);
    }

    /** Draws from the whole pool every time. */
    method ProduceRepeated(n: nat) returns (r: Option<seq<Collectible>>, ghost picks: seq<nat>)
      modifies rm
      ensures r.Some? <==> n == 0 || |pool| > 0
      ensures r.Some? ==> |r.value| == n && DrawnAt(pool, picks, r.value)
      ensures r.Some? ==> rm.draws == old(rm.draws) + n
    {
      var drawn: seq<Collectible> := [];
      picks := [];
      for i := 0 to n
        invariant |drawn| == i && DrawnAt(pool, picks, drawn)
        invariant 0 < i ==> |pool| > 0
        invariant rm.draws == old(rm.draws) + i
      {
        if |pool| == 0 {
          return None, picks;
        }
        var k := rm.GetIndex(|pool|);
        drawn := drawn + [pool[k]];
        picks := picks + [k];
      }
      r := Some(drawn);
    }
  }

  /**
   * Rounding to the nearest integer, ties to the even neighbour, as the
   * built-in rounding of the game's language does.
   */
  function RoundHalfEven(x: real): (n: int)
    ensures -0.5 <= n as real - x <= 0.5
    ensures (n as real - x == 0.5 || x - n as real == 0.5) ==> n % 2 == 0
  {
    var f := x.Floor;
    var d := x - f as real;
    if d < 0.5 then f
    else if d > 0.5 then f + 1
    else if f % 2 == 0 then f
    else f + 1
  }

  /** The two conditions above single out one integer. */
  lemma RoundHalfEvenUnique(x: real, n: int)
    requires -0.5 <= n as real - x <= 0.5
    requires (n as real - x == 0.5 || x - n as real == 0.5) ==> n % 2 == 0
    ensures n == RoundHalfEven(x)
  {
  }

  function Max(a: real, b: real): (m: real)
    ensures m >= a && m >= b && (m == a || m == b)
  {
    if a < b then b else a
  }

  /** The amplitude of the price jitter: a price unit, or a tenth of the price if larger. */
  function Sigma(baseUnit: nat, defaultPrice: int): real
  {
    Max(baseUnit as real, defaultPrice as real * 0.1)
  }

  /**
   * A price the shop may ask: half the default price rounded in discount mode,
   * otherwise the default price plus a rounded offset of at most `Sigma`.
   */
  ghost predicate FairPrice(si: ShopItem, discount: bool, baseUnit: nat)
  {
    var p := si.item.defaultPrice;
    if discount then
      && -1 <= 2 * si.price - p <= 1
      && (2 * si.price - p != 0 ==> si.price % 2 == 0)
    else
      -(Sigma(baseUnit, p) + 0.5) <= (si.price - p) as real <= Sigma(baseUnit, p) + 0.5
  }

  /** The collectibles of the list that came from the special pool, in order. */
  function Specials(items: seq<ShopItem>, fromSpecial: seq<bool>): (r: seq<Collectible>)
    requires |items| == |fromSpecial|
    ensures |r| <= |items|
  {
    if |items| == 0 then []
    else
      var n := |items| - 1;
      Specials(items[..n], fromSpecial[..n]) + (if fromSpecial[n] then [items[n].item] else [])
  }

  /** Specials come only from slots before the quality level runs out. */
  lemma {:induction false} SpecialsBelowQuality(items: seq<ShopItem>, fromSpecial: seq<bool>, quality: int)
    requires |items| == |fromSpecial|
    requires forall k | 0 <= k < |items| :: fromSpecial[k] ==> k < quality
    ensures |Specials(items, fromSpecial)| <= if quality < 0 then 0 else quality
  {
    if |items| > 0 {
      var n := |items| - 1;
      SpecialsBelowQuality(items[..n], fromSpecial[..n], quality);
    }
  }

  /** Appending one slot appends its collectible to the specials when it is special. */
  lemma SpecialsSnoc(items: seq<ShopItem>, fromSpecial: seq<bool>, si: ShopItem, special: bool)
    requires |items| == |fromSpecial|
    ensures Specials(items + [si], fromSpecial + [special])
            == Specials(items, fromSpecial) + (if special then [si.item] else [])
  {
    assert (items + [si])[..|items|] == items;
    assert (fromSpecial + [special])[..|items|] == fromSpecial;
  }

  /** The number of slots the shop loop fills for `target`, as the loop is written. */
  function SlotsAsWritten(target: int): nat
  {
    if target < 0 then 0 else target + 1
  }

  /** The number of slots that the documented count range asks for. */
  function Slots(target: int): nat
  {
    if target < 0 then 0 else target
  }

  /**
   * With the default range [2, 5[, a draw of 4 makes the loop as written fill
   * 5 slots, outside the range.
   */
  lemma SlotsAsWrittenLeaveRange()
    ensures 2 <= 4 < 5 && !(2 <= SlotsAsWritten(4) < 5)
  {
  }

  /** The corrected count stays in the drawn range. */
  lemma {:induction false} SlotsInRange(min: int, max: int, target: int)
    requires 0 <= min <= target < max
    ensures min <= Slots(target) < max
    ensures SlotsAsWritten(target) == Slots(target) + 1
  {
  }

  class ShopFactory {
    const commonPool: seq<Collectible>
    const specialPool: seq<Collectible>
    const qualityLevel: int
    const minItems: int
    const maxItems: int
    const discount: bool
    /** The game's price unit, a lower bound of the price jitter. */
    const baseUnit: nat
    const rm: RandomManager

    constructor (commonPool: seq<Collectible>, specialPool: seq<Collectible>, qualityLevel: int,
                 minItems: int, maxItems: int, discount: bool, baseUnit: nat)
      ensures this.commonPool == commonPool && this.specialPool == specialPool
      ensures this.qualityLevel == qualityLevel && this.discount == discount
      ensures this.minItems == minItems && this.maxItems == maxItems
      ensures this.baseUnit == baseUnit
      ensures fresh(rm)
    {
      this.commonPool := commonPool;
      this.specialPool := specialPool;
      this.qualityLevel := qualityLevel;
      this.minItems := minItems;
      this.maxItems := maxItems;
      this.discount := discount;
      this.baseUnit := baseUnit;
      rm := new RandomManager();
    }

    /**
     * What the shop promises about a produced list: each slot is special only
     * while the quality level is positive, the specials are drawn without
     * replacement from the special pool, the other items come from the common
     * pool, every price is fair, and if the slot with quality level 1 is in
     * the list then it is special unless the special pool is used up.
     */
    ghost predicate Offer(items: seq<ShopItem>, fromSpecial: seq<bool>)
      reads this
    {
      && |fromSpecial| == |items|
      && SlotsOk(items, fromSpecial)
      && SpecialsOk(items, fromSpecial)
    }

    /** The per-slot part of `Offer`. */
    ghost predicate SlotsOk(items: seq<ShopItem>, fromSpecial: seq<bool>)
      requires |fromSpecial| == |items|
      reads this
    {
      && (forall k | 0 <= k < |items| :: fromSpecial[k] ==> k < qualityLevel)
      && (forall k | 0 <= k < |items| :: !fromSpecial[k] ==> items[k].item in commonPool)
      && (forall k | 0 <= k < |items| :: FairPrice(items[k], discount, baseUnit))
    }

    /** The special-pool part of `Offer`. */
    ghost predicate SpecialsOk(items: seq<ShopItem>, fromSpecial: seq<bool>)
      requires |fromSpecial| == |items|
      reads this
    {
      && multiset(Specials(items, fromSpecial)) <= multiset(specialPool)
      && (1 <= qualityLevel <= |items| ==>
            fromSpecial[qualityLevel - 1] || |Specials(items, fromSpecial)| == |specialPool|)
    }

    /** A shop offer has at most as many specials as the special pool and the quality level allow. */
    lemma OfferSpecialBound(items: seq<ShopItem>, fromSpecial: seq<bool>)
      requires Offer(items, fromSpecial)
      ensures |Specials(items, fromSpecial)| <= |specialPool|
      ensures |Specials(items, fromSpecial)| <= if qualityLevel < 0 then 0 else qualityLevel
    {
      var s := Specials(items, fromSpecial);
      assert multiset(specialPool) == multiset(s) + (multiset(specialPool) - multiset(s));
      SpecialsBelowQuality(items, fromSpecial, qualityLevel);
    }

    /** One more slot, filled as `Slot` promises, keeps the list an offer. */
    lemma OfferSnoc(items: seq<ShopItem>, fromSpecial: seq<bool>, specials: seq<Collectible>,
                    si: ShopItem, special: bool, rest: seq<Collectible>)
      requires Offer(items, fromSpecial)
      requires multiset(Specials(items, fromSpecial)) + multiset(specials) == multiset(specialPool)
      requires special ==> |items| < qualityLevel && multiset(rest) + multiset{si.item} == multiset(specials)
      requires !special ==> rest == specials && si.item in commonPool
      requires FairPrice(si, discount, baseUnit)
      requires qualityLevel - |items| == 1 && |specials| > 0 ==> special
      ensures Offer(items + [si], fromSpecial + [special])
      ensures multiset(Specials(items + [si], fromSpecial + [special])) + multiset(rest) == multiset(specialPool)
    {
      SlotsSnoc(items, fromSpecial, si, special);
      SpecialsOkSnoc(items, fromSpecial, specials, si, special, rest);
    }

    lemma SlotsSnoc(items: seq<ShopItem>, fromSpecial: seq<bool>, si: ShopItem, special: bool)
      requires |fromSpecial| == |items| && SlotsOk(items, fromSpecial)
      requires special ==> |items| < qualityLevel
      requires !special ==> si.item in commonPool
      requires FairPrice(si, discount, baseUnit)
      ensures SlotsOk(items + [si], fromSpecial + [special])
    {
      var items', flags' := items + [si], fromSpecial + [special];
      forall k | 0 <= k < |items'|
        ensures (flags'[k] ==> k < qualityLevel) && (!flags'[k] ==> items'[k].item in commonPool)
        ensures FairPrice(items'[k], discount, baseUnit)
      {
        if k < |items| {
          assert items'[k] == items[k] && flags'[k] == fromSpecial[k];
        }
      }
    }

    lemma SpecialsOkSnoc(items: seq<ShopItem>, fromSpecial: seq<bool>, specials: seq<Collectible>,
                         si: ShopItem, special: bool, rest: seq<Collectible>)
      requires |fromSpecial| == |items| && SpecialsOk(items, fromSpecial)
      requires multiset(Specials(items, fromSpecial)) + multiset(specials) == multiset(specialPool)
      requires special ==> |items| < qualityLevel && multiset(rest) + multiset{si.item} == multiset(specials)
      requires !special ==> rest == specials
      requires qualityLevel - |items| == 1 && |specials| > 0 ==> special
      ensures SpecialsOk(items + [si], fromSpecial + [special])
      ensures multiset(Specials(items + [si], fromSpecial + [special])) + multiset(rest) == multiset(specialPool)
    {
      SpecialsSnoc(items, fromSpecial, si, special);
      var after := Specials(items + [si], fromSpecial + [special]);
      assert multiset(after) + multiset(rest) == multiset(specialPool);
      if qualityLevel == |items| + 1 && !special {
        assert multiset(after) == multiset(specialPool);
        assert |after| == |multiset(after)|;
      } else if 1 <= qualityLevel <= |items| {
        assert (fromSpecial + [special])[qualityLevel - 1] == fromSpecial[qualityLevel - 1];
      }
    }

    /** The price of one item: halved in discount mode, otherwise jittered. */
    method Price(item: Collectible) returns (si: ShopItem)
      modifies rm
      ensures si.item == item && FairPrice(si, discount, baseUnit)
    {
      var p := item.defaultPrice;
      var price;
      if discount {
        price := RoundHalfEven(p as real / 2.0);
      } else {
        var sigma := Sigma(baseUnit, p);
        var offset := rm.GetBetween(-sigma, sigma);
        price := p + RoundHalfEven(offset);
      }
      si := ShopItem(item, price);
    }

    /**
     * Fills one slot: with quality level `quality` the slot tries the special
     * pool with chance 1/quality; a special draw removes the item from
     * `specials`, anything else is drawn from the common pool, which is an
     * error when that pool is empty.
     */
    method Slot(quality: int, specials: seq<Collectible>)
      returns (r: Option<ShopItem>, special: bool, rest: seq<Collectible>)
      modifies rm
      ensures special ==> r.Some? && quality > 0 && |specials| > 0
      ensures special ==> multiset(rest) + multiset{r.value.item} == multiset(specials)
      ensures !special ==> rest == specials
      ensures !special ==> (r.Some? <==> |commonPool| > 0)
      ensures !special && r.Some? ==> r.value.item in commonPool
      ensures r.Some? ==> FairPrice(r.value, discount, baseUnit)
      ensures quality == 1 && |specials| > 0 ==> special
    {
      var getsSpecial := false;
      if quality > 0 {
        var chance := rm.Get();
        getsSpecial := chance < 1.0 / quality as real;
      }
      var item;
      if getsSpecial && |specials| > 0 {
        var k := rm.GetIndex(|specials|);
        item := specials[k];
        rest := RemoveAt(specials, k);
        special := true;
      } else {
        if |commonPool| == 0 {
          return None, false, specials;
        }
        var k := rm.GetIndex(|commonPool|);
        item := commonPool[k];
        rest := specials;
        special := false;
      }
      var si := Price(item);
      r := Some(si);
    }

    /**
     * The item count: `numOfItems` when positive, otherwise a draw from
     * [minItems, maxItems[.
     */
    method Target(numOfItems: int) returns (target: int)
      requires numOfItems <= 0 ==> minItems < maxItems
      modifies rm
      ensures numOfItems > 0 ==> target == numOfItems
      ensures numOfItems <= 0 ==> minItems <= target < maxItems
    {
      target := numOfItems;
      if numOfItems <= 0 {
        target := rm.GetInt(minItems, maxItems);
      }
    }

    /**
     * Produces a shop offer, as written: the loop keeps adding items while
     * the list is not longer than the target, so it ends with one item more
     * than the target. The factory itself is not changed.
     */
    method Produce(numOfItems: int) returns (r: Option<seq<ShopItem>>, target: int, ghost fromSpecial: seq<bool>)
      requires numOfItems <= 0 ==> minItems < maxItems
      modifies rm
      ensures numOfItems > 0 ==> target == numOfItems
      ensures numOfItems <= 0 ==> minItems <= target < maxItems
      ensures |commonPool| > 0 ==> r.Some?
      ensures r.Some? ==> |r.value| == SlotsAsWritten(target) && Offer(r.value, fromSpecial)
    {
      target := Target(numOfItems);
      r, fromSpecial := Fill(SlotsAsWritten(target));
    }

    /** The corrected shop offer: exactly the target count of items. */
    method ProduceExact(numOfItems: int) returns (r: Option<seq<ShopItem>>, target: int, ghost fromSpecial: seq<bool>)
      requires numOfItems <= 0 ==> minItems < maxItems
      modifies rm
      ensures numOfItems > 0 ==> target == numOfItems
      ensures numOfItems <= 0 ==> minItems <= target < maxItems
      ensures |commonPool| > 0 ==> r.Some?
      ensures r.Some? ==> |r.value| == Slots(target) && Offer(r.value, fromSpecial)
      ensures r.Some? && numOfItems <= 0 && 0 <= minItems ==> minItems <= |r.value| < maxItems
    {
      target := Target(numOfItems);
      r, fromSpecial := Fill(Slots(target));
      if numOfItems <= 0 && 0 <= minItems {
        SlotsInRange(minItems, maxItems, target);
      }
    }

    /**
     * The shop loop: `count` slots, the quality level dropping by one after
     * every slot, specials drawn from a private copy of the special pool.
     */
    method Fill(count: nat) returns (r: Option<seq<ShopItem>>, ghost fromSpecial: seq<bool>)
      modifies rm
      ensures |commonPool| > 0 ==> r.Some?
      ensures r.Some? ==> |r.value| == count && Offer(r.value, fromSpecial)
    {
      var items: seq<ShopItem> := [];
      var specials := specialPool;
      var quality := qualityLevel;
      fromSpecial := [];
      while |items| < count
        invariant |items| <= count && |fromSpecial| == |items|
        invariant quality == qualityLevel - |items|
        invariant multiset(Specials(items, fromSpecial)) + multiset(specials) == multiset(specialPool)
        invariant Offer(items, fromSpecial)
        decreases count - |items|
      {
        var slot, special, rest := Slot(quality, specials);
        if slot.None? {
          return None, fromSpecial;
        }
        OfferSnoc(items, fromSpecial, specials, slot.value, special, rest);
        items := items + [slot.value];
        fromSpecial := fromSpecial + [special];
        specials := rest;
        quality := quality - 1;
      }
      r := Some(items);
    }
  }
}
