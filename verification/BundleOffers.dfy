/** What the storefront says about each offer, in terms of the cart lines, which offer it shows, and that the least
    saving it announces is not too low either (src/modules/promotions/bundles/bundle-pricing.util.ts). */
module BundleOffers {
  import opened Options
  import opened Sums
  import opened BundlePricing
  import opened BundleGrouping
  import opened BundleProgress
  import opened BundleOptimality
  import opened BundleRounds
  import opened BundlePromise

  // ------------------------------------------------------------ the guaranteed minimum is exact

  /** A complete group of different models, within the bounds the bundle advertises. */
  ghost predicate AdvertisedGroup(b: Bundle, group: seq<Unit>) {
    && |group| == ValueOr(b.bundleSize, 2)
    && (forall i, j :: 0 <= i < j < |group| ==> group[i].phoneModelId != group[j].phoneModelId)
    && (forall u :: u in group ==>
          b.minUnitPrice.Some? && u.price >= b.minUnitPrice.value && u.surcharge <= ValueOr(b.maxSurcharge, 0))
  }

  /** What a group saves: its units' prices less the price of the group and its surcharges. */
  function Saving(b: Bundle, group: seq<Unit>): int { SumBy(group, PriceOf) - b.fixedTotal - SumBy(group, SurchargeOf) }

  predicate SavesNoMore(b: Bundle, group: seq<Unit>, least: int) {
    if least > 0 then Saving(b, group) == least else Saving(b, group) <= 0
  }

  function Name(n: nat): string { if n == 0 then "" else Name(n - 1) + "m" }

  lemma {:induction false} NameLength(n: nat)
    ensures |Name(n)| == n
  {
    if n > 0 {
      NameLength(n - 1);
    }
  }

  function CheapestGroup(b: Bundle, n: nat): seq<Unit> {
    if n == 0 then [] else CheapestGroup(b, n - 1) + [Unit(0, Some(Name(n - 1)), ValueOr(b.minUnitPrice, 0), ValueOr(b.maxSurcharge, 0))]
  }

  lemma {:induction false} CheapestGroupIs(b: Bundle, n: nat)
    ensures var group := CheapestGroup(b, n);
      && |group| == n
      && (forall i :: 0 <= i < n ==>
            && group[i].phoneModelId == Some(Name(i))
            && group[i].price == ValueOr(b.minUnitPrice, 0) && group[i].surcharge == ValueOr(b.maxSurcharge, 0))
      && SumBy(group, PriceOf) == n * ValueOr(b.minUnitPrice, 0) && SumBy(group, SurchargeOf) == n * ValueOr(b.maxSurcharge, 0)
  {
    if n > 0 {
      CheapestGroupIs(b, n - 1);
      var unit := Unit(0, Some(Name(n - 1)), ValueOr(b.minUnitPrice, 0), ValueOr(b.maxSurcharge, 0));
      SumSnoc(CheapestGroup(b, n - 1), unit, PriceOf);
      SumSnoc(CheapestGroup(b, n - 1), unit, SurchargeOf);
      OneMoreTimes(n, ValueOr(b.minUnitPrice, 0));
      OneMoreTimes(n, ValueOr(b.maxSurcharge, 0));
    }
  }

  /** The announced least saving is the least there is: every complete group within the bounds saves at least that
      when it is positive, and some complete group of different models saves no more. Without a least price nothing
      is announced. */
  lemma {:induction false} GuaranteedMinimumIsExact(b: Bundle)
    requires ValueOr(b.bundleSize, 2) >= 2
    ensures GuaranteedMinSavings(b) >= 0 && (b.minUnitPrice.None? ==> GuaranteedMinSavings(b) == 0)
    ensures GuaranteedMinSavings(b) > 0 ==> forall group :: AdvertisedGroup(b, group) ==> Saving(b, group) >= GuaranteedMinSavings(b)
    ensures b.minUnitPrice.Some? ==> exists group :: AdvertisedGroup(b, group) && SavesNoMore(b, group, GuaranteedMinSavings(b))
  {
    if GuaranteedMinSavings(b) > 0 {
      forall group | AdvertisedGroup(b, group) ensures Saving(b, group) >= GuaranteedMinSavings(b) {
        GuaranteedMinimumIsSaved(b, group);
      }
    }
    if b.minUnitPrice.Some? {
      var n := SizeOf(b);
      var group := CheapestGroup(b, n);
      CheapestGroupIs(b, n);
      forall i, j | 0 <= i < j < n ensures group[i].phoneModelId != group[j].phoneModelId {
        NameLength(i);
        NameLength(j);
      }
      assert AdvertisedGroup(b, group) && SavesNoMore(b, group, GuaranteedMinSavings(b));
    }
  }

  // ------------------------------------------------------------ an offer in terms of the cart

  /** Pieces of a line that may fill the bundle. */
  function EligibleIn(b: Bundle): Line -> int { (l: Line) => if MayFill(l, b) then l.quantity else 0 }

  /** Those that no granted group uses. */
  function FreeIn(b: Bundle, instances: seq<Instance>): Line -> int {
    (l: Line) =>
      var left := l.quantity - SumBy(instances, UsesOf(l.lineIndex));
      if MayFill(l, b) && left > 0 then left else 0
  }

  function FreeWorth(b: Bundle, instances: seq<Instance>): Line -> int {
    (l: Line) => FreeIn(b, instances)(l) * l.unitPrice
  }

  function GroupOf(id: string): Instance -> int { (i: Instance) => if i.bundleId == id then 1 else 0 }

  function ModelName(l: Line): string { if l.phoneModelId.Some? then l.phoneModelId.value else "__no_phone_model__" }

  /** A line with free pieces of this model at this price. */
  ghost predicate Offered(lines: seq<Line>, b: Bundle, instances: seq<Instance>, key: string, price: int) {
    exists i :: 0 <= i < |lines| && FreeIn(b, instances)(lines[i]) > 0 && ModelName(lines[i]) == key && lines[i].unitPrice == price
  }

  /** One price for each model with free pieces: the least of its prices. */
  ghost predicate LeastPerModel(lines: seq<Line>, b: Bundle, instances: seq<Instance>, prices: seq<ModelPrice>) {
    && (forall i, j :: 0 <= i < j < |prices| ==> prices[i].key != prices[j].key)
    && (forall i :: 0 <= i < |prices| ==> Offered(lines, b, instances, prices[i].key, prices[i].price))
    && (forall key, price :: Offered(lines, b, instances, key, price) ==> Knows(prices, key, price))
  }

  /** What counts towards the next group, and what it is worth. */
  function HaveOf(lines: seq<Line>, b: Bundle, instances: seq<Instance>, prices: seq<ModelPrice>): int {
    if b.requireDifferentPhoneModels then |prices| else SumBy(lines, FreeIn(b, instances))
  }

  function WorthOf(lines: seq<Line>, b: Bundle, instances: seq<Instance>, prices: seq<ModelPrice>): int {
    if b.requireDifferentPhoneModels then SumBy(prices, ModelPriceOf) else SumBy(lines, FreeWorth(b, instances))
  }

  /** What an offer says. `prices` are the least price of each model with free pieces, which is what counts towards
      the next group when models must differ; all free pieces count when they need not. */
  ghost predicate SaysOf(p: Progress, lines: seq<Line>, b: Bundle, instances: seq<Instance>, couponIsApplied: bool, prices: seq<ModelPrice>) {
    var size, groups := ValueOr(b.bundleSize, 2), SumBy(instances, GroupOf(b.id));
    var have, worth := HaveOf(lines, b, instances, prices), WorthOf(lines, b, instances, prices);
    && p.bundleSize == size && p.fixedTotal == b.fixedTotal && p.currency == b.currency
    && p.requireDifferentPhoneModels == b.requireDifferentPhoneModels && p.isRepeatable == b.isRepeatable
    && p.allowCouponStacking == b.allowCouponStacking
    && p.blockedByCoupon == (couponIsApplied && !b.allowCouponStacking)
    && p.eligibleUnits == SumBy(lines, EligibleIn(b))
    && p.groupsApplied == (if p.blockedByCoupon then 0 else groups)
    && p.unitsNeeded == (if (b.isRepeatable || groups == 0) && have < size then Some(size - have) else None)
    && p.savingsIfCompleted == LeastSaving(b, p, worth)
  }

  /** Announced exactly when it is certain and positive: the free pieces at their own price and the missing ones at
      the least, for the price of the group with the highest surcharges. */
  function LeastSaving(b: Bundle, p: Progress, worth: int): Option<int> {
    if p.unitsNeeded.Some? && b.minUnitPrice.Some? && !p.blockedByCoupon
       && worth + p.unitsNeeded.value * b.minUnitPrice.value > b.fixedTotal + p.bundleSize * ValueOr(b.maxSurcharge, 0)
    then Some(worth + p.unitsNeeded.value * b.minUnitPrice.value - b.fixedTotal - p.bundleSize * ValueOr(b.maxSurcharge, 0))
    else None
  }

  lemma {:induction false} GroupsAreCounted(instances: seq<Instance>, id: string)
    ensures AppliedGroups(instances, id) == SumBy(instances, GroupOf(id)) >= 0
  {
    if instances != [] {
      GroupsAreCounted(instances[1..], id);
    }
  }

  lemma {:induction false} FirstEligible(lines: seq<Line>, b: Bundle, instances: seq<Instance>)
    requires lines != []
    ensures FreeUnits(Eligible(lines, b), instances, b)
         == Copies(UnitFor(lines[0], b), FreeIn(b, instances)(lines[0])) + FreeUnits(Eligible(lines[1..], b), instances, b)
    ensures SumBy(Eligible(lines, b), QuantityIn) == EligibleIn(b)(lines[0]) + SumBy(Eligible(lines[1..], b), QuantityIn)
  {
    var later := Eligible(lines[1..], b);
    assert ([lines[0]] + later)[1..] == later && [] + later == later;
    assert forall u: Unit, n: int :: n <= 0 ==> Copies(u, n) == [];
  }

  lemma {:induction false} CopiesWorth(u: Unit, n: nat)
    ensures |Copies(u, n)| == n && SumBy(Copies(u, n), PriceOf) == n * u.price
    ensures forall x :: x in Copies(u, n) <==> x == u && n > 0
  {
    if n > 0 {
      CopiesWorth(u, n - 1);
      SumSnoc(Copies(u, n - 1), u, PriceOf);
      OneMoreTimes(n, u.price);
    }
  }

  lemma {:induction false} FreeUnitsByLine(lines: seq<Line>, b: Bundle, instances: seq<Instance>)
    ensures var free := FreeUnits(Eligible(lines, b), instances, b);
      && |free| == SumBy(lines, FreeIn(b, instances))
      && Subtotal(free) == SumBy(lines, FreeWorth(b, instances))
      && SumBy(Eligible(lines, b), QuantityIn) == SumBy(lines, EligibleIn(b))
  {
    if lines != [] {
      FreeUnitsByLine(lines[1..], b, instances);
      FirstEligible(lines, b, instances);
      var unit, n := UnitFor(lines[0], b), FreeIn(b, instances)(lines[0]);
      CopiesWorth(unit, n);
      SumConcat(Copies(unit, n), FreeUnits(Eligible(lines[1..], b), instances, b), PriceOf);
    }
  }

  lemma {:induction false} FreeUnitsAreOffered(lines: seq<Line>, b: Bundle, instances: seq<Instance>, key: string, price: int)
    ensures Offered(lines, b, instances, key, price)
       <==> exists u :: u in FreeUnits(Eligible(lines, b), instances, b) && ModelKey(u) == key && u.price == price
  {
    if lines != [] {
      var first, later := lines[0], FreeUnits(Eligible(lines[1..], b), instances, b);
      var unit, n := UnitFor(first, b), FreeIn(b, instances)(first);
      FreeUnitsAreOffered(lines[1..], b, instances, key, price);
      FirstEligible(lines, b, instances);
      CopiesWorth(unit, n);
      OfferedFirst(lines, b, instances, key, price);
      var own := n > 0 && ModelKey(unit) == key && unit.price == price;
      forall u ensures u in Copies(unit, n) + later <==> (u == unit && n > 0) || u in later {
      }
      if own {
        assert unit in Copies(unit, n) + later;
      }
      if u :| u in later && ModelKey(u) == key && u.price == price {
        assert u in Copies(unit, n) + later;
      }
    }
  }

  lemma {:induction false} OfferedFirst(lines: seq<Line>, b: Bundle, instances: seq<Instance>, key: string, price: int)
    requires lines != []
    ensures Offered(lines, b, instances, key, price)
       <==> || Offered(lines[1..], b, instances, key, price)
            || (FreeIn(b, instances)(lines[0]) > 0 && ModelName(lines[0]) == key && lines[0].unitPrice == price)
  {
    if Offered(lines[1..], b, instances, key, price) {
      var i :| && 0 <= i < |lines[1..]| && FreeIn(b, instances)(lines[1..][i]) > 0
               && ModelName(lines[1..][i]) == key && lines[1..][i].unitPrice == price;
      assert lines[i + 1] == lines[1..][i];
    }
    if Offered(lines, b, instances, key, price) {
      var i :| 0 <= i < |lines| && FreeIn(b, instances)(lines[i]) > 0 && ModelName(lines[i]) == key && lines[i].unitPrice == price;
      assert i > 0 ==> lines[1..][i - 1] == lines[i];
    }
  }

  /** A unit of this model at exactly this price. */
  ghost predicate HasPrice(free: seq<Unit>, p: ModelPrice) { exists u :: u in free && ModelKey(u) == p.key && u.price == p.price }

  lemma {:induction false} NotedIsKnownOrNew(known: seq<ModelPrice>, key: string, price: int, p: ModelPrice)
    requires p in NoteModelPrice(known, key, price)
    ensures p in known || p == ModelPrice(key, price)
  {
    if known != [] && known[0].key != key && p != known[0] {
      NotedIsKnownOrNew(known[1..], key, price, p);
    }
  }

  lemma {:induction false} CheapestArePrices(free: seq<Unit>, p: ModelPrice)
    requires p in CheapestPerModel(free)
    ensures HasPrice(free, p)
  {
    var n := |free| - 1;
    var known := CheapestPerModel(free[..n]);
    NotedIsKnownOrNew(known, ModelKey(free[n]), free[n].price, p);
    if p in known {
      CheapestArePrices(free[..n], p);
      var u :| u in free[..n] && ModelKey(u) == p.key && u.price == p.price;
      assert u in free;
    } else {
      assert free[n] in free;
    }
  }

  lemma {:induction false} CheapestAreLeast(lines: seq<Line>, b: Bundle, instances: seq<Instance>)
    requires b.requireDifferentPhoneModels
    ensures LeastPerModel(lines, b, instances, CheapestPerModel(FreeUnits(Eligible(lines, b), instances, b)))
  {
    var free := FreeUnits(Eligible(lines, b), instances, b);
    var prices := CheapestPerModel(free);
    CheapestKnown(b, free);
    forall i | 0 <= i < |prices| ensures Offered(lines, b, instances, prices[i].key, prices[i].price) {
      CheapestArePrices(free, prices[i]);
      FreeUnitsAreOffered(lines, b, instances, prices[i].key, prices[i].price);
    }
    forall key, price | Offered(lines, b, instances, key, price) ensures Knows(prices, key, price) {
      FreeUnitsAreOffered(lines, b, instances, key, price);
      var u :| u in free && ModelKey(u) == key && u.price == price;
      assert Knows(prices, KeyOf(b, u), u.price);
    }
  }

  lemma {:induction false} NextGroupIsTrue(lines: seq<Line>, b: Bundle, instances: seq<Instance>, prices: seq<ModelPrice>)
    requires prices == CheapestPerModel(FreeUnits(Eligible(lines, b), instances, b))
    ensures var free, groups := FreeUnits(Eligible(lines, b), instances, b), AppliedGroups(instances, b.id);
            var have := HaveOf(lines, b, instances, prices);
      && groups == SumBy(instances, GroupOf(b.id))
      && UnitsNeeded(b, groups, free) == (if (b.isRepeatable || groups == 0) && have < SizeOf(b) then Some(SizeOf(b) - have) else None)
      && (UnitsNeeded(b, groups, free).Some? ==> LeftoverPrice(b, groups, free) == WorthOf(lines, b, instances, prices))
  {
    FreeUnitsByLine(lines, b, instances);
    GroupsAreCounted(instances, b.id);
  }

  lemma {:induction false} SavingIsTrue(b: Bundle, p: Progress, worth: int)
    requires p.bundleSize == SizeOf(b)
    ensures SavingsIfCompleted(b, p.unitsNeeded, worth, p.blockedByCoupon) == LeastSaving(b, p, worth)
  {
  }

  lemma {:induction false} OfferedIff(lines: seq<Line>, b: Bundle, instances: seq<Instance>, couponIsApplied: bool)
    ensures ProgressFor(lines, b, instances, couponIsApplied).Some? <==> ValueOr(b.bundleSize, 2) >= 2 && SumBy(lines, EligibleIn(b)) > 0
  {
    FreeUnitsByLine(lines, b, instances);
    SumNonNegative(lines, EligibleIn(b));
  }

  /** Every bundle of at least two units with an eligible piece in the cart is offered, and its offer is true of the
      cart, figure by figure. */
  lemma {:induction false} OffersAreTrue(lines: seq<Line>, b: Bundle, instances: seq<Instance>, couponIsApplied: bool)
    returns (prices: seq<ModelPrice>)
    ensures var offer := ProgressFor(lines, b, instances, couponIsApplied);
      && (offer.Some? <==> ValueOr(b.bundleSize, 2) >= 2 && SumBy(lines, EligibleIn(b)) > 0)
      && (b.requireDifferentPhoneModels ==> LeastPerModel(lines, b, instances, prices))
      && (offer.Some? ==> SaysOf(offer.value, lines, b, instances, couponIsApplied, prices))
  {
    prices := CheapestPerModel(FreeUnits(Eligible(lines, b), instances, b));
    OfferedIff(lines, b, instances, couponIsApplied);
    if b.requireDifferentPhoneModels {
      CheapestAreLeast(lines, b, instances);
    }
    if ProgressFor(lines, b, instances, couponIsApplied).Some? {
      OfferSays(lines, b, instances, couponIsApplied, prices);
    }
  }

  lemma {:induction false} OfferSays(lines: seq<Line>, b: Bundle, instances: seq<Instance>, couponIsApplied: bool, prices: seq<ModelPrice>)
    requires prices == CheapestPerModel(FreeUnits(Eligible(lines, b), instances, b))
    requires ProgressFor(lines, b, instances, couponIsApplied).Some?
    ensures SaysOf(ProgressFor(lines, b, instances, couponIsApplied).value, lines, b, instances, couponIsApplied, prices)
  {
    var p := ProgressFor(lines, b, instances, couponIsApplied).value;
    NextGroupIsTrue(lines, b, instances, prices);
    SavingIsTrue(b, p, WorthOf(lines, b, instances, prices));
    FreeUnitsByLine(lines, b, instances);
  }

  // ------------------------------------------------------------ which offer is shown

  /** `x` comes before `y`: more groups granted; or as many, and fewer pieces missing; or as many of both, and a
      lower price per piece. An offer that says nothing about missing pieces comes after those that do. */
  predicate ComesBefore(x: Progress, y: Progress) {
    var far := (p: Progress) => if p.unitsNeeded.Some? then 0 else 1;
    var missing := (p: Progress) => if p.unitsNeeded.Some? then p.unitsNeeded.value else 0;
    if x.groupsApplied != y.groupsApplied then x.groupsApplied > y.groupsApplied
    else if far(x) != far(y) then far(x) < far(y)
    else if missing(x) != missing(y) then missing(x) < missing(y)
    else x.fixedTotal * y.bundleSize < y.fixedTotal * x.bundleSize
  }

  lemma {:induction false} BetterComesBefore(x: Progress, y: Progress)
    ensures Better(x, y) <==> ComesBefore(x, y)
  {
  }

  /** The offers of all bundles, in the order of the bundles. */
  ghost predicate OffersOf(offers: seq<Progress>, lines: seq<Line>, bundles: seq<Bundle>, instances: seq<Instance>, couponIsApplied: bool) {
    if bundles == [] then offers == []
    else
      var first := ProgressFor(lines, bundles[0], instances, couponIsApplied);
      if first.None? then OffersOf(offers, lines, bundles[1..], instances, couponIsApplied)
      else offers != [] && offers[0] == first.value && OffersOf(offers[1..], lines, bundles[1..], instances, couponIsApplied)
  }

  lemma {:induction false} CandidatesAreOffers(lines: seq<Line>, bundles: seq<Bundle>, instances: seq<Instance>, couponIsApplied: bool)
    ensures OffersOf(Candidates(lines, bundles, instances, couponIsApplied), lines, bundles, instances, couponIsApplied)
  {
    if bundles != [] {
      var later := Candidates(lines, bundles[1..], instances, couponIsApplied);
      CandidatesAreOffers(lines, bundles[1..], instances, couponIsApplied);
      var first := ProgressFor(lines, bundles[0], instances, couponIsApplied);
      if first.Some? {
        assert ([first.value] + later)[1..] == later;
      } else {
        assert [] + later == later;
      }
    }
  }

  /** The head of the offers: no offer comes before it, and it comes before every offer ahead of it in the list. */
  ghost predicate IsFirst(offers: seq<Progress>, i: nat) {
    && i < |offers|
    && (forall j :: 0 <= j < |offers| ==> !ComesBefore(offers[j], offers[i]))
    && (forall j :: 0 <= j < i ==> ComesBefore(offers[i], offers[j]))
  }

  lemma {:induction false} FirstIsKept(offers: seq<Progress>, i: nat, x: Progress)
    requires IsFirst(offers, i) && forall p :: p in offers + [x] ==> Shown(p)
    ensures IsFirst(offers + [x], if Better(x, offers[i]) then |offers| else i)
  {
    var more := offers + [x];
    BetterComesBefore(x, offers[i]);
    assert x in more && offers[i] in more && x == more[|offers|];
    if Better(x, offers[i]) {
      forall j | 0 <= j < |offers| ensures !ComesBefore(offers[j], x) && ComesBefore(x, offers[j]) {
        assert offers[j] == more[j] && offers[j] in more;
        BetterComesBefore(offers[j], offers[i]);
        BetterComesBefore(x, offers[j]);
        BetterComesBefore(offers[j], x);
        if !Better(x, offers[j]) {
          NotBetterTransitive(x, offers[j], offers[i]);
        } else {
          BetterIsAsymmetric(x, offers[j]);
        }
      }
    }
  }

  lemma {:induction false} BestIsFirst(done: seq<Progress>, i: nat, todo: seq<Progress>) returns (k: nat)
    requires IsFirst(done, i) && forall p :: p in done + todo ==> Shown(p)
    ensures IsFirst(done + todo, k) && (done + todo)[k] == BestOf(done[i], todo)
    decreases |todo|
  {
    if todo == [] {
      k := i;
      assert done + todo == done;
    } else {
      var more := done + [todo[0]];
      assert done + todo == more + todo[1..];
      assert forall p :: p in more ==> p in done + todo;
      FirstIsKept(done, i, todo[0]);
      k := BestIsFirst(more, if Better(todo[0], done[i]) then |done| else i, todo[1..]);
    }
  }

  /** The offer shown is the first of those that no other comes before. Nothing is shown only when no bundle has an
      offer. */
  lemma {:induction false} ShownOfferComesFirst(lines: seq<Line>, bundles: seq<Bundle>, instances: seq<Instance>, couponIsApplied: bool)
    ensures var shown := BundleProgressOf(lines, bundles, instances, couponIsApplied);
      exists offers ::
        && OffersOf(offers, lines, bundles, instances, couponIsApplied)
        && if offers == [] then shown.None? else exists i :: IsFirst(offers, i) && shown == Some(offers[i])
  {
    var offers := Candidates(lines, bundles, instances, couponIsApplied);
    CandidatesAreOffers(lines, bundles, instances, couponIsApplied);
    CandidatesAreShown(lines, bundles, instances, couponIsApplied);
    if offers != [] {
      assert offers == [offers[0]] + offers[1..];
      assert IsFirst([offers[0]], 0);
      var i := BestIsFirst([offers[0]], 0, offers[1..]);
      assert IsFirst(offers, i) && BundleProgressOf(lines, bundles, instances, couponIsApplied) == Some(offers[i]);
    }
  }

  // ------------------------------------------------------------ the order of units, and of model keys

  /** The units of this model at this price, in order. */
  function Alike(b: Bundle, units: seq<Unit>, key: string, price: int): seq<Unit> {
    if units == [] then []
    else (if KeyOf(b, units[0]) == key && units[0].price == price then [units[0]] else []) + Alike(b, units[1..], key, price)
  }

  lemma {:induction false} InsertedFirst(b: Bundle, u: Unit, sorted: seq<Unit>, key: string, price: int)
    requires Descending(sorted)
    ensures Alike(b, InsertByPrice(u, sorted), key, price)
         == (if KeyOf(b, u) == key && u.price == price then [u] else []) + Alike(b, sorted, key, price)
  {
    if sorted == [] || u.price >= sorted[0].price {
      assert InsertByPrice(u, sorted)[1..] == sorted;
    } else {
      var first, rest := sorted[0], sorted[1..];
      assert forall i :: 0 <= i < |rest| ==> rest[i] == sorted[i + 1];
      InsertedFirst(b, u, rest, key, price);
      assert InsertByPrice(u, sorted)[1..] == InsertByPrice(u, rest);
    }
  }

  lemma {:induction false} SortingKeepsOrder(b: Bundle, units: seq<Unit>, key: string, price: int)
    ensures Alike(b, DearestFirst(units), key, price) == Alike(b, units, key, price)
  {
    if units != [] {
      SortingKeepsOrder(b, units[1..], key, price);
      SortDescends(units[1..]);
      InsertedFirst(b, units[0], DearestFirst(units[1..]), key, price);
    }
  }

  lemma {:induction false} AlikeConcat(b: Bundle, x: seq<Unit>, y: seq<Unit>, key: string, price: int)
    ensures Alike(b, x + y, key, price) == Alike(b, x, key, price) + Alike(b, y, key, price)
  {
    if x == [] {
      assert x + y == y;
    } else {
      assert (x + y)[1..] == x[1..] + y;
      AlikeConcat(b, x[1..], y, key, price);
    }
  }

  lemma {:induction false} AlikeInModel(b: Bundle, units: seq<Unit>, key: string, price: int)
    ensures Alike(b, OfKey(b, units, key), key, price) == Alike(b, units, key, price)
  {
    if units != [] {
      var n := |units| - 1;
      AlikeInModel(b, units[..n], key, price);
      assert units == units[..n] + [units[n]];
      AlikeConcat(b, units[..n], [units[n]], key, price);
      AlikeConcat(b, OfKey(b, units[..n], key), [units[n]], key, price);
      assert [units[n]][1..] == [];
    }
  }

  /** Each model's units are taken dearest first, and those of one price in cart order. */
  lemma {:induction false} UnitsAreInOrder(b: Bundle, units: seq<Unit>, key: string, price: int)
    ensures Descending(At(Buckets(b, units), key))
    ensures Alike(b, At(Buckets(b, units), key), key, price) == Alike(b, units, key, price)
    ensures multiset(At(Buckets(b, units), key)) == multiset(OfKey(b, units, key))
  {
    BucketsAt(b, units, key);
    SortDescends(OfKey(b, units, key));
    SortPermutes(OfKey(b, units, key));
    SortingKeepsOrder(b, OfKey(b, units, key), key, price);
    AlikeInModel(b, units, key, price);
  }

  /** `groups` are cut from the front of the units, `size` at a time, as long as another group is allowed, complete,
      and does not lose money. */
  ghost predicate CutFromFront(b: Bundle, size: nat, units: seq<Unit>, groups: seq<seq<Unit>>, formedAny: bool)
    decreases |groups|
  {
    var goesOn := (b.isRepeatable || !formedAny) && size <= |units| && Saving(b, units[..size]) >= 0;
    if groups == [] then !goesOn
    else goesOn && groups[0] == units[..size] && CutFromFront(b, size, units[size..], groups[1..], true)
  }

  lemma {:induction false} FormedFromFront(b: Bundle, size: nat, bucket: Bucket, formedAny: bool)
    requires !b.requireDifferentPhoneModels && size > 0
    ensures CutFromFront(b, size, bucket.units, FormGroups(b, size, [bucket], formedAny), formedAny)
    decreases |bucket.units|
  {
    if (b.isRepeatable || !formedAny) && size <= |bucket.units| {
      var rest := Bucket(bucket.key, bucket.units[size..]);
      NextFromBucket(b, size, bucket, formedAny);
      if Saving(b, bucket.units[..size]) >= 0 {
        FormedFromFront(b, size, rest, true);
        var later := FormGroups(b, size, [rest], true);
        assert ([bucket.units[..size]] + later)[1..] == later;
      }
    } else if b.isRepeatable || !formedAny {
      SumOne(bucket, UnitsIn);
      assert NonEmpty([bucket]) == (if bucket.units != [] then [bucket] else []);
    }
  }

  /** A bundle of any models groups the units dearest first, surcharges or not, until another group is not allowed,
      not complete, or would lose money. */
  lemma {:induction false} AnyModelsTakeTheDearest(b: Bundle, units: seq<Unit>)
    requires SizeOf(b) >= 2 && !b.requireDifferentPhoneModels && units != []
    ensures CutFromFront(b, SizeOf(b), DearestFirst(units), Groups(b, units), false)
  {
    SortedBucketForAll(b, units);
    FormedFromFront(b, SizeOf(b), Bucket("__all__", DearestFirst(units)), false);
  }

  /** Keys compare by their first difference; a key comes before its extensions. */
  lemma {:induction false} KeysCompareByFirstDifference(a: string, b: string)
    ensures KeyLess(a, b) <==> exists n :: 0 <= n <= |a| && n < |b| && a[..n] == b[..n] && (n == |a| || a[n] < b[n])
  {
    if a != [] && b != [] && a[0] == b[0] {
      KeysCompareByFirstDifference(a[1..], b[1..]);
      if n :| 0 <= n <= |a| && n < |b| && a[..n] == b[..n] && (n == |a| || a[n] < b[n]) {
        assert n > 0;
        assert a[1..][..n - 1] == a[..n][1..] && b[1..][..n - 1] == b[..n][1..];
        assert 0 <= n - 1 <= |a[1..]| && n - 1 < |b[1..]|;
      }
      if m :| 0 <= m <= |a[1..]| && m < |b[1..]| && a[1..][..m] == b[1..][..m] && (m == |a[1..]| || a[1..][m] < b[1..][m]) {
        assert a[..m + 1] == [a[0]] + a[1..][..m] && b[..m + 1] == [b[0]] + b[1..][..m];
      }
    } else if a == [] || (b != [] && a[0] < b[0]) {
      assert a[..0] == b[..0];
    }
  }
}
