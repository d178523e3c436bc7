/** The promise of `savingsIfCompleted` of a different-models bundle over whole carts: which bundles keep it for
    every cart that can be put together from the shop's listings, and a cart that loses where they do not
    (src/modules/promotions/bundles/bundle-pricing.util.ts). */
module BundleCarts {
  import opened Options
  import opened Sums
  import opened BundlePricing
  import opened BundleGrouping
  import opened BundleOptimality
  import opened BundleProgress
  import opened BundleRounds
  import opened BundlePromise
  import opened BundleFewModels
  import opened BundleLosingCart
  import opened BundleReordering

  // ------------------------------------------------------------ the storefront's figures

  function OfferFor(lines: seq<Line>, b: Bundle, couponIsApplied: bool): Option<Progress> {
    ProgressFor(lines, b, Instances(lines, [b], couponIsApplied), couponIsApplied)
  }

  function BundleDiscount(lines: seq<Line>, b: Bundle, couponIsApplied: bool): int {
    SumBy(Instances(lines, [b], couponIsApplied), DiscountAmountOf)
  }

  function FreeIn(lines: seq<Line>, b: Bundle, couponIsApplied: bool): seq<Unit> {
    FreeUnits(Eligible(lines, b), Instances(lines, [b], couponIsApplied), b)
  }

  function SavingAnnounced(lines: seq<Line>, b: Bundle, couponIsApplied: bool): Option<int> {
    var offer := OfferFor(lines, b, couponIsApplied);
    if offer.Some? then offer.value.savingsIfCompleted else None
  }

  /** The cart is shown a saving for completing the next group, and is completed: it holds `unitsNeeded` further
      units of new models, within the advertised bounds. */
  ghost predicate TakenUp(lines: seq<Line>, completed: seq<Line>, b: Bundle, couponIsApplied: bool, added: seq<Unit>) {
    && DistinctIndices(lines) && DistinctIndices(completed)
    && SavingAnnounced(lines, b, couponIsApplied).Some?
    && OfferFor(lines, b, couponIsApplied).value.unitsNeeded == Some(|added|)
    && AddsNewModels(b, CartUnits(lines, b), FreeIn(lines, b, couponIsApplied), added, CartUnits(completed, b))
    && b.minUnitPrice.Some? && WithinBounds(CartUnits(completed, b), b.minUnitPrice.value, WorstSurcharge(b))
  }

  /** Models with a free unit keep their units in order, unless every model has one surcharge and their order
      makes no difference. */
  ghost predicate SteadyOrder(lines: seq<Line>, completed: seq<Line>, b: Bundle, couponIsApplied: bool) {
    || KeepsOrder(b, CartUnits(lines, b), FreeIn(lines, b, couponIsApplied), CartUnits(completed, b))
    || OneSurchargePerModel(b, CartUnits(completed, b))
  }

  /** The cart as the shop changes it when units are added: quantities rise, and new lines come last. */
  ghost predicate Grown(lines: seq<Line>, completed: seq<Line>) {
    && |lines| <= |completed|
    && forall j :: 0 <= j < |lines| ==> completed[j] == lines[j].(quantity := completed[j].quantity) && completed[j].quantity >= lines[j].quantity
  }

  /** The bundle discount has risen by at least the saving shown. */
  ghost predicate Granted(lines: seq<Line>, completed: seq<Line>, b: Bundle, couponIsApplied: bool) {
    BundleDiscount(completed, b, couponIsApplied)
    >= BundleDiscount(lines, b, couponIsApplied) + ValueOr(SavingAnnounced(lines, b, couponIsApplied), 0)
  }

  function Is(u: Unit): Unit -> int { (v: Unit) => if v == u then 1 else 0 }

  lemma {:induction false} OccurrencesAreSum(units: seq<Unit>, u: Unit)
    ensures SumBy(units, Is(u)) == multiset(units)[u]
  {
    if units != [] {
      assert units == [units[0]] + units[1..];
      OccurrencesAreSum(units[1..], u);
    }
  }

  lemma {:induction false} FreeAndGrouped(lines: seq<Line>, b: Bundle, couponIsApplied: bool)
    requires DistinctIndices(lines) && !Skipped(b, couponIsApplied)
    ensures var units := CartUnits(lines, b);
      multiset(units) == multiset(Flatten(Groups(b, units))) + multiset(FreeIn(lines, b, couponIsApplied))
  {
    SingleBundleInstances(lines, b, couponIsApplied);
    var units := CartUnits(lines, b);
    var flat, free := Flatten(Groups(b, units)), FreeIn(lines, b, couponIsApplied);
    forall u: Unit ensures multiset(units)[u] == multiset(flat)[u] + multiset(free)[u] {
      FreeUnitsMeasure(lines, b, couponIsApplied, Is(u));
      OccurrencesAreSum(units, u);
      OccurrencesAreSum(flat, u);
      OccurrencesAreSum(free, u);
    }
  }

  lemma {:induction false} DiscountOfGroups(lines: seq<Line>, b: Bundle, couponIsApplied: bool)
    requires !Skipped(b, couponIsApplied)
    ensures BundleDiscount(lines, b, couponIsApplied) == TotalDiscount(b, Groups(b, CartUnits(lines, b)))
  {
    SingleBundleInstances(lines, b, couponIsApplied);
    InstancesSaveTheirGroups(b, Groups(b, CartUnits(lines, b)));
  }

  /** The figures of a cart's offer are an announcement about its units, and its discounts those of its groups. */
  lemma {:induction false} CartIsOffered(lines: seq<Line>, completed: seq<Line>, b: Bundle, couponIsApplied: bool, added: seq<Unit>)
    requires b.requireDifferentPhoneModels && TakenUp(lines, completed, b, couponIsApplied, added)
    ensures SizeOf(b) >= 2 && !Skipped(b, couponIsApplied)
    ensures Offered(b, CartUnits(lines, b), FreeIn(lines, b, couponIsApplied), added, CartUnits(completed, b),
                    SavingAnnounced(lines, b, couponIsApplied).value)
    ensures Granted(lines, completed, b, couponIsApplied) <==>
      TotalDiscount(b, Groups(b, CartUnits(completed, b)))
      >= TotalDiscount(b, Groups(b, CartUnits(lines, b))) + SavingAnnounced(lines, b, couponIsApplied).value
  {
    assert !Skipped(b, couponIsApplied);
    FreeAndGrouped(lines, b, couponIsApplied);
    SingleBundleInstances(lines, b, couponIsApplied);
    AllOfOneBundle(b, Groups(b, CartUnits(lines, b)));
    DiscountOfGroups(lines, b, couponIsApplied);
    DiscountOfGroups(completed, b, couponIsApplied);
  }

  /** A repeatable bundle grants what it shows whenever the rounds of the completed cart stay affordable. */
  lemma {:induction false} AffordableCartIsGranted(lines: seq<Line>, completed: seq<Line>, b: Bundle, couponIsApplied: bool, added: seq<Unit>)
    requires b.requireDifferentPhoneModels && TakenUp(lines, completed, b, couponIsApplied, added)
    requires SizeOf(b) >= 2 && b.isRepeatable && Affordable(b, SizeOf(b), Buckets(b, CartUnits(completed, b)))
    requires SteadyOrder(lines, completed, b, couponIsApplied)
    ensures Granted(lines, completed, b, couponIsApplied)
  {
    var units, more, free := CartUnits(lines, b), CartUnits(completed, b), FreeIn(lines, b, couponIsApplied);
    var saving := SavingAnnounced(lines, b, couponIsApplied).value;
    CartIsOffered(lines, completed, b, couponIsApplied, added);
    if OneSurchargePerModel(b, more) {
      AffordableKeepsPromiseInAnyOrder(b, units, free, added, more, saving);
    } else {
      AffordableKeepsPromise(b, units, free, added, more, saving);
    }
  }

  /** A bundle that is not repeatable grants what it shows, whatever the bounds and the order. */
  lemma {:induction false} OnlyGroupIsGranted(lines: seq<Line>, completed: seq<Line>, b: Bundle, couponIsApplied: bool, added: seq<Unit>)
    requires b.requireDifferentPhoneModels && TakenUp(lines, completed, b, couponIsApplied, added) && !b.isRepeatable
    ensures Granted(lines, completed, b, couponIsApplied)
  {
    CartIsOffered(lines, completed, b, couponIsApplied, added);
    FirstGroupKeepsPromise(b, CartUnits(lines, b), FreeIn(lines, b, couponIsApplied), added, CartUnits(completed, b),
                           SavingAnnounced(lines, b, couponIsApplied).value);
  }

  /** For carts: with one active different-models bundle that is not repeatable, or whose bounds cover the price
      of a group, putting `unitsNeeded` units of new models into the cart raises the bundle discount by at
      least `savingsIfCompleted`. */
  lemma {:induction false} ModelSavingsAreKept(lines: seq<Line>, completed: seq<Line>, b: Bundle, couponIsApplied: bool, added: seq<Unit>)
    requires b.requireDifferentPhoneModels && TakenUp(lines, completed, b, couponIsApplied, added)
    requires !b.isRepeatable || (BoundsCoverPrice(b) && SteadyOrder(lines, completed, b, couponIsApplied))
    ensures Granted(lines, completed, b, couponIsApplied)
  {
    if b.isRepeatable {
      CartIsOffered(lines, completed, b, couponIsApplied, added);
      BoundedIsAffordable(b, CartUnits(completed, b));
      AffordableCartIsGranted(lines, completed, b, couponIsApplied, added);
    } else {
      OnlyGroupIsGranted(lines, completed, b, couponIsApplied, added);
    }
  }

  // ------------------------------------------------------------ carts put together from listings

  /** The line sells this listing, at some price and in some quantity. */
  predicate Sells(line: Line, listing: Line) {
    line == listing.(lineIndex := line.lineIndex, unitPrice := line.unitPrice, quantity := line.quantity)
  }

  ghost predicate DrawnFrom(catalogue: seq<Line>, lines: seq<Line>) {
    forall l :: l in lines ==> exists listing :: listing in catalogue && Sells(l, listing)
  }

  /** The phone models of the listings that may fill the bundle. */
  function EligibleModels(catalogue: seq<Line>, b: Bundle): set<string> {
    set l | l in catalogue && MayFill(l, b) :: ModelOf(l)
  }

  /** Those with a listing at the highest surcharge. */
  function DearestModels(catalogue: seq<Line>, b: Bundle): set<string> {
    set l | l in catalogue && MayFill(l, b) && UnitFor(l, b).surcharge == WorstSurcharge(b) :: ModelOf(l)
  }

  /** All listings that may fill the bundle cost the same surcharge; so do all without surcharges. */
  ghost predicate FlatSurcharge(catalogue: seq<Line>, b: Bundle) {
    forall l :: l in catalogue && MayFill(l, b) ==> UnitFor(l, b).surcharge == WorstSurcharge(b)
  }

  /** Listings of the same model that may fill the bundle cost the same surcharge. */
  ghost predicate SurchargePerModel(catalogue: seq<Line>, b: Bundle) {
    forall l, m :: l in catalogue && m in catalogue && MayFill(l, b) && MayFill(m, b) && ModelOf(l) == ModelOf(m) ==>
      UnitFor(l, b).surcharge == UnitFor(m, b).surcharge
  }

  /** Every cart drawn from these listings, at whatever prices from the least price up, is granted the saving it
      is shown once it is completed, however its lines change on the way. */
  ghost predicate KeepsPromise(b: Bundle, catalogue: seq<Line>) {
    forall lines, completed, couponIsApplied, added ::
      DrawnFrom(catalogue, lines) && DrawnFrom(catalogue, completed) && TakenUp(lines, completed, b, couponIsApplied, added) ==>
        Granted(lines, completed, b, couponIsApplied)
  }

  /** The same for carts whose lines stay in a steady order. */
  ghost predicate KeepsPromiseInOrder(b: Bundle, catalogue: seq<Line>) {
    forall lines, completed, couponIsApplied, added ::
      DrawnFrom(catalogue, lines) && DrawnFrom(catalogue, completed) && TakenUp(lines, completed, b, couponIsApplied, added)
      && SteadyOrder(lines, completed, b, couponIsApplied) ==>
        Granted(lines, completed, b, couponIsApplied)
  }

  /** The same for carts to which the missing units are added in the shop's own way. */
  ghost predicate KeepsPromiseByAdding(b: Bundle, catalogue: seq<Line>) {
    forall lines, completed, couponIsApplied, added ::
      DrawnFrom(catalogue, lines) && DrawnFrom(catalogue, completed) && TakenUp(lines, completed, b, couponIsApplied, added)
      && Grown(lines, completed) ==>
        Granted(lines, completed, b, couponIsApplied)
  }

  lemma {:induction false} UnitIsListed(catalogue: seq<Line>, lines: seq<Line>, b: Bundle, u: Unit) returns (listing: Line)
    requires DrawnFrom(catalogue, lines) && b.requireDifferentPhoneModels && u in CartUnits(lines, b)
    ensures listing in catalogue && MayFill(listing, b)
    ensures KeyOf(b, u) == ModelOf(listing) && u.surcharge == UnitFor(listing, b).surcharge
  {
    EligibleAreLines(lines, b);
    UnitsComeFromLines(Eligible(lines, b), Quantities(lines), b);
    var l :| l in Eligible(lines, b) && u == UnitFor(l, b);
    listing :| listing in catalogue && Sells(l, listing);
  }

  lemma {:induction false} ModelsAreListed(catalogue: seq<Line>, lines: seq<Line>, b: Bundle)
    requires DrawnFrom(catalogue, lines) && b.requireDifferentPhoneModels
    ensures KeysIn(b, CartUnits(lines, b)) <= EligibleModels(catalogue, b)
    ensures FlatSurcharge(catalogue, b) ==> SameSurcharge(b, CartUnits(lines, b))
  {
    forall key | key in KeysIn(b, CartUnits(lines, b)) ensures key in EligibleModels(catalogue, b) {
      var i :| 0 <= i < |CartUnits(lines, b)| && KeyOf(b, CartUnits(lines, b)[i]) == key;
      var listing := UnitIsListed(catalogue, lines, b, CartUnits(lines, b)[i]);
    }
    forall u | u in CartUnits(lines, b) && FlatSurcharge(catalogue, b) ensures u.surcharge == WorstSurcharge(b) {
      var listing := UnitIsListed(catalogue, lines, b, u);
    }
  }

  lemma {:induction false} SurchargesAreListed(catalogue: seq<Line>, lines: seq<Line>, b: Bundle)
    requires DrawnFrom(catalogue, lines) && b.requireDifferentPhoneModels && SurchargePerModel(catalogue, b)
    ensures OneSurchargePerModel(b, CartUnits(lines, b))
  {
    forall u, v | u in CartUnits(lines, b) && v in CartUnits(lines, b) && KeyOf(b, u) == KeyOf(b, v) ensures u.surcharge == v.surcharge {
      var l := UnitIsListed(catalogue, lines, b, u);
      var m := UnitIsListed(catalogue, lines, b, v);
    }
  }

  /** Where every model has one surcharge, the order of the lines is no condition. */
  lemma {:induction false} OrderIsNoCondition(b: Bundle, catalogue: seq<Line>)
    requires b.requireDifferentPhoneModels && SurchargePerModel(catalogue, b)
    ensures KeepsPromise(b, catalogue) <==> KeepsPromiseInOrder(b, catalogue)
  {
    forall lines, completed, couponIsApplied | DrawnFrom(catalogue, completed) ensures SteadyOrder(lines, completed, b, couponIsApplied) {
      SurchargesAreListed(catalogue, completed, b);
    }
  }

  /** With no more eligible models than a group takes, or one more and a flat surcharge, each cart's promise is kept. */
  lemma {:induction false} FewModelsKeepPromise(b: Bundle, catalogue: seq<Line>)
    requires b.requireDifferentPhoneModels
    requires |EligibleModels(catalogue, b)| <= SizeOf(b) || (FlatSurcharge(catalogue, b) && |EligibleModels(catalogue, b)| == SizeOf(b) + 1)
    ensures KeepsPromiseInOrder(b, catalogue)
    ensures SurchargePerModel(catalogue, b) ==> KeepsPromise(b, catalogue)
  {
    forall lines, completed, couponIsApplied, added |
      DrawnFrom(catalogue, lines) && DrawnFrom(catalogue, completed) && TakenUp(lines, completed, b, couponIsApplied, added)
      && SteadyOrder(lines, completed, b, couponIsApplied)
      ensures Granted(lines, completed, b, couponIsApplied)
    {
      if b.isRepeatable {
        CartIsOffered(lines, completed, b, couponIsApplied, added);
        CompletedIsAffordable(catalogue, lines, completed, b, couponIsApplied, added);
        AffordableCartIsGranted(lines, completed, b, couponIsApplied, added);
      } else {
        OnlyGroupIsGranted(lines, completed, b, couponIsApplied, added);
      }
    }
    if SurchargePerModel(catalogue, b) {
      OrderIsNoCondition(b, catalogue);
    }
  }

  lemma {:induction false} CompletedIsAffordable(catalogue: seq<Line>, lines: seq<Line>, completed: seq<Line>, b: Bundle,
                                                 couponIsApplied: bool, added: seq<Unit>)
    requires b.requireDifferentPhoneModels && b.isRepeatable && SizeOf(b) >= 2
    requires |EligibleModels(catalogue, b)| <= SizeOf(b) || (FlatSurcharge(catalogue, b) && |EligibleModels(catalogue, b)| == SizeOf(b) + 1)
    requires DrawnFrom(catalogue, completed) && TakenUp(lines, completed, b, couponIsApplied, added)
    ensures Affordable(b, SizeOf(b), Buckets(b, CartUnits(completed, b)))
  {
    var units, free, more := CartUnits(lines, b), FreeIn(lines, b, couponIsApplied), CartUnits(completed, b);
    var saving := SavingAnnounced(lines, b, couponIsApplied).value;
    CartIsOffered(lines, completed, b, couponIsApplied, added);
    ModelsAreListed(catalogue, completed, b);
    SubsetIsSmaller(KeysIn(b, more), EligibleModels(catalogue, b));
    if |KeysIn(b, more)| <= SizeOf(b) {
      FewModelsAffordable(b, units, free, added, more, saving);
    } else {
      OneMoreModelAffordable(b, units, free, added, more, saving);
    }
  }

  // ------------------------------------------------------------ listings that cannot lose money

  function SurchargeIn(b: Bundle): Line -> int { (l: Line) => UnitFor(l, b).surcharge }

  /** Listings of `size` different models. */
  ghost predicate Assortment(catalogue: seq<Line>, b: Bundle, choice: seq<Line>) {
    && |choice| == SizeOf(b)
    && (forall l :: l in choice ==> l in catalogue && MayFill(l, b))
    && (forall i, j :: 0 <= i < j < |choice| ==> ModelOf(choice[i]) != ModelOf(choice[j]))
  }

  /** Whatever `size` models a group takes, and at their highest surcharges, the least price covers it. */
  ghost predicate ListingsCoverPrice(catalogue: seq<Line>, b: Bundle) {
    b.minUnitPrice.Some? && forall choice :: Assortment(catalogue, b, choice) ==>
      b.fixedTotal + SumBy(choice, SurchargeIn(b)) <= SizeOf(b) * b.minUnitPrice.value
  }

  lemma {:induction false} UnitHasListing(catalogue: seq<Line>, lines: seq<Line>, b: Bundle, u: Unit)
    requires DrawnFrom(catalogue, lines) && b.requireDifferentPhoneModels && u in CartUnits(lines, b)
    ensures exists l :: l in catalogue && MayFill(l, b) && KeyOf(b, u) == ModelOf(l) && u.surcharge == UnitFor(l, b).surcharge
  {
    var l := UnitIsListed(catalogue, lines, b, u);
  }

  ghost function ListingFor(catalogue: seq<Line>, lines: seq<Line>, b: Bundle, u: Unit): (listing: Line)
    requires DrawnFrom(catalogue, lines) && b.requireDifferentPhoneModels && u in CartUnits(lines, b)
    ensures listing in catalogue && MayFill(listing, b)
    ensures KeyOf(b, u) == ModelOf(listing) && u.surcharge == UnitFor(listing, b).surcharge
  {
    UnitHasListing(catalogue, lines, b, u);
    var l :| l in catalogue && MayFill(l, b) && KeyOf(b, u) == ModelOf(l) && u.surcharge == UnitFor(l, b).surcharge;
    l
  }

  /** A complete group of a cart is an assortment of its listings. */
  lemma {:induction false} GroupIsAssortment(catalogue: seq<Line>, lines: seq<Line>, b: Bundle, g: seq<Unit>) returns (choice: seq<Line>)
    requires DrawnFrom(catalogue, lines) && b.requireDifferentPhoneModels && SizeOf(b) >= 2
    requires CompleteGroup(b, SizeOf(b), g) && forall u :: u in g ==> u in CartUnits(lines, b)
    ensures Assortment(catalogue, b, choice) && SumBy(choice, SurchargeIn(b)) == SumBy(g, SurchargeOf)
  {
    choice := seq(|g|, i requires 0 <= i < |g| => ListingFor(catalogue, lines, b, g[i]));
    SumPointwise(choice, g, SurchargeIn(b), SurchargeOf);
  }

  lemma {:induction false} CoveredNeverNegative(catalogue: seq<Line>, lines: seq<Line>, b: Bundle)
    requires DrawnFrom(catalogue, lines) && b.requireDifferentPhoneModels && SizeOf(b) >= 2 && ListingsCoverPrice(catalogue, b)
    requires WithinBounds(CartUnits(lines, b), b.minUnitPrice.value, WorstSurcharge(b))
    ensures NeverNegative(b, SizeOf(b), multiset(CartUnits(lines, b)))
  {
    forall g: seq<Unit> | CompleteGroup(b, SizeOf(b), g) && multiset(g) <= multiset(CartUnits(lines, b)) ensures Discount(b, g) >= 0 {
      forall u | u in g ensures u in CartUnits(lines, b) && u.price >= b.minUnitPrice.value {
        assert u in multiset(g) && u in multiset(CartUnits(lines, b));
      }
      var choice := GroupIsAssortment(catalogue, lines, b, g);
      AtLeastEach(g, b.minUnitPrice.value);
    }
  }

  /** Then the promise is kept, also where the advertised bounds, which charge the highest surcharge for every
      unit, do not cover the price. */
  lemma {:induction false} CoveredListingsKeepPromise(b: Bundle, catalogue: seq<Line>)
    requires b.requireDifferentPhoneModels && ListingsCoverPrice(catalogue, b)
    ensures KeepsPromiseInOrder(b, catalogue)
    ensures SurchargePerModel(catalogue, b) ==> KeepsPromise(b, catalogue)
  {
    forall lines, completed, couponIsApplied, added |
      DrawnFrom(catalogue, lines) && DrawnFrom(catalogue, completed) && TakenUp(lines, completed, b, couponIsApplied, added)
      && SteadyOrder(lines, completed, b, couponIsApplied)
      ensures Granted(lines, completed, b, couponIsApplied)
    {
      CartIsOffered(lines, completed, b, couponIsApplied, added);
      if b.isRepeatable {
        BucketsHoldTheUnits(b, CartUnits(completed, b));
        CoveredNeverNegative(catalogue, completed, b);
        NeverNegativeIsAffordable(b, SizeOf(b), Buckets(b, CartUnits(completed, b)));
        AffordableCartIsGranted(lines, completed, b, couponIsApplied, added);
      } else {
        OnlyGroupIsGranted(lines, completed, b, couponIsApplied, added);
      }
    }
    if SurchargePerModel(catalogue, b) {
      OrderIsNoCondition(b, catalogue);
    }
  }

  // ------------------------------------------------------------ models in order

  lemma {:induction false} LastModel(keys: set<string>) returns (last: string)
    requires keys != {}
    ensures last in keys && forall x :: x in keys && x != last ==> KeyLess(x, last)
    decreases |keys|
  {
    var some :| some in keys;
    last := some;
    if keys - {some} != {} {
      var m := LastModel(keys - {some});
      KeyLessIsStrict(m, some);
      last := if KeyLess(m, some) then some else m;
      forall x | x in keys && x != last ensures KeyLess(x, last) {
        if x != m && x != some && last == some {
          KeyLessTransitive(x, m, some);
        }
      }
    }
  }

  ghost predicate InOrder(keys: seq<string>) {
    forall i, j :: 0 <= i < j < |keys| ==> KeyLess(keys[i], keys[j])
  }

  lemma {:induction false} SortModels(keys: set<string>) returns (sorted: seq<string>)
    ensures |sorted| == |keys| && InOrder(sorted) && forall key :: key in sorted ==> key in keys
    decreases |keys|
  {
    if keys == {} {
      sorted := [];
    } else {
      var last := LastModel(keys);
      var others := SortModels(keys - {last});
      sorted := others + [last];
      forall i, j | 0 <= i < j < |sorted| ensures KeyLess(sorted[i], sorted[j]) {
        assert sorted[i] == others[i] && others[i] in others;
      }
    }
  }

  /** A listing of this model at the highest surcharge. */
  ghost function ListingOf(catalogue: seq<Line>, b: Bundle, key: string): (listing: Line)
    requires key in DearestModels(catalogue, b)
    ensures listing in catalogue && MayFill(listing, b) && ModelOf(listing) == key
    ensures UnitFor(listing, b).surcharge == WorstSurcharge(b)
  {
    var l :| l in catalogue && MayFill(l, b) && UnitFor(l, b).surcharge == WorstSurcharge(b) && ModelOf(l) == key;
    l
  }

  lemma {:induction false} FindLineup(b: Bundle, catalogue: seq<Line>) returns (models: seq<Line>)
    requires b.requireDifferentPhoneModels && SizeOf(b) >= 2 && |DearestModels(catalogue, b)| >= SizeOf(b) + 2
    ensures Lineup(b, models) && forall i :: 0 <= i < |models| ==> models[i] in catalogue
  {
    var sorted := SortModels(DearestModels(catalogue, b));
    models := seq(SizeOf(b) + 2, i requires 0 <= i < SizeOf(b) + 2 => ListingOf(catalogue, b, sorted[i]));
  }

  // ------------------------------------------------------------ the losing cart

  function LineOf(listing: Line, index: nat, price: nat, quantity: nat): Line {
    listing.(lineIndex := index, unitPrice := price, quantity := quantity)
  }

  /** The least price for all but the two dear models; the first of those pays for a group. */
  function PriceAt(size: int, j: nat, least: nat, cost: nat): nat {
    if j == size - 1 then cost else if j == size then cost + 1 else least
  }

  /** One piece each of all models but the first. */
  function LosingLines(b: Bundle, models: seq<Line>, least: nat, cost: nat): (lines: seq<Line>)
    requires SizeOf(b) >= 2 && |models| == SizeOf(b) + 2
    ensures |lines| == SizeOf(b) + 1
    ensures forall j :: 0 <= j < |lines| ==> lines[j] == LineOf(models[j + 1], j, PriceAt(SizeOf(b), j, least, cost), 1)
  {
    seq(SizeOf(b) + 1, j requires 0 <= j < SizeOf(b) + 1 => LineOf(models[j + 1], j, PriceAt(SizeOf(b), j, least, cost), 1))
  }

  function Doubled(lines: seq<Line>): (twice: seq<Line>)
    ensures |twice| == |lines|
    ensures forall j :: 0 <= j < |lines| ==> twice[j] == lines[j].(quantity := 2)
  {
    seq(|lines|, j requires 0 <= j < |lines| => lines[j].(quantity := 2))
  }

  /** The cart with the missing units: a second piece of the other cheap models, and the first model. */
  function CompletedLines(b: Bundle, models: seq<Line>, least: nat, cost: nat): (lines: seq<Line>)
    requires SizeOf(b) >= 2 && |models| == SizeOf(b) + 2
    ensures |lines| == SizeOf(b) + 2
  {
    var size, lines := SizeOf(b), LosingLines(b, models, least, cost);
    lines[..1] + Doubled(lines[1..size - 1]) + lines[size - 1..] + [LineOf(models[0], size + 1, least, 1)]
  }

  /** The units of lines that all may fill the bundle. */
  function Pieces(lines: seq<Line>, b: Bundle): seq<Unit> {
    if lines == [] then [] else Copies(UnitFor(lines[0], b), lines[0].quantity) + Pieces(lines[1..], b)
  }

  lemma {:induction false} AllMayFill(lines: seq<Line>, b: Bundle)
    requires forall l :: l in lines ==> MayFill(l, b)
    ensures Eligible(lines, b) == lines
  {
    if lines != [] {
      AllMayFill(lines[1..], b);
    }
  }

  lemma {:induction false} UnitsLeftArePieces(lines: seq<Line>, rem: Remaining, b: Bundle)
    requires forall l :: l in lines ==> Left(rem, l.lineIndex) == l.quantity
    ensures UnitsLeft(lines, rem, b) == Pieces(lines, b)
  {
    if lines != [] {
      UnitsLeftArePieces(lines[1..], rem, b);
    }
  }

  lemma {:induction false} CartUnitsArePieces(lines: seq<Line>, b: Bundle)
    requires DistinctIndices(lines) && forall l :: l in lines ==> MayFill(l, b)
    ensures CartUnits(lines, b) == Pieces(lines, b)
  {
    AllMayFill(lines, b);
    QuantitiesOfEligible(lines, b);
    UnitsLeftArePieces(lines, Quantities(lines), b);
  }

  lemma {:induction false} PiecesConcat(x: seq<Line>, y: seq<Line>, b: Bundle)
    ensures Pieces(x + y, b) == Pieces(x, b) + Pieces(y, b)
  {
    if x == [] {
      assert x + y == y;
    } else {
      assert (x + y)[1..] == x[1..] + y;
      PiecesConcat(x[1..], y, b);
    }
  }

  lemma {:induction false} SinglePieces(lines: seq<Line>, b: Bundle)
    requires forall l :: l in lines ==> l.quantity == 1
    ensures |Pieces(lines, b)| == |lines|
    ensures forall j :: 0 <= j < |lines| ==> Pieces(lines, b)[j] == UnitFor(lines[j], b)
  {
    if lines != [] {
      SinglePieces(lines[1..], b);
      assert Copies(UnitFor(lines[0], b), 0) == [];
      assert Copies(UnitFor(lines[0], b), 1) == [UnitFor(lines[0], b)];
    }
  }

  lemma {:induction false} CopiesOnceOrTwice<T>(x: T)
    ensures Copies(x, 1) == [x] && Copies(x, 2) == [x, x]
  {
    assert Copies(x, 0) == [];
  }

  lemma {:induction false} PairedHeads<T>(x: T, rest: seq<T>, twice: seq<T>)
    requires multiset(twice) == multiset(rest) + multiset(rest)
    ensures multiset([x, x] + twice) == multiset([x] + rest) + multiset([x] + rest)
  {
  }

  lemma {:induction false} DoubledPieces(lines: seq<Line>, b: Bundle)
    requires forall l :: l in lines ==> l.quantity == 1
    ensures multiset(Pieces(Doubled(lines), b)) == multiset(Pieces(lines, b)) + multiset(Pieces(lines, b))
  {
    if lines != [] {
      var u := UnitFor(lines[0], b);
      var twice := Doubled(lines);
      DoubledPieces(lines[1..], b);
      CopiesOnceOrTwice(u);
      assert twice[1..] == Doubled(lines[1..]);
      assert UnitFor(twice[0], b) == u;
      assert Pieces(twice, b) == [u, u] + Pieces(twice[1..], b);
      assert lines[0] in lines && Pieces(lines, b) == [u] + Pieces(lines[1..], b);
      PairedHeads(u, Pieces(lines[1..], b), Pieces(twice[1..], b));
    }
  }

  lemma {:induction false} CompletedAt(b: Bundle, models: seq<Line>, least: nat, cost: nat, j: nat)
    requires SizeOf(b) >= 2 && |models| == SizeOf(b) + 2 && j < SizeOf(b) + 2
    ensures CompletedLines(b, models, least, cost)[j]
         == LineOf(models[if j <= SizeOf(b) then j + 1 else 0], j, PriceAt(SizeOf(b), j, least, cost), if 1 <= j < SizeOf(b) - 1 then 2 else 1)
  {
    var size, lines := SizeOf(b), LosingLines(b, models, least, cost);
    if 1 <= j < size - 1 {
      assert lines[1..size - 1][j - 1] == lines[j];
      assert Doubled(lines[1..size - 1])[j - 1] == lines[j].(quantity := 2);
    } else if size - 1 <= j <= size {
      assert lines[size - 1..][j - (size - 1)] == lines[j];
    }
  }

  /** Both carts sell listings of the lineup, each line with an index of its own. */
  lemma {:induction false} LosingLinesAreListed(b: Bundle, catalogue: seq<Line>, models: seq<Line>, least: nat, cost: nat)
    requires Lineup(b, models) && forall i :: 0 <= i < |models| ==> models[i] in catalogue
    ensures var lines := LosingLines(b, models, least, cost);
      DistinctIndices(lines) && DrawnFrom(catalogue, lines) && forall l :: l in lines ==> MayFill(l, b)
  {
    var lines := LosingLines(b, models, least, cost);
    forall l | l in lines ensures (exists listing :: listing in catalogue && Sells(l, listing)) && MayFill(l, b) {
      var j: nat :| j < |lines| && lines[j] == l;
      assert models[j + 1] in catalogue && Sells(l, models[j + 1]);
    }
  }

  lemma {:induction false} CompletedLinesAreListed(b: Bundle, catalogue: seq<Line>, models: seq<Line>, least: nat, cost: nat)
    requires Lineup(b, models) && forall i :: 0 <= i < |models| ==> models[i] in catalogue
    ensures var completed := CompletedLines(b, models, least, cost);
      DistinctIndices(completed) && DrawnFrom(catalogue, completed) && forall l :: l in completed ==> MayFill(l, b)
  {
    var completed := CompletedLines(b, models, least, cost);
    forall l | l in completed ensures (exists listing :: listing in catalogue && Sells(l, listing)) && MayFill(l, b) {
      var j: nat :| j < |completed| && completed[j] == l;
      CompletedAt(b, models, least, cost, j);
      var listing := models[if j <= SizeOf(b) then j + 1 else 0];
      assert listing in catalogue && Sells(l, listing);
    }
    forall i: nat, j: nat | i < j < |completed| ensures completed[i].lineIndex != completed[j].lineIndex {
      CompletedAt(b, models, least, cost, i);
      CompletedAt(b, models, least, cost, j);
    }
  }

  lemma {:induction false} LosingCartGrows(b: Bundle, models: seq<Line>, least: nat, cost: nat)
    requires SizeOf(b) >= 2 && |models| == SizeOf(b) + 2
    ensures Grown(LosingLines(b, models, least, cost), CompletedLines(b, models, least, cost))
  {
    var lines, completed := LosingLines(b, models, least, cost), CompletedLines(b, models, least, cost);
    forall j: nat | j < |lines|
      ensures completed[j] == lines[j].(quantity := completed[j].quantity) && completed[j].quantity >= lines[j].quantity
    {
      CompletedAt(b, models, least, cost, j);
    }
  }

  /** The units put into the cart. */
  function AddedPieces(b: Bundle, models: seq<Line>, least: nat, cost: nat): seq<Unit>
    requires SizeOf(b) >= 2 && |models| == SizeOf(b) + 2
  {
    Pieces(LosingLines(b, models, least, cost)[1..SizeOf(b) - 1], b) + [UnitFor(LineOf(models[0], SizeOf(b) + 1, least, 1), b)]
  }

  lemma {:induction false} PiecesOfThree(x: seq<Line>, y: seq<Line>, z: seq<Line>, b: Bundle)
    ensures Pieces(x + y + z, b) == Pieces(x, b) + Pieces(y, b) + Pieces(z, b)
  {
    PiecesConcat(x + y, z, b);
    PiecesConcat(x, y, b);
  }

  lemma {:induction false} AddedPiecesFit(first: seq<Unit>, middle: seq<Unit>, twice: seq<Unit>, rest: seq<Unit>, last: Unit)
    requires multiset(twice) == multiset(middle) + multiset(middle)
    ensures multiset(first + twice + rest + [last]) == multiset(first + middle + rest) + multiset(middle + [last])
  {
  }

  lemma {:induction false} DoubledMiddle(first: seq<Line>, middle: seq<Line>, rest: seq<Line>, last: Line, b: Bundle)
    requires last.quantity == 1 && forall l :: l in middle ==> l.quantity == 1
    ensures multiset(Pieces(first + Doubled(middle) + rest + [last], b))
         == multiset(Pieces(first + middle + rest, b)) + multiset(Pieces(middle, b) + [UnitFor(last, b)])
  {
    PiecesConcat(first + Doubled(middle) + rest, [last], b);
    PiecesOfThree(first, Doubled(middle), rest, b);
    PiecesOfThree(first, middle, rest, b);
    DoubledPieces(middle, b);
    SinglePieces([last], b);
    assert Pieces([last], b) == [UnitFor(last, b)];
    AddedPiecesFit(Pieces(first, b), Pieces(middle, b), Pieces(Doubled(middle), b), Pieces(rest, b), UnitFor(last, b));
  }

  lemma {:induction false} MiddleIsSingle(b: Bundle, models: seq<Line>, least: nat, cost: nat)
    requires SizeOf(b) >= 2 && |models| == SizeOf(b) + 2
    ensures var lines := LosingLines(b, models, least, cost);
      lines == lines[..1] + lines[1..SizeOf(b) - 1] + lines[SizeOf(b) - 1..]
      && forall l :: l in lines[1..SizeOf(b) - 1] ==> l.quantity == 1
  {
  }

  /** The completed cart holds the pieces of the first one and the added ones. */
  lemma {:induction false} CompletedPieces(b: Bundle, models: seq<Line>, least: nat, cost: nat)
    requires SizeOf(b) >= 2 && |models| == SizeOf(b) + 2
    ensures multiset(Pieces(CompletedLines(b, models, least, cost), b))
         == multiset(Pieces(LosingLines(b, models, least, cost), b)) + multiset(AddedPieces(b, models, least, cost))
  {
    var size, lines := SizeOf(b), LosingLines(b, models, least, cost);
    MiddleIsSingle(b, models, least, cost);
    DoubledMiddle(lines[..1], lines[1..size - 1], lines[size - 1..], LineOf(models[0], size + 1, least, 1), b);
  }

  lemma {:induction false} HeldPiece(b: Bundle, models: seq<Line>, least: nat, cost: nat, j: nat)
    requires Lineup(b, models) && cost >= least && j < SizeOf(b) + 1
    ensures HeldUnit(b, models, least, Pieces(LosingLines(b, models, least, cost), b), j)
    ensures Pieces(LosingLines(b, models, least, cost), b)[j].price == PriceAt(SizeOf(b), j, least, cost)
  {
    var lines := LosingLines(b, models, least, cost);
    SinglePieces(lines, b);
    assert Pieces(lines, b)[j] == UnitFor(lines[j], b);
  }

  lemma {:induction false} AddedPiece(b: Bundle, models: seq<Line>, least: nat, cost: nat, j: nat)
    requires Lineup(b, models) && j < SizeOf(b) - 1
    ensures |AddedPieces(b, models, least, cost)| == SizeOf(b) - 1
    ensures AddedUnit(b, models, least, AddedPieces(b, models, least, cost), j)
  {
    var size, lines := SizeOf(b), LosingLines(b, models, least, cost);
    SinglePieces(lines[1..size - 1], b);
    if j + 2 < size {
      assert lines[1..size - 1][j] == lines[j + 1];
      assert AddedPieces(b, models, least, cost)[j] == UnitFor(lines[j + 1], b);
    }
  }

  lemma {:induction false} PiecesLose(b: Bundle, models: seq<Line>, least: nat, cost: nat)
    requires Lineup(b, models) && cost == b.fixedTotal + SizeOf(b) * WorstSurcharge(b) && cost >= least
    ensures LosingUnits(b, models, least, Pieces(LosingLines(b, models, least, cost), b), AddedPieces(b, models, least, cost),
                        Pieces(CompletedLines(b, models, least, cost), b))
  {
    var units, added := Pieces(LosingLines(b, models, least, cost), b), AddedPieces(b, models, least, cost);
    SinglePieces(LosingLines(b, models, least, cost), b);
    AddedPiece(b, models, least, cost, 0);
    forall j: nat | j < |units| ensures HeldUnit(b, models, least, units, j) {
      HeldPiece(b, models, least, cost, j);
    }
    forall j: nat | j < |added| ensures AddedUnit(b, models, least, added, j) {
      AddedPiece(b, models, least, cost, j);
    }
    HeldPiece(b, models, least, cost, SizeOf(b) - 1);
    HeldPiece(b, models, least, cost, SizeOf(b));
    CompletedPieces(b, models, least, cost);
  }

  // ------------------------------------------------------------ what the storefront shows it, and what it gets

  lemma {:induction false} OnlyFree(units: multiset<Unit>, flat: multiset<Unit>, free: seq<Unit>, u: Unit)
    requires units == flat + multiset(free) && units == flat + multiset([u])
    ensures free == [u]
  {
    assert multiset(free) + flat == flat + multiset(free) && multiset([u]) + flat == flat + multiset([u]);
    CancelMultiset(multiset(free), multiset([u]), flat);
    assert |free| == |multiset(free)| == 1;
    assert free[0] in multiset(free);
  }

  lemma {:induction false} FiguresOfOneFree(b: Bundle, groupsApplied: int, u: Unit, needed: nat, saving: int)
    requires b.requireDifferentPhoneModels && b.isRepeatable && b.minUnitPrice.Some? && SizeOf(b) == needed + 1 && needed > 0
    requires saving == u.price + needed * b.minUnitPrice.value - (b.fixedTotal + SizeOf(b) * WorstSurcharge(b)) && saving > 0
    ensures UnitsNeeded(b, groupsApplied, [u]) == Some(needed) && LeftoverPrice(b, groupsApplied, [u]) == u.price
    ensures SavingsIfCompleted(b, Some(needed), u.price, false) == Some(saving)
  {
    CheapestOfOne(u);
  }

  /** One free unit left: all others of a group are still missing. */
  lemma {:induction false} OneFreeUnitOffer(lines: seq<Line>, b: Bundle, instances: seq<Instance>, u: Unit, needed: nat, saving: int)
    requires b.requireDifferentPhoneModels && b.isRepeatable && b.minUnitPrice.Some? && SizeOf(b) == needed + 1 && needed > 0
    requires SumBy(Eligible(lines, b), QuantityIn) > 0 && FreeUnits(Eligible(lines, b), instances, b) == [u]
    requires saving == u.price + needed * b.minUnitPrice.value - (b.fixedTotal + SizeOf(b) * WorstSurcharge(b)) && saving > 0
    ensures var offer := ProgressFor(lines, b, instances, false);
      offer.Some? && offer.value.unitsNeeded == Some(needed) && offer.value.savingsIfCompleted == Some(saving)
  {
    FiguresOfOneFree(b, AppliedGroups(instances, b.id), u, needed, saving);
  }

  lemma {:induction false} LosingCartFree(lines: seq<Line>, b: Bundle, models: seq<Line>, least: nat, added: seq<Unit>, completed: seq<Unit>)
    requires DistinctIndices(lines) && LosingUnits(b, models, least, CartUnits(lines, b), added, completed)
    ensures FreeIn(lines, b, false) == [CartUnits(lines, b)[SizeOf(b)]]
  {
    var units := CartUnits(lines, b);
    OneDearGroup(b, models, least, units, added, completed);
    FreeAndGrouped(lines, b, false);
    OnlyFree(multiset(units), multiset(Flatten(Groups(b, units))), FreeIn(lines, b, false), units[SizeOf(b)]);
  }

  lemma {:induction false} LosingCartOffer(lines: seq<Line>, b: Bundle, u: Unit, needed: nat, rest: nat)
    requires DistinctIndices(lines) && b.requireDifferentPhoneModels && b.isRepeatable && b.minUnitPrice.Some?
    requires needed + 1 == SizeOf(b) && needed > 0 && CartUnits(lines, b) != [] && FreeIn(lines, b, false) == [u]
    requires u.price == b.fixedTotal + SizeOf(b) * WorstSurcharge(b) + 1 && rest == needed * b.minUnitPrice.value
    ensures SavingAnnounced(lines, b, false) == Some(1 + rest)
    ensures OfferFor(lines, b, false).value.unitsNeeded == Some(needed)
  {
    OfferFigures(lines, b, false);
    OneFreeUnitOffer(lines, b, Instances(lines, [b], false), u, needed, 1 + rest);
  }

  lemma {:induction false} EqualTimes(n: int, m: int, c: nat) returns (product: nat)
    requires n == m >= 0
    ensures product == n * c && product == m * c
  {
    product := n * c;
  }

  lemma {:induction false} TimesAtLeastOnce(size: nat, least: nat)
    requires size >= 1
    ensures size * least >= least
  {
  }

  /** One unit is free, one piece dearer than a group, and the added units complete its group. */
  ghost predicate OneUnitShort(lines: seq<Line>, completed: seq<Line>, b: Bundle, u: Unit, added: seq<Unit>, least: nat) {
    && DistinctIndices(lines) && DistinctIndices(completed) && CartUnits(lines, b) != []
    && FreeIn(lines, b, false) == [u] && u.price == b.fixedTotal + SizeOf(b) * WorstSurcharge(b) + 1
    && |added| + 1 == SizeOf(b) && |added| > 0
    && AddsNewModels(b, CartUnits(lines, b), [u], added, CartUnits(completed, b))
    && KeepsOrder(b, CartUnits(lines, b), [u], CartUnits(completed, b))
    && WithinBounds(CartUnits(completed, b), least, WorstSurcharge(b))
  }

  lemma {:induction false} LosingCartFigures(lines: seq<Line>, completed: seq<Line>, b: Bundle, models: seq<Line>, least: nat, added: seq<Unit>)
    returns (u: Unit)
    requires DistinctIndices(lines) && DistinctIndices(completed)
    requires LosingUnits(b, models, least, CartUnits(lines, b), added, CartUnits(completed, b))
    ensures OneUnitShort(lines, completed, b, u, added, least)
  {
    var units, more := CartUnits(lines, b), CartUnits(completed, b);
    u := units[SizeOf(b)];
    LosingCartFree(lines, b, models, least, added, more);
    LosingUnitsAreNew(b, models, least, units, added, more);
  }

  lemma {:induction false} LosingCartLoses(lines: seq<Line>, completed: seq<Line>, b: Bundle, models: seq<Line>, least: nat, added: seq<Unit>)
    requires b.fixedTotal + SizeOf(b) * WorstSurcharge(b) > SizeOf(b) * least
    requires LosingUnits(b, models, least, CartUnits(lines, b), added, CartUnits(completed, b))
    ensures BundleDiscount(lines, b, false) == (SizeOf(b) - 1) * least
    ensures Instances(completed, [b], false) == [] && BundleDiscount(completed, b, false) == 0
  {
    DearGroupSaves(b, models, least, CartUnits(lines, b), added, CartUnits(completed, b));
    NothingIsFormed(b, models, least, CartUnits(lines, b), added, CartUnits(completed, b));
    SingleBundleInstances(completed, b, false);
    DiscountOfGroups(lines, b, false);
  }

  lemma {:induction false} LosingCart(b: Bundle, catalogue: seq<Line>, least: nat)
    returns (models: seq<Line>, lines: seq<Line>, completed: seq<Line>, added: seq<Unit>)
    requires b.requireDifferentPhoneModels && SizeOf(b) >= 2 && b.fixedTotal + SizeOf(b) * WorstSurcharge(b) >= least
    requires |DearestModels(catalogue, b)| >= SizeOf(b) + 2
    ensures DrawnFrom(catalogue, lines) && DrawnFrom(catalogue, completed) && DistinctIndices(lines) && DistinctIndices(completed)
    ensures Grown(lines, completed)
    ensures LosingUnits(b, models, least, CartUnits(lines, b), added, CartUnits(completed, b))
  {
    var cost: nat := b.fixedTotal + SizeOf(b) * WorstSurcharge(b);
    models := FindLineup(b, catalogue);
    lines, completed := LosingLines(b, models, least, cost), CompletedLines(b, models, least, cost);
    added := AddedPieces(b, models, least, cost);
    LosingLinesAreListed(b, catalogue, models, least, cost);
    CompletedLinesAreListed(b, catalogue, models, least, cost);
    LosingCartGrows(b, models, least, cost);
    CartUnitsArePieces(lines, b);
    CartUnitsArePieces(completed, b);
    PiecesLose(b, models, least, cost);
  }

  /** The losing cart, with its one free unit and what its first group saves. */
  lemma {:induction false} LosingCartFound(b: Bundle, catalogue: seq<Line>, least: nat, cheap: nat)
    returns (lines: seq<Line>, completed: seq<Line>, added: seq<Unit>, u: Unit)
    requires b.requireDifferentPhoneModels && SizeOf(b) >= 2 && b.fixedTotal + SizeOf(b) * WorstSurcharge(b) > SizeOf(b) * least
    requires |DearestModels(catalogue, b)| >= SizeOf(b) + 2 && cheap == (SizeOf(b) - 1) * least
    ensures DrawnFrom(catalogue, lines) && DrawnFrom(catalogue, completed) && Grown(lines, completed)
    ensures OneUnitShort(lines, completed, b, u, added, least)
    ensures BundleDiscount(lines, b, false) == cheap
    ensures Instances(completed, [b], false) == [] && BundleDiscount(completed, b, false) == 0
  {
    var models;
    TimesAtLeastOnce(SizeOf(b), least);
    models, lines, completed, added := LosingCart(b, catalogue, least);
    u := LosingCartFigures(lines, completed, b, models, least, added);
    LosingCartLoses(lines, completed, b, models, least, added);
  }

  lemma {:induction false} OneFreeUnitTakenUp(lines: seq<Line>, completed: seq<Line>, b: Bundle, u: Unit, added: seq<Unit>, rest: nat)
    requires b.requireDifferentPhoneModels && b.isRepeatable && b.minUnitPrice.Some?
    requires OneUnitShort(lines, completed, b, u, added, b.minUnitPrice.value) && rest == (SizeOf(b) - 1) * b.minUnitPrice.value
    ensures TakenUp(lines, completed, b, false, added) && SavingAnnounced(lines, b, false) == Some(1 + rest)
    ensures SteadyOrder(lines, completed, b, false)
  {
    var same := EqualTimes(|added|, SizeOf(b) - 1, b.minUnitPrice.value);
    LosingCartOffer(lines, b, u, |added|, rest);
  }

  lemma {:induction false} LostDiscount(lines: seq<Line>, completed: seq<Line>, b: Bundle, cheap: nat)
    requires BundleDiscount(lines, b, false) == cheap && SavingAnnounced(lines, b, false) == Some(1 + cheap)
    requires BundleDiscount(completed, b, false) == 0
    ensures !Granted(lines, completed, b, false)
  {
  }

  /** When the bounds do not cover the price of a group, and two models more than a group takes are listed at the
      highest surcharge, some cart is promised a saving and loses its whole discount instead. */
  lemma {:induction false} BrokenPromise(b: Bundle, catalogue: seq<Line>)
    returns (lines: seq<Line>, completed: seq<Line>, added: seq<Unit>, cheap: nat)
    requires b.requireDifferentPhoneModels && SizeOf(b) >= 2 && b.isRepeatable && b.minUnitPrice.Some? && !BoundsCoverPrice(b)
    requires |DearestModels(catalogue, b)| >= SizeOf(b) + 2
    ensures DrawnFrom(catalogue, lines) && DrawnFrom(catalogue, completed) && TakenUp(lines, completed, b, false, added)
    ensures SteadyOrder(lines, completed, b, false) && Grown(lines, completed)
    ensures cheap == (SizeOf(b) - 1) * b.minUnitPrice.value
    ensures BundleDiscount(lines, b, false) == cheap && SavingAnnounced(lines, b, false) == Some(1 + cheap)
    ensures Instances(completed, [b], false) == [] && BundleDiscount(completed, b, false) == 0
    ensures !Granted(lines, completed, b, false)
  {
    var u;
    cheap := EqualTimes(SizeOf(b) - 1, SizeOf(b) - 1, b.minUnitPrice.value);
    lines, completed, added, u := LosingCartFound(b, catalogue, b.minUnitPrice.value, cheap);
    OneFreeUnitTakenUp(lines, completed, b, u, added, cheap);
    LostDiscount(lines, completed, b, cheap);
  }

  // ------------------------------------------------------------ adding to a cart keeps its order

  function LinePieces(l: Line, b: Bundle, key: string): seq<Unit> {
    if MayFill(l, b) && KeyOf(b, UnitFor(l, b)) == key then Copies(UnitFor(l, b), l.quantity) else []
  }

  /** The units of one model, line by line. */
  function PiecesOf(lines: seq<Line>, b: Bundle, key: string): seq<Unit> {
    if lines == [] then []
    else
      var n := |lines| - 1;
      PiecesOf(lines[..n], b, key) + LinePieces(lines[n], b, key)
  }

  lemma {:induction false} OfKeyConcat(b: Bundle, x: seq<Unit>, y: seq<Unit>, key: string)
    ensures OfKey(b, x + y, key) == OfKey(b, x, key) + OfKey(b, y, key)
  {
    if y == [] {
      assert x + y == x;
    } else {
      var n := |y| - 1;
      assert (x + y)[..|x| + n] == x + y[..n] && (x + y)[|x| + n] == y[n];
      OfKeyConcat(b, x, y[..n], key);
    }
  }

  lemma {:induction false} CopiesCount<T>(x: T, n: nat)
    ensures |Copies(x, n)| == n
  {
    if n > 0 {
      CopiesCount(x, n - 1);
    }
  }

  lemma {:induction false} OfKeyCopies(b: Bundle, u: Unit, n: nat, key: string)
    ensures OfKey(b, Copies(u, n), key) == if KeyOf(b, u) == key then Copies(u, n) else []
  {
    if n > 0 {
      OfKeyCopies(b, u, n - 1, key);
      CopiesCount(u, n - 1);
      assert Copies(u, n)[..n - 1] == Copies(u, n - 1);
    }
  }

  lemma {:induction false} EligibleSnoc(lines: seq<Line>, l: Line, b: Bundle)
    ensures Eligible(lines + [l], b) == Eligible(lines, b) + if MayFill(l, b) then [l] else []
  {
    if lines == [] {
      assert lines + [l] == [l] && [l][1..] == [];
    } else {
      assert (lines + [l])[1..] == lines[1..] + [l];
      EligibleSnoc(lines[1..], l, b);
    }
  }

  lemma {:induction false} EligiblePieces(lines: seq<Line>, b: Bundle, key: string)
    ensures OfKey(b, Pieces(Eligible(lines, b), b), key) == PiecesOf(lines, b, key)
  {
    if lines != [] {
      var n := |lines| - 1;
      var l := lines[n];
      EligiblePieces(lines[..n], b, key);
      assert lines == lines[..n] + [l];
      EligibleSnoc(lines[..n], l, b);
      if MayFill(l, b) {
        PiecesConcat(Eligible(lines[..n], b), [l], b);
        assert Pieces([l], b) == Copies(UnitFor(l, b), l.quantity);
        OfKeyConcat(b, Pieces(Eligible(lines[..n], b), b), Pieces([l], b), key);
        OfKeyCopies(b, UnitFor(l, b), l.quantity, key);
      } else {
        assert Eligible(lines, b) == Eligible(lines[..n], b);
      }
    }
  }

  lemma {:induction false} CartUnitsOfKey(lines: seq<Line>, b: Bundle, key: string)
    requires DistinctIndices(lines)
    ensures OfKey(b, CartUnits(lines, b), key) == PiecesOf(lines, b, key)
  {
    QuantitiesOfEligible(lines, b);
    UnitsLeftArePieces(Eligible(lines, b), Quantities(lines), b);
    EligiblePieces(lines, b, key);
  }

  /** At least as many units, and the very same ones when as many. */
  ghost predicate GrowsTo(few: seq<Unit>, many: seq<Unit>) { |few| <= |many| && (|few| == |many| ==> few == many) }

  lemma {:induction false} GrowTogether(few: seq<Unit>, many: seq<Unit>, fewMore: seq<Unit>, manyMore: seq<Unit>)
    requires GrowsTo(few, many) && GrowsTo(fewMore, manyMore)
    ensures GrowsTo(few + fewMore, many + manyMore)
  {
  }

  lemma {:induction false} GrownLinePieces(l: Line, grown: Line, b: Bundle, key: string)
    requires grown == l.(quantity := grown.quantity) && grown.quantity >= l.quantity
    ensures GrowsTo(LinePieces(l, b, key), LinePieces(grown, b, key))
  {
    assert UnitFor(grown, b) == UnitFor(l, b) && MayFill(grown, b) == MayFill(l, b);
    CopiesCount(UnitFor(l, b), l.quantity);
    CopiesCount(UnitFor(l, b), grown.quantity);
  }

  lemma {:induction false} GrownPieces(lines: seq<Line>, completed: seq<Line>, b: Bundle, key: string)
    requires Grown(lines, completed)
    ensures GrowsTo(PiecesOf(lines, b, key), PiecesOf(completed, b, key))
    decreases |completed|
  {
    if completed != [] {
      var n := |completed| - 1;
      if |lines| == |completed| {
        GrownPieces(lines[..n], completed[..n], b, key);
        GrownLinePieces(lines[n], completed[n], b, key);
        GrowTogether(PiecesOf(lines[..n], b, key), PiecesOf(completed[..n], b, key),
                     LinePieces(lines[n], b, key), LinePieces(completed[n], b, key));
      } else {
        GrownPieces(lines, completed[..n], b, key);
        GrowTogether(PiecesOf(lines, b, key), PiecesOf(completed[..n], b, key), [], LinePieces(completed[n], b, key));
        assert PiecesOf(lines, b, key) + [] == PiecesOf(lines, b, key);
      }
    }
  }

  /** So adding the missing units in the shop's own way meets the condition on the order. */
  lemma {:induction false} AddingKeepsOrder(lines: seq<Line>, completed: seq<Line>, b: Bundle, couponIsApplied: bool, added: seq<Unit>)
    requires b.requireDifferentPhoneModels && TakenUp(lines, completed, b, couponIsApplied, added) && Grown(lines, completed)
    ensures SteadyOrder(lines, completed, b, couponIsApplied)
  {
    var units, free, more := CartUnits(lines, b), FreeIn(lines, b, couponIsApplied), CartUnits(completed, b);
    forall u | u in free ensures OfKey(b, more, KeyOf(b, u)) == OfKey(b, units, KeyOf(b, u)) {
      var key := KeyOf(b, u);
      KeyOfMember(b, free, u);
      CompletedCount(b, units, added, more, key);
      AddedOnce(b, added, key);
      OfKeyCount(b, units, key);
      OfKeyCount(b, more, key);
      CartUnitsOfKey(lines, b, key);
      CartUnitsOfKey(completed, b, key);
      GrownPieces(lines, completed, b, key);
    }
  }

  lemma {:induction false} InOrderCoversAdding(b: Bundle, catalogue: seq<Line>)
    requires b.requireDifferentPhoneModels && KeepsPromiseInOrder(b, catalogue)
    ensures KeepsPromiseByAdding(b, catalogue)
  {
    forall lines, completed, couponIsApplied, added |
      DrawnFrom(catalogue, lines) && DrawnFrom(catalogue, completed) && TakenUp(lines, completed, b, couponIsApplied, added)
      && Grown(lines, completed)
      ensures Granted(lines, completed, b, couponIsApplied)
    {
      AddingKeepsOrder(lines, completed, b, couponIsApplied, added);
    }
  }

  // ------------------------------------------------------------ exactly when the promise is kept

  /** The promise is broken for some cart of these listings. */
  lemma {:induction false} ManyModelsBreakPromise(b: Bundle, catalogue: seq<Line>)
    requires b.requireDifferentPhoneModels && SizeOf(b) >= 2 && b.isRepeatable && b.minUnitPrice.Some? && !BoundsCoverPrice(b)
    requires |DearestModels(catalogue, b)| >= SizeOf(b) + 2
    ensures !KeepsPromiseByAdding(b, catalogue) && !KeepsPromiseInOrder(b, catalogue) && !KeepsPromise(b, catalogue)
  {
    var lines, completed, added, cheap := BrokenPromise(b, catalogue);
  }

  lemma {:induction false} SafeBundleKeepsPromise(b: Bundle, catalogue: seq<Line>)
    requires b.requireDifferentPhoneModels && (!b.isRepeatable || BoundsCoverPrice(b))
    ensures KeepsPromiseInOrder(b, catalogue)
    ensures !b.isRepeatable || SurchargePerModel(catalogue, b) ==> KeepsPromise(b, catalogue)
  {
    forall lines, completed, couponIsApplied, added |
      DrawnFrom(catalogue, lines) && DrawnFrom(catalogue, completed) && TakenUp(lines, completed, b, couponIsApplied, added)
      && (!b.isRepeatable || SteadyOrder(lines, completed, b, couponIsApplied))
      ensures Granted(lines, completed, b, couponIsApplied)
    {
      ModelSavingsAreKept(lines, completed, b, couponIsApplied, added);
    }
    if SurchargePerModel(catalogue, b) {
      OrderIsNoCondition(b, catalogue);
    }
  }

  /** Where two models more than a group takes are listed at the highest surcharge, the saving shown for a
      different-models bundle is granted to every cart, however the missing units are added, exactly when the
      bundle is not repeatable, or its advertised bounds already cover the price of a group. Where some model is
      listed at different surcharges, its units must stay in order, as they do when units are added in the shop's
      own way. */
  lemma {:induction false} PromiseKeptIffBoundsCover(b: Bundle, catalogue: seq<Line>)
    requires SizeOf(b) >= 2 && b.requireDifferentPhoneModels && b.minUnitPrice.Some?
    requires |DearestModels(catalogue, b)| >= SizeOf(b) + 2
    ensures KeepsPromiseInOrder(b, catalogue) <==> !b.isRepeatable || BoundsCoverPrice(b)
    ensures KeepsPromiseByAdding(b, catalogue) <==> !b.isRepeatable || BoundsCoverPrice(b)
    ensures SurchargePerModel(catalogue, b) ==> (KeepsPromise(b, catalogue) <==> !b.isRepeatable || BoundsCoverPrice(b))
  {
    if !b.isRepeatable || BoundsCoverPrice(b) {
      SafeBundleKeepsPromise(b, catalogue);
      InOrderCoversAdding(b, catalogue);
    } else {
      ManyModelsBreakPromise(b, catalogue);
    }
  }

  /** With a flat surcharge, or none, the answer is complete, in whatever order the completed cart has its
      lines: it is also kept while no more than one eligible model is left when a group is taken. */
  lemma {:induction false} PromiseKeptIff(b: Bundle, catalogue: seq<Line>)
    requires SizeOf(b) >= 2 && b.requireDifferentPhoneModels && b.minUnitPrice.Some? && FlatSurcharge(catalogue, b)
    ensures KeepsPromise(b, catalogue) <==>
      !b.isRepeatable || BoundsCoverPrice(b) || |EligibleModels(catalogue, b)| <= SizeOf(b) + 1
  {
    assert SurchargePerModel(catalogue, b);
    assert DearestModels(catalogue, b) == EligibleModels(catalogue, b);
    if |EligibleModels(catalogue, b)| <= SizeOf(b) + 1 {
      FewModelsKeepPromise(b, catalogue);
    } else {
      PromiseKeptIffBoundsCover(b, catalogue);
    }
  }
}
