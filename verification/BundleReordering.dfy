/** The order of a cart's lines does not change the discount of a different-models bundle while every model has
    one surcharge (src/modules/promotions/bundles/bundle-pricing.util.ts). */
module BundleReordering {
  import opened Sums
  import opened BundlePricing
  import opened BundleGrouping
  import opened BundleOptimality
  import opened BundleProgress
  import opened BundleRounds
  import opened BundlePromise
  import opened BundleFewModels

  /** Units of the same model cost the same surcharge. */
  ghost predicate OneSurchargePerModel(b: Bundle, units: seq<Unit>) {
    forall u, v :: u in units && v in units && KeyOf(b, u) == KeyOf(b, v) ==> u.surcharge == v.surcharge
  }

  // ------------------------------------------------------------ groups of the same models

  ghost predicate AgreeByModel(b: Bundle, g: seq<Unit>, h: seq<Unit>, f: Unit -> int) {
    forall u, v :: u in g && v in h && KeyOf(b, u) == KeyOf(b, v) ==> f(u) == f(v)
  }

  lemma {:induction false} OthersDiffer(b: Bundle, h: seq<Unit>, j: nat)
    requires b.requireDifferentPhoneModels && ModelsDiffer(b, h) && j < |h|
    ensures var others := h[..j] + h[j + 1..]; ModelsDiffer(b, others) && forall v :: v in others ==> v in h
  {
  }

  lemma {:induction false} WithoutOne(b: Bundle, h: seq<Unit>, j: nat)
    requires b.requireDifferentPhoneModels && ModelsDiffer(b, h) && j < |h|
    ensures KeysIn(b, h[..j] + h[j + 1..]) == KeysIn(b, h) - {KeyOf(b, h[j])}
  {
    var others := h[..j] + h[j + 1..];
    assert forall i :: 0 <= i < |others| ==> others[i] == h[if i < j then i else i + 1];
    forall key ensures key in KeysIn(b, others) <==> key in KeysIn(b, h) - {KeyOf(b, h[j])} {
      if key in KeysIn(b, h) && key != KeyOf(b, h[j]) {
        var i :| 0 <= i < |h| && KeyOf(b, h[i]) == key;
        assert others[if i < j then i else i - 1] == h[i];
      }
      if key in KeysIn(b, others) {
        var i :| 0 <= i < |others| && KeyOf(b, others[i]) == key;
        assert KeyOf(b, h[if i < j then i else i + 1]) == key;
      }
    }
  }

  /** Groups of the same models that agree model by model have the same sum. */
  lemma {:induction false} SameModelsSameSum(b: Bundle, g: seq<Unit>, h: seq<Unit>, f: Unit -> int)
    requires b.requireDifferentPhoneModels && ModelsDiffer(b, g) && ModelsDiffer(b, h) && KeysIn(b, g) == KeysIn(b, h)
    requires AgreeByModel(b, g, h, f)
    ensures SumBy(g, f) == SumBy(h, f)
    decreases |g|
  {
    if g == [] {
      KeysInCount(b, g);
      KeysInCount(b, h);
    } else {
      assert KeyOf(b, g[0]) in KeysIn(b, g);
      var j :| 0 <= j < |h| && KeyOf(b, h[j]) == KeyOf(b, g[0]);
      var others := h[..j] + h[j + 1..];
      LaterDiffer(b, g);
      OthersDiffer(b, h, j);
      WithoutOne(b, h, j);
      SameModelsSameSum(b, g[1..], others, f);
      SumRemove(h, j, f);
      assert g[0] in g && h[j] in h;
    }
  }

  // ------------------------------------------------------------ the rounds of two orders

  /** Where the rounds of two orders of the same units stand: level under every model. */
  ghost predicate Level(b: Bundle, units: seq<Unit>, other: seq<Unit>, x: seq<Bucket>, y: seq<Bucket>) {
    && b.requireDifferentPhoneModels && multiset(units) == multiset(other)
    && DistinctKeys(x) && Keyed(b, x) && Tails(Buckets(b, units), x)
    && DistinctKeys(y) && Keyed(b, y) && Tails(Buckets(b, other), y)
    && Ahead(x, y, {})
  }

  lemma {:induction false} LevelModels(b: Bundle, size: nat, units: seq<Unit>, other: seq<Unit>, x: seq<Bucket>, y: seq<Bucket>)
    requires Level(b, units, other, x, y) && size > 0
    ensures Choose(b, size, x).Some? <==> Choose(b, size, y).Some?
  {
    AheadHasMoreKeys(x, y, {});
    ChooseByKeys(b, size, x);
    ChooseByKeys(b, size, y);
  }

  lemma {:induction false} SameTopKeys(x: seq<Bucket>, y: seq<Bucket>, s: set<string>, t: set<string>, size: nat,
                                       x': seq<Bucket>, y': seq<Bucket>)
    requires Ahead(x, y, {}) && TopKeys(x, s, size) && TopKeys(y, t, size) && RoundTaken(x, x', s) && RoundTaken(y, y', t)
    ensures s == t && Ahead(x', y', {})
  {
    RoundsKeepStep(x, y, {}, s, t, size, x', y');
    assert NowAhead({}, s, t) == {};
    SubsetOfSameSize(s, t);
  }

  lemma {:induction false} TailsThenRound(start: seq<Bucket>, x: seq<Bucket>, next: seq<Bucket>, taken: set<string>)
    requires Tails(start, x) && RoundTaken(x, next, taken)
    ensures Tails(start, next)
  {
    forall key ensures IsTail(At(start, key), At(next, key)) {
      assert IsTail(At(x, key), At(next, key));
      TailOfTail(At(start, key), At(x, key), At(next, key));
    }
  }

  /** A round in each: the same models are taken, and both stay level. */
  lemma {:induction false} LevelRound(b: Bundle, size: nat, units: seq<Unit>, other: seq<Unit>, x: seq<Bucket>, y: seq<Bucket>)
    requires Level(b, units, other, x, y) && size > 0 && Choose(b, size, x).Some? && Choose(b, size, y).Some?
    ensures KeysOf(Choose(b, size, x).value) == KeysOf(Choose(b, size, y).value)
    ensures Choose(b, size, x).value != [] && Choose(b, size, y).value != []
    ensures Level(b, units, other, AfterRound(b, size, x, Choose(b, size, x).value), AfterRound(b, size, y, Choose(b, size, y).value))
  {
    var p, q := Choose(b, size, x).value, Choose(b, size, y).value;
    RoundByKeys(b, size, x);
    RoundByKeys(b, size, y);
    AfterRoundKeyed(b, size, x, p);
    AfterRoundKeyed(b, size, y, q);
    SameTopKeys(x, y, KeysOf(p), KeysOf(q), size, AfterRound(b, size, x, p), AfterRound(b, size, y, q));
    TailsThenRound(Buckets(b, units), x, AfterRound(b, size, x, p), KeysOf(p));
    TailsThenRound(Buckets(b, other), y, AfterRound(b, size, y, q), KeysOf(q));
  }

  /** The unit a round takes of a model is the unit at this place of the model's units, dearest first. */
  lemma {:induction false} PickedPlace(b: Bundle, size: nat, units: seq<Unit>, x: seq<Bucket>, u: Unit) returns (i: nat)
    requires b.requireDifferentPhoneModels && DistinctKeys(x) && Keyed(b, x) && Tails(Buckets(b, units), x)
    requires Choose(b, size, x).Some? && u in GroupAt(b, size, x)
    ensures At(x, KeyOf(b, u)) != [] && i == |At(Buckets(b, units), KeyOf(b, u))| - |At(x, KeyOf(b, u))|
    ensures i < |At(Buckets(b, units), KeyOf(b, u))| && At(Buckets(b, units), KeyOf(b, u))[i] == u && u in units
  {
    var key := KeyOf(b, u);
    GroupHeads(b, size, x, u);
    assert IsTail(At(Buckets(b, units), key), At(x, key));
    i := |At(Buckets(b, units), key)| - |At(x, key)|;
    BucketsAt(b, units, key);
    SortPermutes(OfKey(b, units, key));
    assert u in DearestFirst(OfKey(b, units, key)) && u in multiset(OfKey(b, units, key));
    OfKeyMembers(b, units, key, u);
  }

  lemma {:induction false} SamePriceAtPlace(b: Bundle, units: seq<Unit>, other: seq<Unit>, key: string, i: nat)
    requires multiset(units) == multiset(other) && i < |At(Buckets(b, units), key)| && i < |At(Buckets(b, other), key)|
    ensures At(Buckets(b, units), key)[i].price == At(Buckets(b, other), key)[i].price
  {
    BucketDominates(b, units, other, key, i, i);
    BucketDominates(b, other, units, key, i, i);
  }

  lemma {:induction false} LevelUnitsAgree(b: Bundle, size: nat, units: seq<Unit>, other: seq<Unit>, x: seq<Bucket>, y: seq<Bucket>,
                                           u: Unit, v: Unit)
    requires Level(b, units, other, x, y) && OneSurchargePerModel(b, units)
    requires Choose(b, size, x).Some? && Choose(b, size, y).Some?
    requires u in GroupAt(b, size, x) && v in GroupAt(b, size, y) && KeyOf(b, u) == KeyOf(b, v)
    ensures u.price == v.price && u.surcharge == v.surcharge
  {
    var key := KeyOf(b, u);
    var i := PickedPlace(b, size, units, x, u);
    var j := PickedPlace(b, size, other, y, v);
    SameLength(b, units, other, key);
    SamePriceAtPlace(b, units, other, key, i);
    assert v in multiset(other) && v in multiset(units);
  }

  lemma {:induction false} SameLength(b: Bundle, units: seq<Unit>, other: seq<Unit>, key: string)
    requires multiset(units) == multiset(other)
    ensures |At(Buckets(b, units), key)| == |At(Buckets(b, other), key)|
  {
    BucketsAt(b, units, key);
    BucketsAt(b, other, key);
    SumRearranged(units, other, WithKey(b, key));
  }

  lemma {:induction false} LevelGroupsSave(b: Bundle, size: nat, units: seq<Unit>, other: seq<Unit>, x: seq<Bucket>, y: seq<Bucket>)
    requires Level(b, units, other, x, y) && OneSurchargePerModel(b, units) && size > 0
    requires Choose(b, size, x).Some? && Choose(b, size, y).Some?
    ensures Discount(b, GroupAt(b, size, x)) == Discount(b, GroupAt(b, size, y))
  {
    var g, h := GroupAt(b, size, x), GroupAt(b, size, y);
    LevelRound(b, size, units, other, x, y);
    InGroup(b, size, x);
    InGroup(b, size, y);
    forall u, v | u in g && v in h && KeyOf(b, u) == KeyOf(b, v) ensures u.price == v.price && u.surcharge == v.surcharge {
      LevelUnitsAgree(b, size, units, other, x, y, u, v);
    }
    SameModelsSameSum(b, g, h, PriceOf);
    SameModelsSameSum(b, g, h, SurchargeOf);
  }

  lemma {:induction false} FirstGroupThenRest(b: Bundle, size: nat, x: seq<Bucket>, formedAny: bool)
    requires WellBucketed(b, x) && size > 0 && NextGroup(b, size, x, formedAny).Some?
    ensures var picks := NextGroup(b, size, x, formedAny).value;
      && picks != [] && WellBucketed(b, AfterRound(b, size, x, picks))
      && TotalDiscount(b, FormGroups(b, size, x, formedAny))
         == Discount(b, PickedUnits(picks)) + TotalDiscount(b, FormGroups(b, size, AfterRound(b, size, x, picks), true))
  {
    var picks := NextGroup(b, size, x, formedAny).value;
    RoundSplits(b, size, x);
    var rest := FormGroups(b, size, AfterRound(b, size, x, picks), true);
    assert ([PickedUnits(picks)] + rest)[1..] == rest;
  }

  lemma {:induction false} LevelRunsSave(b: Bundle, size: nat, units: seq<Unit>, other: seq<Unit>, x: seq<Bucket>, y: seq<Bucket>,
                                         formedAny: bool)
    requires Level(b, units, other, x, y) && OneSurchargePerModel(b, units) && size > 0
    ensures TotalDiscount(b, FormGroups(b, size, x, formedAny)) == TotalDiscount(b, FormGroups(b, size, y, formedAny))
    decreases |AllUnits(x)|
  {
    LevelModels(b, size, units, other, x, y);
    if Choose(b, size, x).Some? {
      LevelGroupsSave(b, size, units, other, x, y);
      if NextGroup(b, size, x, formedAny).Some? {
        LevelRound(b, size, units, other, x, y);
        RoundSplits(b, size, x);
        FirstGroupThenRest(b, size, x, formedAny);
        FirstGroupThenRest(b, size, y, formedAny);
        LevelRunsSave(b, size, units, other, AfterRound(b, size, x, Choose(b, size, x).value),
                      AfterRound(b, size, y, Choose(b, size, y).value), true);
      }
    }
  }

  lemma {:induction false} LevelRunsAffordable(b: Bundle, size: nat, units: seq<Unit>, other: seq<Unit>, x: seq<Bucket>, y: seq<Bucket>)
    requires Level(b, units, other, x, y) && OneSurchargePerModel(b, units) && size > 0
    ensures Affordable(b, size, x) <==> Affordable(b, size, y)
    decreases |AllUnits(x)|
  {
    LevelModels(b, size, units, other, x, y);
    if Choose(b, size, x).Some? {
      LevelGroupsSave(b, size, units, other, x, y);
      LevelRound(b, size, units, other, x, y);
      RoundSplits(b, size, x);
      LevelRunsAffordable(b, size, units, other, AfterRound(b, size, x, Choose(b, size, x).value),
                          AfterRound(b, size, y, Choose(b, size, y).value));
    }
  }

  lemma {:induction false} StartLevel(b: Bundle, units: seq<Unit>, other: seq<Unit>)
    requires b.requireDifferentPhoneModels && multiset(units) == multiset(other)
    ensures Level(b, units, other, Buckets(b, units), Buckets(b, other))
  {
    BucketsHoldTheUnits(b, units);
    BucketsHoldTheUnits(b, other);
    TailsOfItself(Buckets(b, units));
    TailsOfItself(Buckets(b, other));
    forall key ensures |At(Buckets(b, units), key)| == |At(Buckets(b, other), key)| {
      SameLength(b, units, other, key);
    }
  }

  /** Whatever the order of the lines, the same units save the same. */
  lemma {:induction false} OrderIsIrrelevant(b: Bundle, units: seq<Unit>, other: seq<Unit>)
    requires SizeOf(b) >= 2 && b.requireDifferentPhoneModels && multiset(units) == multiset(other) && OneSurchargePerModel(b, units)
    ensures TotalDiscount(b, Groups(b, units)) == TotalDiscount(b, Groups(b, other))
    ensures Affordable(b, SizeOf(b), Buckets(b, units)) <==> Affordable(b, SizeOf(b), Buckets(b, other))
  {
    StartLevel(b, units, other);
    LevelRunsSave(b, SizeOf(b), units, other, Buckets(b, units), Buckets(b, other), false);
    LevelRunsAffordable(b, SizeOf(b), units, other, Buckets(b, units), Buckets(b, other));
  }

  // ------------------------------------------------------------ the promise, whatever the order

  lemma {:induction false} OldModelStays(b: Bundle, units: seq<Unit>, added: seq<Unit>, key: string)
    requires key !in KeysIn(b, added)
    ensures OfKey(b, units + added, key) == OfKey(b, units, key)
  {
    if added == [] {
      assert units + added == units;
    } else {
      var n := |added| - 1;
      assert (units + added)[..|units| + n] == units + added[..n];
      assert (units + added)[|units| + n] == added[n];
      forall i | 0 <= i < n ensures KeyOf(b, added[..n][i]) != key {
        assert KeyOf(b, added[i]) in KeysIn(b, added);
      }
      assert KeyOf(b, added[n]) in KeysIn(b, added);
      OldModelStays(b, units, added[..n], key);
    }
  }

  /** Appended, the added units leave the order of all others alone. */
  lemma {:induction false} AppendedKeepsOrder(b: Bundle, units: seq<Unit>, free: seq<Unit>, added: seq<Unit>)
    requires KeysIn(b, free) !! KeysIn(b, added)
    ensures KeepsOrder(b, units, free, units + added)
  {
    forall u | u in free ensures OfKey(b, units + added, KeyOf(b, u)) == OfKey(b, units, KeyOf(b, u)) {
      KeyOfMember(b, free, u);
      OldModelStays(b, units, added, KeyOf(b, u));
    }
  }

  lemma {:induction false} AppendedCompletes(b: Bundle, units: seq<Unit>, free: seq<Unit>, added: seq<Unit>, completed: seq<Unit>)
    requires SizeOf(b) >= 2 && Completes(b, units, free, added, completed)
    ensures Completes(b, units, free, added, units + added)
    ensures multiset(completed) == multiset(units + added)
  {
    WithinBoundsRearranged(units + added, completed, b.minUnitPrice.value, WorstSurcharge(b));
  }

  /** Where every model has one surcharge, the announcement is kept in any order of the units whenever the
      completed cart's rounds stay affordable. */
  lemma {:induction false} AffordableKeepsPromiseInAnyOrder(b: Bundle, units: seq<Unit>, free: seq<Unit>, added: seq<Unit>,
                                                           completed: seq<Unit>, saving: int)
    requires SizeOf(b) >= 2 && b.isRepeatable && Completes(b, units, free, added, completed)
    requires OneSurchargePerModel(b, completed)
    requires Affordable(b, SizeOf(b), Buckets(b, completed))
    requires AnnouncesModels(b, units, free, |added|, saving)
    ensures TotalDiscount(b, Groups(b, completed)) >= TotalDiscount(b, Groups(b, units)) + saving
  {
    AppendedCompletes(b, units, free, added, completed);
    AppendedKeepsOrder(b, units, free, added);
    OrderIsIrrelevant(b, completed, units + added);
    AffordableKeepsPromise(b, units, free, added, units + added, saving);
  }
}
