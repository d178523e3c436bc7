/** A different-models cart whose regrouping loses everything: it is promised a saving, and after the missing
    units are added its first group is a cheap one, so the loop stops at once
    (src/modules/promotions/bundles/bundle-pricing.util.ts). */
module BundleLosingCart {
  import opened Options
  import opened Sums
  import opened BundlePricing
  import opened BundleGrouping
  import opened BundleOptimality
  import opened BundleProgress
  import opened BundleRounds
  import opened BundlePromise

  // ------------------------------------------------------------ a lineup of models

  function ModelOf(line: Line): string { ValueOr(line.phoneModelId, NO_PHONE_MODEL) }

  /** Two models more than a group takes, in the order that decides ties, each at the highest surcharge. */
  ghost predicate Lineup(b: Bundle, models: seq<Line>) {
    && b.requireDifferentPhoneModels && SizeOf(b) >= 2 && |models| == SizeOf(b) + 2
    && (forall i :: 0 <= i < |models| ==> MayFill(models[i], b) && UnitFor(models[i], b).surcharge == WorstSurcharge(b))
    && (forall i, j :: 0 <= i < j < |models| ==> KeyLess(ModelOf(models[i]), ModelOf(models[j])))
  }

  /** A unit of the `i`-th model; all but the last two models come at the least price. */
  ghost predicate UnitOf(b: Bundle, models: seq<Line>, least: nat, u: Unit, i: nat) {
    && i < |models| && KeyOf(b, u) == ModelOf(models[i]) && u.surcharge == WorstSurcharge(b)
    && u.price >= least && (i < SizeOf(b) ==> u.price == least)
  }

  /** The model of the `i`-th added unit: the models from the third on that were grouped before, then the first. */
  function AddedModel(size: int, i: nat): nat { if i + 2 < size then i + 2 else 0 }

  ghost predicate HeldUnit(b: Bundle, models: seq<Line>, least: nat, units: seq<Unit>, j: nat) {
    j < |units| && UnitOf(b, models, least, units[j], j + 1)
  }

  ghost predicate AddedUnit(b: Bundle, models: seq<Line>, least: nat, added: seq<Unit>, j: nat) {
    j < |added| && UnitOf(b, models, least, added[j], AddedModel(SizeOf(b), j))
  }

  /** The cart has one unit each of all models but the first, the last two dear enough for a group. */
  ghost predicate LosingUnits(b: Bundle, models: seq<Line>, least: nat, units: seq<Unit>, added: seq<Unit>, completed: seq<Unit>) {
    && Lineup(b, models)
    && |units| == SizeOf(b) + 1 && (forall j: nat :: j < |units| ==> HeldUnit(b, models, least, units, j))
    && |added| == SizeOf(b) - 1 && (forall j: nat :: j < |added| ==> AddedUnit(b, models, least, added, j))
    && multiset(completed) == multiset(units) + multiset(added)
    && units[SizeOf(b) - 1].price == b.fixedTotal + SizeOf(b) * WorstSurcharge(b)
    && units[SizeOf(b)].price == units[SizeOf(b) - 1].price + 1
  }

  lemma {:induction false} ModelsInOrder(b: Bundle, models: seq<Line>, i: nat, j: nat)
    requires Lineup(b, models) && i < |models| && j < |models| && i != j
    ensures ModelOf(models[i]) != ModelOf(models[j])
  {
    KeyLessIsStrict(ModelOf(models[i]), ModelOf(models[j]));
    KeyLessIsStrict(ModelOf(models[j]), ModelOf(models[i]));
  }

  lemma {:induction false} UnitsDiffer(b: Bundle, models: seq<Line>, least: nat, units: seq<Unit>, added: seq<Unit>, completed: seq<Unit>)
    requires LosingUnits(b, models, least, units, added, completed)
    ensures ModelsDiffer(b, units) && ModelsDiffer(b, added)
  {
    forall i: nat, j: nat | i < j < |units| ensures KeyOf(b, units[i]) != KeyOf(b, units[j]) {
      assert HeldUnit(b, models, least, units, i) && HeldUnit(b, models, least, units, j);
      HeldUnitsDiffer(b, models, least, units, i, j);
    }
    forall i: nat, j: nat | i < j < |added| ensures KeyOf(b, added[i]) != KeyOf(b, added[j]) {
      assert AddedUnit(b, models, least, added, i) && AddedUnit(b, models, least, added, j);
      AddedUnitsDiffer(b, models, least, added, i, j);
    }
  }

  lemma {:induction false} HeldUnitsDiffer(b: Bundle, models: seq<Line>, least: nat, units: seq<Unit>, i: nat, j: nat)
    requires Lineup(b, models) && i < j && HeldUnit(b, models, least, units, i) && HeldUnit(b, models, least, units, j)
    ensures KeyOf(b, units[i]) != KeyOf(b, units[j])
  {
    ModelsInOrder(b, models, i + 1, j + 1);
  }

  lemma {:induction false} AddedUnitsDiffer(b: Bundle, models: seq<Line>, least: nat, added: seq<Unit>, i: nat, j: nat)
    requires Lineup(b, models) && i < j < SizeOf(b) - 1 && AddedUnit(b, models, least, added, i) && AddedUnit(b, models, least, added, j)
    ensures KeyOf(b, added[i]) != KeyOf(b, added[j])
  {
    ModelsInOrder(b, models, AddedModel(SizeOf(b), i), AddedModel(SizeOf(b), j));
  }

  // ------------------------------------------------------------ which models the first round takes

  /** The model has at least as many units as the other, and comes first. */
  ghost predicate Precedes(b: Bundle, units: seq<Unit>, x: string, y: string) {
    KeyLess(x, y) && SumBy(units, WithKey(b, y)) <= SumBy(units, WithKey(b, x))
  }

  /** Models that precede all others fill the first group. */
  lemma {:induction false} FirstModelsAreTaken(b: Bundle, units: seq<Unit>, part: seq<Unit>)
    requires SizeOf(b) >= 2 && b.requireDifferentPhoneModels && ModelsDiffer(b, part)
    requires |part| == SizeOf(b) && KeysIn(b, part) <= KeysIn(b, units)
    requires forall x, y :: x in KeysIn(b, part) && y in KeysIn(b, units) && y !in KeysIn(b, part) ==> Precedes(b, units, x, y)
    ensures Choose(b, SizeOf(b), Buckets(b, units)).Some?
    ensures KeysOf(Choose(b, SizeOf(b), Buckets(b, units)).value) == KeysIn(b, part)
  {
    var buckets, size := Buckets(b, units), SizeOf(b);
    BucketsHoldTheUnits(b, units);
    KeysLeftOfUnits(b, buckets, units);
    KeysInCount(b, part);
    SubsetIsSmaller(KeysIn(b, part), KeysIn(b, units));
    ChooseByKeys(b, size, buckets);
    RoundByKeys(b, size, buckets);
    var taken := KeysOf(Choose(b, size, buckets).value);
    forall x | x in taken ensures x in KeysIn(b, part) {
      if x !in KeysIn(b, part) {
        var y := OtherMember(taken, KeysIn(b, part), x);
        KeysLeftAreFilled(buckets, x);
        BucketsAt(b, units, x);
        BucketsAt(b, units, y);
        assert Precedes(b, units, y, x);
        assert Outranks(|At(buckets, x)|, x, |At(buckets, y)|, y);
        KeyLessIsStrict(x, y);
        assert false;
      }
    }
    SubsetOfSameSize(taken, KeysIn(b, part));
  }

  lemma {:induction false} FirstGroupOf(b: Bundle, units: seq<Unit>)
    requires SizeOf(b) >= 2 && b.requireDifferentPhoneModels && Choose(b, SizeOf(b), Buckets(b, units)).Some?
    ensures var picks := Choose(b, SizeOf(b), Buckets(b, units)).value;
      && |PickedUnits(picks)| == SizeOf(b) && multiset(PickedUnits(picks)) <= multiset(units)
      && KeysIn(b, PickedUnits(picks)) == KeysOf(picks)
  {
    var buckets, size := Buckets(b, units), SizeOf(b);
    BucketsHoldTheUnits(b, units);
    RoundSplits(b, size, buckets);
    ChosenAreHeads(b, size, buckets);
    PickedKeys(b, buckets, Choose(b, size, buckets).value);
  }

  // ------------------------------------------------------------ before: one group, and the dearest unit left

  lemma {:induction false} AllButLastLead(b: Bundle, models: seq<Line>, least: nat, units: seq<Unit>, added: seq<Unit>, completed: seq<Unit>)
    requires LosingUnits(b, models, least, units, added, completed)
    ensures ModelsDiffer(b, units[..SizeOf(b)]) && KeysIn(b, units[..SizeOf(b)]) <= KeysIn(b, units)
    ensures KeyOf(b, units[SizeOf(b)]) !in KeysIn(b, units[..SizeOf(b)])
    ensures forall x, y :: x in KeysIn(b, units[..SizeOf(b)]) && y in KeysIn(b, units) && y !in KeysIn(b, units[..SizeOf(b)]) ==>
      Precedes(b, units, x, y)
  {
    var size, part := SizeOf(b), units[..SizeOf(b)];
    UnitsDiffer(b, models, least, units, added, completed);
    forall x | x in KeysIn(b, part) ensures x in KeysIn(b, units) && KeyLess(x, KeyOf(b, units[size])) {
      var i :| 0 <= i < |part| && KeyOf(b, part[i]) == x;
      assert HeldUnit(b, models, least, units, i) && HeldUnit(b, models, least, units, size);
    }
    KeyLessIsStrict(KeyOf(b, units[size]), KeyOf(b, units[size]));
    forall x, y | x in KeysIn(b, part) && y in KeysIn(b, units) && y !in KeysIn(b, part) ensures Precedes(b, units, x, y) {
      LastKey(b, units, size, y);
      AddedOnce(b, units, x);
      AddedOnce(b, units, y);
    }
  }

  lemma {:induction false} LastKey(b: Bundle, units: seq<Unit>, n: nat, y: string)
    requires |units| == n + 1 && y in KeysIn(b, units) && y !in KeysIn(b, units[..n])
    ensures y == KeyOf(b, units[n])
  {
    var j :| 0 <= j < |units| && KeyOf(b, units[j]) == y;
    forall h | 0 <= h < n ensures KeyOf(b, units[h]) in KeysIn(b, units[..n]) {
      assert units[..n][h] == units[h];
    }
  }

  lemma {:induction false} OtherModelNotPicked(b: Bundle, group: seq<Unit>, u: Unit)
    requires KeyOf(b, u) !in KeysIn(b, group)
    ensures u !in group
  {
    forall i | 0 <= i < |group| ensures group[i] != u {
      assert KeyOf(b, group[i]) in KeysIn(b, group);
    }
  }

  /** The only unit of its model is the one picked for it. */
  lemma {:induction false} OnlyUnitOfModel(b: Bundle, units: seq<Unit>, j: nat, u: Unit)
    requires b.requireDifferentPhoneModels && ModelsDiffer(b, units) && j < |units| && u in units && KeyOf(b, u) == KeyOf(b, units[j])
    ensures u == units[j]
  {
    var i :| 0 <= i < |units| && units[i] == u;
    assert !(i < j) && !(j < i);
  }

  /** The dear unit alone pays for its group. */
  lemma {:induction false} DearUnitPays(b: Bundle, models: seq<Line>, least: nat, units: seq<Unit>, added: seq<Unit>, completed: seq<Unit>,
                                        group: seq<Unit>)
    requires LosingUnits(b, models, least, units, added, completed)
    requires |group| == SizeOf(b) && multiset(group) <= multiset(units) && KeysIn(b, group) == KeysIn(b, units[..SizeOf(b)])
    ensures Discount(b, group) >= 0
  {
    var size := SizeOf(b);
    UnitsDiffer(b, models, least, units, added, completed);
    assert units[..size][size - 1] == units[size - 1];
    assert KeyOf(b, units[size - 1]) in KeysIn(b, units[..size]);
    var i :| 0 <= i < |group| && KeyOf(b, group[i]) == KeyOf(b, units[size - 1]);
    assert group[i] in multiset(group) && group[i] in multiset(units);
    OnlyUnitOfModel(b, units, size - 1, group[i]);
    SumPositive(group, group[i], PriceOf);
    forall u | u in group ensures u.surcharge <= WorstSurcharge(b) {
      assert u in multiset(group) && u in multiset(units);
      var j: nat :| j < |units| && units[j] == u;
      assert HeldUnit(b, models, least, units, j);
    }
    AtMostEach(group, WorstSurcharge(b));
  }

  lemma {:induction false} OneLeft(rest: multiset<Unit>, u: Unit)
    requires |rest| == 1 && u in rest
    ensures rest == multiset{u}
  {
    assert rest == multiset{u} + (rest - multiset{u});
    assert |rest - multiset{u}| == 0;
  }

  lemma {:induction false} LastUnitLeft(units: seq<Unit>, group: seq<Unit>, rest: seq<Unit>, u: Unit)
    requires multiset(units) == multiset(group) + multiset(rest) && |units| == |group| + 1
    requires u in units && u !in group
    ensures multiset(rest) == multiset([u]) && |rest| == 1
  {
    assert |multiset(units)| == |multiset(group)| + |multiset(rest)|;
    assert u in multiset(units) && u !in multiset(group);
    OneLeft(multiset(rest), u);
  }

  lemma {:induction false} NonEmptyAtMostUnits(buckets: seq<Bucket>)
    ensures |NonEmpty(buckets)| <= |AllUnits(buckets)|
  {
    if buckets != [] {
      NonEmptyAtMostUnits(buckets[1..]);
    }
  }

  lemma {:induction false} OneUnitNoGroup(b: Bundle, size: nat, buckets: seq<Bucket>)
    requires b.requireDifferentPhoneModels && DistinctKeys(buckets) && size >= 2 && |AllUnits(buckets)| == 1
    ensures FormGroups(b, size, buckets, true) == []
  {
    NonEmptyAtMostUnits(buckets);
  }

  lemma {:induction false} OneGroupLeavesOne(b: Bundle, units: seq<Unit>, group: seq<Unit>, u: Unit)
    requires SizeOf(b) >= 2 && b.requireDifferentPhoneModels && Choose(b, SizeOf(b), Buckets(b, units)).Some?
    requires group == PickedUnits(Choose(b, SizeOf(b), Buckets(b, units)).value) && Discount(b, group) >= 0
    requires |units| == |group| + 1 && u in units && u !in group
    ensures Groups(b, units) == [group] && multiset(units) == multiset(Flatten(Groups(b, units))) + multiset([u])
  {
    var buckets, size := Buckets(b, units), SizeOf(b);
    var picks := Choose(b, size, buckets).value;
    BucketsHoldTheUnits(b, units);
    RoundSplits(b, size, buckets);
    var rest := AfterRound(b, size, buckets, picks);
    LastUnitLeft(units, group, AllUnits(rest), u);
    OneUnitNoGroup(b, size, rest);
    FlattenHead(group, []);
    assert [group] + [] == [group] && Flatten<Unit>([]) == [];
  }

  /** One group is formed, and the dearest unit is left over. */
  lemma {:induction false} OneDearGroup(b: Bundle, models: seq<Line>, least: nat, units: seq<Unit>, added: seq<Unit>, completed: seq<Unit>)
    requires LosingUnits(b, models, least, units, added, completed)
    ensures |Groups(b, units)| == 1 && multiset(units) == multiset(Flatten(Groups(b, units))) + multiset([units[SizeOf(b)]])
  {
    var size := SizeOf(b);
    AllButLastLead(b, models, least, units, added, completed);
    UnitsDiffer(b, models, least, units, added, completed);
    FirstModelsAreTaken(b, units, units[..size]);
    FirstGroupOf(b, units);
    var group := PickedUnits(Choose(b, size, Buckets(b, units)).value);
    DearUnitPays(b, models, least, units, added, completed, group);
    OtherModelNotPicked(b, group, units[size]);
    OneGroupLeavesOne(b, units, group, units[size]);
  }

  lemma {:induction false} LosingUnitsTotal(b: Bundle, models: seq<Line>, least: nat, units: seq<Unit>, added: seq<Unit>, completed: seq<Unit>)
    requires LosingUnits(b, models, least, units, added, completed)
    ensures Subtotal(units) == (SizeOf(b) - 1) * least + units[SizeOf(b) - 1].price + units[SizeOf(b)].price
    ensures SumBy(units, SurchargeOf) == (SizeOf(b) + 1) * WorstSurcharge(b)
  {
    var n: nat := SizeOf(b) - 1;
    forall u | u in units ensures u.surcharge == WorstSurcharge(b) {
      var j: nat :| j < |units| && units[j] == u;
      assert HeldUnit(b, models, least, units, j);
    }
    forall u | u in units[..n] ensures u.price == least {
      var j: nat :| j < n && units[j] == u;
      assert HeldUnit(b, models, least, units, j);
    }
    SumConstant(units, WorstSurcharge(b), SurchargeOf);
    SumConstant(units[..n], least, PriceOf);
    TimesCommutes(n, least);
    TimesCommutes(|units|, WorstSurcharge(b));
    assert units == units[..n] + [units[n]] + [units[n + 1]];
    SumSnoc(units[..n] + [units[n]], units[n + 1], PriceOf);
    SumSnoc(units[..n], units[n], PriceOf);
  }

  /** What the first group saves: the price of its cheap units. */
  lemma {:induction false} DearGroupSaves(b: Bundle, models: seq<Line>, least: nat, units: seq<Unit>, added: seq<Unit>, completed: seq<Unit>)
    requires LosingUnits(b, models, least, units, added, completed)
    ensures TotalDiscount(b, Groups(b, units)) == (SizeOf(b) - 1) * least
  {
    var flat, dearest := Flatten(Groups(b, units)), units[SizeOf(b)];
    OneDearGroup(b, models, least, units, added, completed);
    TotalOfGroups(b, Groups(b, units));
    LosingUnitsTotal(b, models, least, units, added, completed);
    assert HeldUnit(b, models, least, units, SizeOf(b));
    SumRearranged(units, flat + [dearest], PriceOf);
    SumRearranged(units, flat + [dearest], SurchargeOf);
    SumSnoc(flat, dearest, PriceOf);
    SumSnoc(flat, dearest, SurchargeOf);
    OneMoreTimes(SizeOf(b) + 1, WorstSurcharge(b));
  }

  // ------------------------------------------------------------ after: a cheap group comes first

  lemma {:induction false} InCompleted(b: Bundle, models: seq<Line>, least: nat, units: seq<Unit>, added: seq<Unit>, completed: seq<Unit>,
                                       u: Unit) returns (i: nat)
    requires LosingUnits(b, models, least, units, added, completed) && u in completed
    ensures UnitOf(b, models, least, u, i)
  {
    assert u in multiset(completed) && (u in multiset(units) || u in multiset(added));
    if u in units {
      var j: nat :| j < |units| && units[j] == u;
      assert HeldUnit(b, models, least, units, j);
      i := j + 1;
    } else {
      var j: nat :| j < |added| && added[j] == u;
      assert AddedUnit(b, models, least, added, j);
      i := AddedModel(SizeOf(b), j);
    }
  }

  /** One unit of each of the cheap models. */
  function CheapPart(size: nat, units: seq<Unit>, added: seq<Unit>): (part: seq<Unit>)
    requires size >= 2 && |units| == size + 1 && |added| == size - 1
    ensures |part| == size
  {
    [added[size - 2]] + units[..size - 1]
  }

  lemma {:induction false} CheapModelAt(b: Bundle, models: seq<Line>, least: nat, units: seq<Unit>, added: seq<Unit>, completed: seq<Unit>,
                                        i: nat)
    requires LosingUnits(b, models, least, units, added, completed) && i < SizeOf(b)
    ensures var part := CheapPart(SizeOf(b), units, added); KeyOf(b, part[i]) == ModelOf(models[i]) && part[i] in completed
  {
    var size, part := SizeOf(b), CheapPart(SizeOf(b), units, added);
    if i > 0 {
      var j: nat := i - 1;
      assert HeldUnit(b, models, least, units, j) && units[j] in multiset(units);
      assert part[i] == units[j] && units[j] in multiset(completed);
    } else {
      var last: nat := size - 2;
      assert AddedUnit(b, models, least, added, last) && added[last] in multiset(added);
      assert part[0] == added[last] && added[last] in multiset(completed);
    }
  }

  lemma {:induction false} CheapModels(b: Bundle, models: seq<Line>, least: nat, units: seq<Unit>, added: seq<Unit>, completed: seq<Unit>)
    requires LosingUnits(b, models, least, units, added, completed)
    ensures var part := CheapPart(SizeOf(b), units, added);
      && ModelsDiffer(b, part) && KeysIn(b, part) <= KeysIn(b, completed)
      && (forall i: nat :: i < |part| ==> KeyOf(b, part[i]) == ModelOf(models[i]))
  {
    var part := CheapPart(SizeOf(b), units, added);
    forall i: nat | i < |part| ensures KeyOf(b, part[i]) == ModelOf(models[i]) {
      CheapModelAt(b, models, least, units, added, completed, i);
    }
    forall i: nat, j: nat | i < j < |part| ensures KeyOf(b, part[i]) != KeyOf(b, part[j]) {
      ModelsInOrder(b, models, i, j);
    }
    forall x | x in KeysIn(b, part) ensures x in KeysIn(b, completed) {
      var i: nat :| i < |part| && KeyOf(b, part[i]) == x;
      CheapModelAt(b, models, least, units, added, completed, i);
      var j :| 0 <= j < |completed| && completed[j] == part[i];
    }
  }

  lemma {:induction false} InCheapPart(b: Bundle, models: seq<Line>, least: nat, units: seq<Unit>, added: seq<Unit>, completed: seq<Unit>,
                                       i: nat)
    requires LosingUnits(b, models, least, units, added, completed) && i < |models|
    ensures ModelOf(models[i]) in KeysIn(b, CheapPart(SizeOf(b), units, added)) <==> i < SizeOf(b)
  {
    var part := CheapPart(SizeOf(b), units, added);
    CheapModels(b, models, least, units, added, completed);
    if i < |part| {
      assert KeyOf(b, part[i]) in KeysIn(b, part);
    }
    if ModelOf(models[i]) in KeysIn(b, part) {
      var j: nat :| j < |part| && KeyOf(b, part[j]) == ModelOf(models[i]);
      if i != j {
        ModelsInOrder(b, models, i, j);
      }
    }
  }

  lemma {:induction false} AddedModelsAreCheap(b: Bundle, models: seq<Line>, least: nat, units: seq<Unit>, added: seq<Unit>,
                                               completed: seq<Unit>, i: nat)
    requires LosingUnits(b, models, least, units, added, completed) && SizeOf(b) <= i < |models|
    ensures ModelOf(models[i]) !in KeysIn(b, added)
  {
    forall j: nat | j < |added| ensures KeyOf(b, added[j]) != ModelOf(models[i]) {
      assert AddedUnit(b, models, least, added, j);
      ModelsInOrder(b, models, AddedModel(SizeOf(b), j), i);
    }
  }

  /** A dear model still has one unit. */
  lemma {:induction false} DearModelsStaySingle(b: Bundle, models: seq<Line>, least: nat, units: seq<Unit>, added: seq<Unit>,
                                                completed: seq<Unit>, i: nat)
    requires LosingUnits(b, models, least, units, added, completed) && SizeOf(b) <= i < |models|
    ensures SumBy(completed, WithKey(b, ModelOf(models[i]))) == 1
  {
    var key := ModelOf(models[i]);
    UnitsDiffer(b, models, least, units, added, completed);
    AddedModelsAreCheap(b, models, least, units, added, completed, i);
    AddedOnce(b, units, key);
    AddedOnce(b, added, key);
    CompletedCount(b, units, added, completed, key);
    assert KeyOf(b, units[i - 1]) == key by {
      var j: nat := i - 1;
      assert HeldUnit(b, models, least, units, j);
    }
  }

  lemma {:induction false} PresentKeyCounts(b: Bundle, units: seq<Unit>, key: string)
    requires key in KeysIn(b, units)
    ensures SumBy(units, WithKey(b, key)) >= 1
  {
    var i :| 0 <= i < |units| && KeyOf(b, units[i]) == key;
    SumPositive(units, units[i], WithKey(b, key));
  }

  lemma {:induction false} CheapModelsLead(b: Bundle, models: seq<Line>, least: nat, units: seq<Unit>, added: seq<Unit>, completed: seq<Unit>,
                                           x: string, y: string)
    requires LosingUnits(b, models, least, units, added, completed)
    requires x in KeysIn(b, CheapPart(SizeOf(b), units, added))
    requires y in KeysIn(b, completed) && y !in KeysIn(b, CheapPart(SizeOf(b), units, added))
    ensures Precedes(b, completed, x, y)
  {
    var part := CheapPart(SizeOf(b), units, added);
    CheapModels(b, models, least, units, added, completed);
    var i: nat :| i < |part| && KeyOf(b, part[i]) == x;
    var k :| 0 <= k < |completed| && KeyOf(b, completed[k]) == y;
    var j := InCompleted(b, models, least, units, added, completed, completed[k]);
    InCheapPart(b, models, least, units, added, completed, j);
    DearModelsStaySingle(b, models, least, units, added, completed, j);
    PresentKeyCounts(b, completed, x);
  }

  /** So the completed cart gets no discount at all when a cheap group loses money. */
  lemma {:induction false} NothingIsFormed(b: Bundle, models: seq<Line>, least: nat, units: seq<Unit>, added: seq<Unit>, completed: seq<Unit>)
    requires LosingUnits(b, models, least, units, added, completed)
    requires b.fixedTotal + SizeOf(b) * WorstSurcharge(b) > SizeOf(b) * least
    ensures Groups(b, completed) == []
  {
    var size, part := SizeOf(b), CheapPart(SizeOf(b), units, added);
    CheapModels(b, models, least, units, added, completed);
    forall x, y | x in KeysIn(b, part) && y in KeysIn(b, completed) && y !in KeysIn(b, part) ensures Precedes(b, completed, x, y) {
      CheapModelsLead(b, models, least, units, added, completed, x, y);
    }
    FirstModelsAreTaken(b, completed, part);
    FirstGroupOf(b, completed);
    var group := PickedUnits(Choose(b, size, Buckets(b, completed)).value);
    forall u | u in group ensures u.price == least && u.surcharge == WorstSurcharge(b) {
      CheapGroupUnit(b, models, least, units, added, completed, group, u);
    }
    SumConstant(group, least, PriceOf);
    SumConstant(group, WorstSurcharge(b), SurchargeOf);
    TimesCommutes(size, least);
    TimesCommutes(size, WorstSurcharge(b));
  }

  lemma {:induction false} CheapGroupUnit(b: Bundle, models: seq<Line>, least: nat, units: seq<Unit>, added: seq<Unit>, completed: seq<Unit>,
                                          group: seq<Unit>, u: Unit)
    requires LosingUnits(b, models, least, units, added, completed)
    requires multiset(group) <= multiset(completed) && KeysIn(b, group) == KeysIn(b, CheapPart(SizeOf(b), units, added)) && u in group
    ensures u.price == least && u.surcharge == WorstSurcharge(b)
  {
    assert u in multiset(group) && u in multiset(completed);
    var i := InCompleted(b, models, least, units, added, completed, u);
    InCheapPart(b, models, least, units, added, completed, i);
    var k :| 0 <= k < |group| && group[k] == u;
  }

  // ------------------------------------------------------------ the units are what the offer asks for

  lemma {:induction false} OnlyUnitOfKey(b: Bundle, units: seq<Unit>, u: Unit)
    requires u in units && SumBy(units, WithKey(b, KeyOf(b, u))) == 1
    ensures OfKey(b, units, KeyOf(b, u)) == [u]
  {
    OfKeyCount(b, units, KeyOf(b, u));
    OfKeyMembers(b, units, KeyOf(b, u), u);
  }

  lemma {:induction false} LosingUnitsAreNew(b: Bundle, models: seq<Line>, least: nat, units: seq<Unit>, added: seq<Unit>, completed: seq<Unit>)
    requires LosingUnits(b, models, least, units, added, completed)
    ensures AddsNewModels(b, units, [units[SizeOf(b)]], added, completed)
    ensures KeepsOrder(b, units, [units[SizeOf(b)]], completed)
    ensures WithinBounds(completed, least, WorstSurcharge(b))
  {
    var size, dearest := SizeOf(b), units[SizeOf(b)];
    UnitsDiffer(b, models, least, units, added, completed);
    assert HeldUnit(b, models, least, units, size) && dearest in multiset(units) && dearest in multiset(completed);
    AddedOnce(b, units, KeyOf(b, dearest));
    DearModelsStaySingle(b, models, least, units, added, completed, size + 1);
    AddedModelsAreCheap(b, models, least, units, added, completed, size + 1);
    OnlyUnitOfKey(b, units, dearest);
    OnlyUnitOfKey(b, completed, dearest);
    forall u | u in completed ensures u.price >= least && u.surcharge <= WorstSurcharge(b) {
      var i := InCompleted(b, models, least, units, added, completed, u);
    }
  }

  lemma {:induction false} CheapestOfOne(u: Unit)
    ensures |CheapestPerModel([u])| == 1 && SumBy(CheapestPerModel([u]), ModelPriceOf) == u.price
  {
    assert [u][..0] == [];
    assert CheapestPerModel([u]) == [ModelPrice(ModelKey(u), u.price)];
    SumOne(ModelPrice(ModelKey(u), u.price), ModelPriceOf);
  }
}
