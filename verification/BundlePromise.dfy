/** The saving the storefront announces for a different-models bundle, and what makes the regrouping of the
    completed cart grant it (src/modules/promotions/bundles/bundle-pricing.util.ts). */
module BundlePromise {
  import opened Options
  import opened Sums
  import opened BundlePricing
  import opened BundleGrouping
  import opened BundleOptimality
  import opened BundleProgress
  import opened BundleRounds

  // ------------------------------------------------------------ whole runs of rounds

  /** A repeatable different-models bundle over buckets whose rounds never meet a group that loses money. */
  ghost predicate Runnable(b: Bundle, size: nat, buckets: seq<Bucket>) {
    && b.requireDifferentPhoneModels && b.isRepeatable && size > 0
    && DistinctKeys(buckets) && Keyed(b, buckets)
    && Affordable(b, size, buckets)
  }

  /** What the grouping loop leaves behind. */
  ghost function Remains(b: Bundle, size: nat, buckets: seq<Bucket>): seq<Bucket>
    requires WellBucketed(b, buckets) && size > 0
    decreases |AllUnits(buckets)|
  {
    match NextGroup(b, size, buckets, true)
    case None => buckets
    case Some(picks) =>
      RoundSplits(b, size, buckets);
      Remains(b, size, AfterRound(b, size, buckets, picks))
  }

  lemma {:induction false} FormedAnyIrrelevant(b: Bundle, size: nat, buckets: seq<Bucket>)
    requires b.isRepeatable && WellBucketed(b, buckets) && size > 0
    ensures FormGroups(b, size, buckets, false) == FormGroups(b, size, buckets, true)
  {
    assert NextGroup(b, size, buckets, false) == NextGroup(b, size, buckets, true);
  }

  /** A round is possible exactly while enough models have units left. */
  lemma {:induction false} ChooseByKeys(b: Bundle, size: nat, buckets: seq<Bucket>)
    requires b.requireDifferentPhoneModels && DistinctKeys(buckets)
    ensures Choose(b, size, buckets).Some? <==> |KeysLeft(buckets)| >= size
  {
    KeysLeftCount(buckets);
  }

  lemma {:induction false} Round(b: Bundle, size: nat, x: seq<Bucket>) returns (rest: seq<Bucket>, taken: set<string>)
    requires Runnable(b, size, x) && Choose(b, size, x).Some?
    ensures Runnable(b, size, rest) && TopKeys(x, taken, size) && RoundTaken(x, rest, taken)
    ensures |FormGroups(b, size, x, true)| == 1 + |FormGroups(b, size, rest, true)|
    ensures Remains(b, size, x) == Remains(b, size, rest)
    ensures |AllUnits(rest)| < |AllUnits(x)|
  {
    var picks := Choose(b, size, x).value;
    RoundIsTaken(b, size, x, true);
    RoundByKeys(b, size, x);
    RoundSplits(b, size, x);
    AfterRoundKeyed(b, size, x, picks);
    rest, taken := AfterRound(b, size, x, picks), KeysOf(picks);
  }

  lemma {:induction false} NoRound(b: Bundle, size: nat, x: seq<Bucket>)
    requires Runnable(b, size, x)
    ensures Choose(b, size, x).None? ==> FormGroups(b, size, x, true) == [] && Remains(b, size, x) == x
  {
  }

  /** Under every key the second has a tail of the first. */
  ghost predicate Tails(x: seq<Bucket>, rest: seq<Bucket>) {
    forall key :: IsTail(At(x, key), At(rest, key))
  }

  predicate IsTail(s: seq<Unit>, t: seq<Unit>) { |t| <= |s| && t == s[|s| - |t|..] }

  lemma {:induction false} TailOfTail(s: seq<Unit>, t: seq<Unit>, u: seq<Unit>)
    requires IsTail(s, t) && IsTail(t, u)
    ensures IsTail(s, u)
  {
  }

  lemma {:induction false} RoundThenTails(x: seq<Bucket>, next: seq<Bucket>, rest: seq<Bucket>, taken: set<string>)
    requires RoundTaken(x, next, taken) && Tails(next, rest)
    ensures Tails(x, rest)
  {
    forall key ensures IsTail(At(x, key), At(rest, key)) {
      assert IsTail(At(x, key), At(next, key));
      TailOfTail(At(x, key), At(next, key), At(rest, key));
    }
  }

  lemma {:induction false} AheadHasMoreKeys(x: seq<Bucket>, y: seq<Bucket>, ahead: set<string>)
    requires DistinctKeys(x) && DistinctKeys(y) && Ahead(x, y, ahead)
    ensures KeysLeft(y) == KeysLeft(x) + ahead
    ensures |KeysLeft(x)| <= |KeysLeft(y)|
  {
    forall key ensures key in KeysLeft(y) <==> key in KeysLeft(x) + ahead {
      KeysLeftAreFilled(x, key);
      KeysLeftAreFilled(y, key);
    }
    SubsetIsSmaller(KeysLeft(x), KeysLeft(y));
  }

  /** As long as the first cart forms groups, the second forms one with it, and stays one unit ahead
      under equally many models. */
  lemma {:induction false} StepTogether(b: Bundle, size: nat, x: seq<Bucket>, y: seq<Bucket>, ahead: set<string>)
    returns (yEnd: seq<Bucket>, aheadEnd: set<string>)
    requires Runnable(b, size, x) && Runnable(b, size, y) && Ahead(x, y, ahead)
    ensures Runnable(b, size, yEnd) && |aheadEnd| == |ahead|
    ensures Runnable(b, size, Remains(b, size, x)) && Choose(b, size, Remains(b, size, x)).None?
    ensures Ahead(Remains(b, size, x), yEnd, aheadEnd)
    ensures |FormGroups(b, size, y, true)| == |FormGroups(b, size, x, true)| + |FormGroups(b, size, yEnd, true)|
    ensures Remains(b, size, y) == Remains(b, size, yEnd)
    ensures Tails(x, Remains(b, size, x)) && Tails(y, yEnd)
    decreases |AllUnits(x)|
  {
    ChooseByKeys(b, size, x);
    ChooseByKeys(b, size, y);
    AheadHasMoreKeys(x, y, ahead);
    if Choose(b, size, x).Some? {
      var x', s := Round(b, size, x);
      var y', t := Round(b, size, y);
      RoundsKeepStep(x, y, ahead, s, t, size, x', y');
      yEnd, aheadEnd := StepTogether(b, size, x', y', NowAhead(ahead, s, t));
      RoundThenTails(x, x', Remains(b, size, x), s);
      RoundThenTails(y, y', yEnd, t);
    } else {
      NoRound(b, size, x);
      yEnd, aheadEnd := y, ahead;
    }
  }

  lemma {:induction false} FullUnionIsDisjoint<T>(a: set<T>, c: set<T>)
    requires |a + c| >= |a| + |c|
    ensures a !! c
  {
    assert a + c == a + (c - a);
    assert c == (c - a) + (a * c);
  }

  lemma {:induction false} SubsetOfSameSize<T>(a: set<T>, c: set<T>)
    requires a <= c && |a| >= |c|
    ensures a == c
  {
    assert c == a + (c - a);
    assert |c - a| == 0;
  }

  /** The last extra units and the models the first cart has left are just enough: the round takes them all. */
  lemma {:induction false} AllAreTaken(b: Bundle, size: nat, x: seq<Bucket>, y: seq<Bucket>, ahead: set<string>, taken: set<string>)
    requires b.requireDifferentPhoneModels && DistinctKeys(x) && DistinctKeys(y) && Ahead(x, y, ahead)
    requires |KeysLeft(x)| + |ahead| == size && Choose(b, size, y).Some? && TopKeys(y, taken, size)
    ensures taken == KeysLeft(y) == KeysLeft(x) + ahead && KeysLeft(x) !! ahead
  {
    ChooseByKeys(b, size, y);
    AheadHasMoreKeys(x, y, ahead);
    FullUnionIsDisjoint(KeysLeft(x), ahead);
    forall key | key in taken ensures key in KeysLeft(y) {
      KeysLeftAreFilled(y, key);
    }
    SubsetOfSameSize(taken, KeysLeft(y));
  }

  /** The first cart can form no further group, the second just one: it takes the last extra units and
      one unit of every model the first has left. */
  lemma {:induction false} LastRound(b: Bundle, size: nat, x: seq<Bucket>, y: seq<Bucket>, ahead: set<string>)
    requires DistinctKeys(x) && Runnable(b, size, y) && Ahead(x, y, ahead)
    requires |KeysLeft(x)| + |ahead| == size && |ahead| > 0 && Choose(b, size, y).Some?
    ensures |FormGroups(b, size, y, true)| == 1 && KeysLeft(x) !! ahead
    ensures Runnable(b, size, Remains(b, size, y))
    ensures forall key :: At(Remains(b, size, y), key) == if key in KeysLeft(x) && At(y, key) != [] then At(y, key)[1..] else []
  {
    var rest, taken := Round(b, size, y);
    AllAreTaken(b, size, x, y, ahead, taken);
    forall key ensures At(rest, key) == if key in KeysLeft(x) && At(y, key) != [] then At(y, key)[1..] else [] {
      KeysLeftAreFilled(x, key);
      KeysLeftAreFilled(y, key);
    }
    forall key | key in KeysLeft(rest) ensures key in KeysLeft(x) {
      KeysLeftAreFilled(rest, key);
    }
    SubsetIsSmaller(KeysLeft(rest), KeysLeft(x));
    ChooseByKeys(b, size, rest);
    NoRound(b, size, rest);
  }

  // ------------------------------------------------------------ contents by model

  function OfKey(b: Bundle, units: seq<Unit>, key: string): seq<Unit> {
    if units == [] then []
    else
      var n := |units| - 1;
      if KeyOf(b, units[n]) == key then OfKey(b, units[..n], key) + [units[n]] else OfKey(b, units[..n], key)
  }

  lemma {:induction false} AddUnitAt(buckets: seq<Bucket>, key: string, u: Unit, other: string)
    ensures At(AddUnit(buckets, key, u), other) == if other == key then At(buckets, key) + [u] else At(buckets, other)
  {
    if buckets != [] && buckets[0].key != key {
      AddUnitAt(buckets[1..], key, u, other);
      assert AddUnit(buckets, key, u)[1..] == AddUnit(buckets[1..], key, u);
    } else if buckets != [] {
      assert AddUnit(buckets, key, u)[1..] == buckets[1..];
    }
  }

  lemma {:induction false} BucketedAt(b: Bundle, units: seq<Unit>, key: string)
    ensures At(Bucketed(b, units), key) == OfKey(b, units, key)
  {
    if units != [] {
      var n := |units| - 1;
      BucketedAt(b, units[..n], key);
      AddUnitAt(Bucketed(b, units[..n]), KeyOf(b, units[n]), units[n], key);
    }
  }

  lemma {:induction false} SortEachAt(buckets: seq<Bucket>, key: string)
    ensures At(SortEach(buckets), key) == DearestFirst(At(buckets, key))
  {
    if buckets != [] {
      SortEachAt(buckets[1..], key);
      assert SortEach(buckets)[1..] == SortEach(buckets[1..]);
    }
  }

  /** Each model's bucket holds its units, dearest first. */
  lemma {:induction false} BucketsAt(b: Bundle, units: seq<Unit>, key: string)
    ensures At(Buckets(b, units), key) == DearestFirst(OfKey(b, units, key))
    ensures |At(Buckets(b, units), key)| == SumBy(units, WithKey(b, key))
  {
    BucketedAt(b, units, key);
    SortEachAt(Bucketed(b, units), key);
    SortPermutes(OfKey(b, units, key));
    assert |multiset(DearestFirst(OfKey(b, units, key)))| == |multiset(OfKey(b, units, key))|;
    OfKeyCount(b, units, key);
  }

  lemma {:induction false} OfKeyCount(b: Bundle, units: seq<Unit>, key: string)
    ensures |OfKey(b, units, key)| == SumBy(units, WithKey(b, key))
  {
    if units != [] {
      var n := |units| - 1;
      OfKeyCount(b, units[..n], key);
      assert units == units[..n] + [units[n]];
      SumSnoc(units[..n], units[n], WithKey(b, key));
    }
  }

  lemma {:induction false} OfKeyMembers(b: Bundle, units: seq<Unit>, key: string, u: Unit)
    ensures u in OfKey(b, units, key) <==> u in units && KeyOf(b, u) == key
  {
    if units != [] {
      var n := |units| - 1;
      OfKeyMembers(b, units[..n], key, u);
      assert units == units[..n] + [units[n]];
    }
  }

  lemma {:induction false} AbsentInAllUnits(b: Bundle, buckets: seq<Bucket>, u: Unit)
    requires Keyed(b, buckets) && forall i :: 0 <= i < |buckets| ==> buckets[i].key != KeyOf(b, u)
    ensures multiset(AllUnits(buckets))[u] == 0
  {
    if u in AllUnits(buckets) {
      UnitHasBucket(b, buckets, u);
    }
  }

  /** A unit occurs in the buckets as often as under its own key. */
  lemma {:induction false} Multiplicity(b: Bundle, buckets: seq<Bucket>, u: Unit)
    requires Keyed(b, buckets) && DistinctKeys(buckets)
    ensures multiset(AllUnits(buckets))[u] == multiset(At(buckets, KeyOf(b, u)))[u]
  {
    if buckets != [] {
      var rest := buckets[1..];
      assert forall i :: 0 <= i < |rest| ==> rest[i] == buckets[i + 1];
      if buckets[0].key == KeyOf(b, u) {
        AbsentInAllUnits(b, rest, u);
      } else {
        assert u !in buckets[0].units;
        Multiplicity(b, rest, u);
      }
    }
  }

  lemma {:induction false} SameContents(b: Bundle, p: seq<Bucket>, q: seq<Bucket>)
    requires Keyed(b, p) && DistinctKeys(p) && Keyed(b, q) && DistinctKeys(q)
    requires forall key :: At(p, key) == At(q, key)
    ensures multiset(AllUnits(p)) == multiset(AllUnits(q))
  {
    forall u: Unit ensures multiset(AllUnits(p))[u] == multiset(AllUnits(q))[u] {
      Multiplicity(b, p, u);
      Multiplicity(b, q, u);
    }
  }

  /** The first unit of every model that has units left. */
  function FirstOfEach(buckets: seq<Bucket>): seq<Pick> { Heads(NonEmpty(buckets)) }

  lemma {:induction false} FirstsKeys(buckets: seq<Bucket>)
    ensures KeysOf(FirstOfEach(buckets)) == KeysLeft(buckets)
  {
    var some, picks := NonEmpty(buckets), FirstOfEach(buckets);
    forall key | key in KeysLeft(buckets) ensures key in KeysOf(picks) {
      var i :| 0 <= i < |buckets| && buckets[i].units != [] && buckets[i].key == key;
      NonEmptyKeeps(buckets, i);
      var k :| 0 <= k < |some| && some[k] == buckets[i];
      assert picks[k].key == key;
    }
    forall key | key in KeysOf(picks) ensures key in KeysLeft(buckets) {
      var k :| 0 <= k < |picks| && picks[k].key == key;
      assert some[k] in some;
      var i :| 0 <= i < |buckets| && buckets[i] == some[k];
    }
  }

  lemma {:induction false} FirstsAreHeads(buckets: seq<Bucket>)
    requires DistinctKeys(buckets)
    ensures PicksAreHeads(buckets, FirstOfEach(buckets))
    ensures KeysOf(FirstOfEach(buckets)) == KeysLeft(buckets)
    ensures |FirstOfEach(buckets)| == |KeysLeft(buckets)|
  {
    var some, picks := NonEmpty(buckets), FirstOfEach(buckets);
    FirstsKeys(buckets);
    NonEmptyKeepsKeysDistinct(buckets);
    KeysLeftCount(buckets);
    forall p | p in picks ensures HasHead(buckets, p) {
      var k :| 0 <= k < |picks| && picks[k] == p;
      assert some[k] in some;
      var i :| 0 <= i < |buckets| && buckets[i] == some[k];
    }
  }

  /** Buckets that lost exactly the first unit of every model. */
  lemma {:induction false} LostFirsts(b: Bundle, x: seq<Bucket>, rest: seq<Bucket>)
    requires Keyed(b, x) && DistinctKeys(x) && Keyed(b, rest) && DistinctKeys(rest)
    requires forall key :: At(rest, key) == if At(x, key) != [] then At(x, key)[1..] else []
    ensures multiset(AllUnits(x)) == multiset(PickedUnits(FirstOfEach(x))) + multiset(AllUnits(rest))
  {
    var picks := FirstOfEach(x);
    FirstsAreHeads(x);
    DropPicksSplits(x, picks);
    DropPicksKeyed(b, x, picks);
    forall key ensures At(DropPicks(x, picks), key) == At(rest, key) {
      DropPicksAt(x, picks, key);
      KeysLeftAreFilled(x, key);
    }
    SameContents(b, DropPicks(x, picks), rest);
  }

  // ------------------------------------------------------------ the cheapest free unit of each model

  ghost predicate DistinctModels(prices: seq<ModelPrice>) {
    forall i, j :: 0 <= i < j < |prices| ==> prices[i].key != prices[j].key
  }

  ghost predicate Knows(prices: seq<ModelPrice>, key: string, most: int) {
    exists i :: 0 <= i < |prices| && prices[i].key == key && prices[i].price <= most
  }

  function ModelsOf(prices: seq<ModelPrice>): set<string> {
    set i | 0 <= i < |prices| :: prices[i].key
  }

  lemma {:induction false} NoteModels(known: seq<ModelPrice>, key: string, price: int)
    ensures ModelsOf(NoteModelPrice(known, key, price)) == ModelsOf(known) + {key}
  {
    var noted := NoteModelPrice(known, key, price);
    if known == [] {
      assert noted[0].key == key;
    } else if known[0].key == key {
      assert forall i :: 0 <= i < |known| ==> noted[i].key == known[i].key;
      assert noted[0].key == key;
    } else {
      NoteModels(known[1..], key, price);
      assert noted[1..] == NoteModelPrice(known[1..], key, price);
      forall k ensures k in ModelsOf(noted) <==> k in ModelsOf(known) + {key} {
        ModelsSplit(noted, k);
        ModelsSplit(known, k);
      }
    }
  }

  lemma {:induction false} NoteKeepsDistinct(known: seq<ModelPrice>, key: string, price: int)
    requires DistinctModels(known)
    ensures DistinctModels(NoteModelPrice(known, key, price))
  {
    var noted := NoteModelPrice(known, key, price);
    if known != [] && known[0].key != key {
      var rest := known[1..];
      assert forall i :: 0 <= i < |rest| ==> rest[i] == known[i + 1];
      NoteKeepsDistinct(rest, key, price);
      NoteModels(rest, key, price);
      var inner := NoteModelPrice(rest, key, price);
      assert noted[1..] == inner;
      forall j | 0 < j < |noted| ensures noted[j].key != known[0].key {
        assert inner[j - 1] == noted[j] && inner[j - 1].key in ModelsOf(inner);
      }
      forall i, j | 0 < i < j < |noted| ensures noted[i].key != noted[j].key {
        assert inner[i - 1] == noted[i] && inner[j - 1] == noted[j];
      }
    } else if known != [] {
      assert forall i :: 0 <= i < |known| ==> noted[i].key == known[i].key;
    }
  }

  lemma {:induction false} KnowsSplit(prices: seq<ModelPrice>, key: string, most: int)
    requires prices != []
    ensures Knows(prices, key, most) <==> (prices[0].key == key && prices[0].price <= most) || Knows(prices[1..], key, most)
  {
    if Knows(prices[1..], key, most) {
      var i :| 0 <= i < |prices[1..]| && prices[1..][i].key == key && prices[1..][i].price <= most;
      assert prices[i + 1].key == key;
    }
    if Knows(prices, key, most) && !(prices[0].key == key && prices[0].price <= most) {
      var i :| 0 <= i < |prices| && prices[i].key == key && prices[i].price <= most;
      assert prices[1..][i - 1].key == key;
    }
  }

  lemma {:induction false} NoteKnows(known: seq<ModelPrice>, key: string, price: int, other: string, most: int)
    requires Knows(known, other, most) || (other == key && price <= most)
    ensures Knows(NoteModelPrice(known, key, price), other, most)
  {
    var noted := NoteModelPrice(known, key, price);
    KnowsSplit(noted, other, most);
    if known != [] {
      KnowsSplit(known, other, most);
      if known[0].key != key && !(known[0].key == other && known[0].price <= most) {
        NoteKnows(known[1..], key, price, other, most);
        assert noted[1..] == NoteModelPrice(known[1..], key, price);
      } else if known[0].key == key {
        assert noted[1..] == known[1..];
      }
    }
  }

  lemma {:induction false} ModelsSplit(prices: seq<ModelPrice>, key: string)
    requires prices != []
    ensures key in ModelsOf(prices) <==> key == prices[0].key || key in ModelsOf(prices[1..])
  {
    if key in ModelsOf(prices) && key != prices[0].key {
      var i :| 0 <= i < |prices| && prices[i].key == key;
      assert prices[1..][i - 1].key == key;
    }
    if key in ModelsOf(prices[1..]) {
      var i :| 0 <= i < |prices[1..]| && prices[1..][i].key == key;
      assert prices[i + 1].key == key;
    }
  }

  lemma {:induction false} ModelCount(prices: seq<ModelPrice>)
    requires DistinctModels(prices)
    ensures |ModelsOf(prices)| == |prices|
  {
    if prices != [] {
      var rest := prices[1..];
      assert forall i :: 0 <= i < |rest| ==> rest[i] == prices[i + 1];
      ModelCount(rest);
      forall key ensures key in ModelsOf(prices) <==> key in {prices[0].key} + ModelsOf(rest) {
        ModelsSplit(prices, key);
      }
      assert ModelsOf(prices) == {prices[0].key} + ModelsOf(rest);
      assert prices[0].key !in ModelsOf(rest);
    }
  }

  function KeysIn(b: Bundle, units: seq<Unit>): set<string> { set i | 0 <= i < |units| :: KeyOf(b, units[i]) }

  /** One entry per model, at most as dear as any free unit of that model. */
  lemma {:induction false} CheapestKnown(b: Bundle, free: seq<Unit>)
    requires b.requireDifferentPhoneModels
    ensures DistinctModels(CheapestPerModel(free))
    ensures ModelsOf(CheapestPerModel(free)) == KeysIn(b, free)
    ensures forall u :: u in free ==> Knows(CheapestPerModel(free), KeyOf(b, u), u.price)
  {
    if free != [] {
      var n := |free| - 1;
      var known := CheapestPerModel(free[..n]);
      CheapestKnown(b, free[..n]);
      NoteModels(known, ModelKey(free[n]), free[n].price);
      NoteKeepsDistinct(known, ModelKey(free[n]), free[n].price);
      assert free == free[..n] + [free[n]];
      forall u | u in free ensures Knows(CheapestPerModel(free), KeyOf(b, u), u.price) {
        NoteKnows(known, ModelKey(free[n]), free[n].price, KeyOf(b, u), u.price);
      }
      assert KeysIn(b, free) == KeysIn(b, free[..n]) + {KeyOf(b, free[n])};
    }
  }

  /** Every entry has a unit of its model that is at least as dear. */
  ghost predicate Matched(b: Bundle, prices: seq<ModelPrice>, units: seq<Unit>) {
    forall i :: 0 <= i < |prices| ==> HasUnit(b, units, prices[i])
  }

  ghost predicate HasUnit(b: Bundle, units: seq<Unit>, p: ModelPrice) {
    exists j :: 0 <= j < |units| && KeyOf(b, units[j]) == p.key && units[j].price >= p.price
  }

  lemma {:induction false} MatchedIsWorthMore(b: Bundle, prices: seq<ModelPrice>, units: seq<Unit>)
    requires DistinctModels(prices) && Matched(b, prices, units)
    ensures SumBy(prices, ModelPriceOf) <= Subtotal(units)
  {
    if prices == [] {
      SumNonNegative(units, PriceOf);
    } else {
      var later := prices[1..];
      assert forall i :: 0 <= i < |later| ==> later[i] == prices[i + 1];
      assert HasUnit(b, units, prices[0]);
      var j :| 0 <= j < |units| && KeyOf(b, units[j]) == prices[0].key && units[j].price >= prices[0].price;
      var others := units[..j] + units[j + 1..];
      forall i | 0 <= i < |later| ensures HasUnit(b, others, later[i]) {
        assert HasUnit(b, units, prices[i + 1]);
        var k :| 0 <= k < |units| && KeyOf(b, units[k]) == later[i].key && units[k].price >= later[i].price;
        assert k != j;
        assert others[if k < j then k else k - 1] == units[k];
      }
      MatchedIsWorthMore(b, later, others);
      SumRemove(units, j, PriceOf);
    }
  }

  // ------------------------------------------------------------ the announcement, and how it is taken up

  /** What the storefront announces for a different-models bundle, in terms of the cart's units. */
  ghost predicate AnnouncesModels(b: Bundle, units: seq<Unit>, free: seq<Unit>, needed: nat, saving: int)
    requires SizeOf(b) >= 2
  {
    && b.minUnitPrice.Some?
    && (b.isRepeatable || Groups(b, units) == [])
    && multiset(units) == multiset(Flatten(Groups(b, units))) + multiset(free)
    && needed == SizeOf(b) - |CheapestPerModel(free)|
    && saving == SumBy(CheapestPerModel(free), ModelPriceOf) + needed * b.minUnitPrice.value
                 - (b.fixedTotal + SizeOf(b) * WorstSurcharge(b))
  }

  /** The completed cart holds the added units besides the old ones: of pairwise different models, none of
      them a model with a free unit. */
  ghost predicate AddsNewModels(b: Bundle, units: seq<Unit>, free: seq<Unit>, added: seq<Unit>, completed: seq<Unit>) {
    && multiset(completed) == multiset(units) + multiset(added)
    && ModelsDiffer(b, added)
    && KeysIn(b, free) !! KeysIn(b, added)
  }

  /** Under every model with a free unit, the completed cart has the same units in the same order. */
  ghost predicate KeepsOrder(b: Bundle, units: seq<Unit>, free: seq<Unit>, completed: seq<Unit>) {
    forall u :: u in free ==> OfKey(b, completed, KeyOf(b, u)) == OfKey(b, units, KeyOf(b, u))
  }

  lemma {:induction false} KeyOfMember(b: Bundle, units: seq<Unit>, u: Unit)
    requires u in units
    ensures KeyOf(b, u) in KeysIn(b, units)
  {
    var i :| 0 <= i < |units| && units[i] == u;
  }

  /** A unit of a model with a free unit was in the cart before. */
  lemma {:induction false} FreeModelUnitIsOld(b: Bundle, units: seq<Unit>, free: seq<Unit>, added: seq<Unit>, completed: seq<Unit>, u: Unit)
    requires AddsNewModels(b, units, free, added, completed) && u in completed && KeyOf(b, u) in KeysIn(b, free)
    ensures u in units
  {
    assert u in multiset(completed) && (u in multiset(units) || u in multiset(added));
    if u in added {
      KeyOfMember(b, added, u);
    }
  }

  lemma {:induction false} CompletedCount(b: Bundle, units: seq<Unit>, added: seq<Unit>, completed: seq<Unit>, key: string)
    requires multiset(completed) == multiset(units) + multiset(added)
    ensures SumBy(completed, WithKey(b, key)) == SumBy(units, WithKey(b, key)) + SumBy(added, WithKey(b, key))
  {
    SumRearranged(completed, units + added, WithKey(b, key));
    SumConcat(units, added, WithKey(b, key));
  }

  lemma {:induction false} AddedOnce(b: Bundle, added: seq<Unit>, key: string)
    requires b.requireDifferentPhoneModels && ModelsDiffer(b, added)
    ensures SumBy(added, WithKey(b, key)) == if key in KeysIn(b, added) then 1 else 0
  {
    GroupUsesKeyOnce(b, added, key);
    if key in KeysIn(b, added) {
      var i :| 0 <= i < |added| && KeyOf(b, added[i]) == key;
      assert added[i] in added;
      SumPositive(added, added[i], WithKey(b, key));
    } else {
      forall u | u in added ensures WithKey(b, key)(u) == 0 {
        var i :| 0 <= i < |added| && added[i] == u;
      }
      SumZero(added, WithKey(b, key));
    }
  }

  lemma {:induction false} KeysInCount(b: Bundle, added: seq<Unit>)
    requires b.requireDifferentPhoneModels && ModelsDiffer(b, added)
    ensures |KeysIn(b, added)| == |added|
  {
    if added != [] {
      var rest := added[1..];
      assert forall i :: 0 <= i < |rest| ==> rest[i] == added[i + 1];
      KeysInCount(b, rest);
      assert KeysIn(b, added) == {KeyOf(b, added[0])} + KeysIn(b, rest);
      assert KeyOf(b, added[0]) !in KeysIn(b, rest);
    }
  }

  lemma {:induction false} CompletedIsAhead(b: Bundle, units: seq<Unit>, free: seq<Unit>, added: seq<Unit>, completed: seq<Unit>)
    requires b.requireDifferentPhoneModels && AddsNewModels(b, units, free, added, completed)
    ensures Ahead(Buckets(b, units), Buckets(b, completed), KeysIn(b, added))
  {
    forall key ensures |At(Buckets(b, completed), key)| == |At(Buckets(b, units), key)| + if key in KeysIn(b, added) then 1 else 0 {
      BucketsAt(b, units, key);
      BucketsAt(b, completed, key);
      CompletedCount(b, units, added, completed, key);
      AddedOnce(b, added, key);
    }
  }

  // ------------------------------------------------------------ what the loop leaves are the free units

  lemma {:induction false} GroupsAndRemains(b: Bundle, size: nat, x: seq<Bucket>)
    requires WellBucketed(b, x) && size > 0
    ensures multiset(AllUnits(x)) == multiset(Flatten(FormGroups(b, size, x, true))) + multiset(AllUnits(Remains(b, size, x)))
    decreases |AllUnits(x)|
  {
    var next := NextGroup(b, size, x, true);
    if next.Some? {
      RoundSplits(b, size, x);
      var rest := AfterRound(b, size, x, next.value);
      GroupsAndRemains(b, size, rest);
      FlattenHead(PickedUnits(next.value), FormGroups(b, size, rest, true));
    }
  }

  lemma {:induction false} AtKeyed(b: Bundle, buckets: seq<Bucket>, key: string)
    requires Keyed(b, buckets)
    ensures forall u :: u in At(buckets, key) ==> KeyOf(b, u) == key
  {
    if buckets != [] {
      var rest := buckets[1..];
      assert forall i :: 0 <= i < |rest| ==> rest[i] == buckets[i + 1];
      AtKeyed(b, rest, key);
    }
  }

  lemma {:induction false} KeysLeftOfUnits(b: Bundle, x: seq<Bucket>, free: seq<Unit>)
    requires Keyed(b, x) && DistinctKeys(x) && multiset(AllUnits(x)) == multiset(free)
    ensures KeysLeft(x) == KeysIn(b, free)
  {
    forall key ensures key in KeysLeft(x) <==> key in KeysIn(b, free) {
      KeysLeftAreFilled(x, key);
      AtKeyed(b, x, key);
      if At(x, key) != [] {
        var u := At(x, key)[0];
        assert u in At(x, key);
        Multiplicity(b, x, u);
        assert u in multiset(free);
        var i :| 0 <= i < |free| && free[i] == u;
      }
      if key in KeysIn(b, free) {
        var i :| 0 <= i < |free| && KeyOf(b, free[i]) == key;
        assert free[i] in multiset(free);
        Multiplicity(b, x, free[i]);
        assert free[i] in multiset(At(x, key));
      }
    }
  }

  // ------------------------------------------------------------ no group loses money

  /** The advertised bounds alone rule out a group that loses money. */
  predicate BoundsCoverPrice(b: Bundle) {
    b.minUnitPrice.Some? && b.fixedTotal + SizeOf(b) * WorstSurcharge(b) <= SizeOf(b) * b.minUnitPrice.value
  }

  lemma {:induction false} BoundedNeverNegative(b: Bundle, units: seq<Unit>)
    requires BoundsCoverPrice(b) && SizeOf(b) >= 2 && WithinBounds(units, b.minUnitPrice.value, WorstSurcharge(b))
    ensures NeverNegative(b, SizeOf(b), multiset(units))
  {
    forall g: seq<Unit> | CompleteGroup(b, SizeOf(b), g) && multiset(g) <= multiset(units) ensures Discount(b, g) >= 0 {
      WithinBoundsRearranged(g, units, b.minUnitPrice.value, WorstSurcharge(b));
      AtLeastEach(g, b.minUnitPrice.value);
      AtMostEach(g, WorstSurcharge(b));
    }
  }

  // ------------------------------------------------------------ one group more

  lemma {:induction false} HeadHasItsKey(b: Bundle, x: seq<Bucket>, p: Pick)
    requires Keyed(b, x) && HasHead(x, p)
    ensures KeyOf(b, p.unit) == p.key
  {
    var j :| 0 <= j < |x| && x[j].key == p.key && x[j].units != [] && x[j].units[0] == p.unit;
    assert x[j].units[0] in x[j].units;
  }

  lemma {:induction false} FirstKeys(b: Bundle, x: seq<Bucket>)
    requires Keyed(b, x) && DistinctKeys(x)
    ensures var picks := FirstOfEach(x); forall i :: 0 <= i < |picks| ==> KeyOf(b, PickedUnits(picks)[i]) == picks[i].key
  {
    var picks := FirstOfEach(x);
    FirstsAreHeads(x);
    forall i | 0 <= i < |picks| ensures KeyOf(b, PickedUnits(picks)[i]) == picks[i].key {
      assert picks[i] in picks;
      HeadHasItsKey(b, x, picks[i]);
    }
  }

  lemma {:induction false} FirstUnits(b: Bundle, x: seq<Bucket>)
    requires Keyed(b, x) && DistinctKeys(x)
    ensures var firsts := PickedUnits(FirstOfEach(x));
      |firsts| == |KeysLeft(x)| && ModelsDiffer(b, firsts) && KeysIn(b, firsts) == KeysLeft(x)
  {
    var picks := FirstOfEach(x);
    var firsts := PickedUnits(picks);
    FirstsAreHeads(x);
    FirstKeys(b, x);
    forall key ensures key in KeysIn(b, firsts) <==> key in KeysOf(picks) {
      if key in KeysOf(picks) {
        var i :| 0 <= i < |picks| && picks[i].key == key;
        assert KeyOf(b, firsts[i]) == key;
      }
    }
  }

  lemma {:induction false} FirstsAreThere(x: seq<Bucket>)
    requires DistinctKeys(x)
    ensures multiset(PickedUnits(FirstOfEach(x))) <= multiset(AllUnits(x))
  {
    FirstsAreHeads(x);
    DropPicksSplits(x, FirstOfEach(x));
  }

  lemma {:induction false} EntryHasUnit(b: Bundle, free: seq<Unit>, firsts: seq<Unit>, i: nat)
    requires b.requireDifferentPhoneModels && i < |CheapestPerModel(free)|
    requires multiset(firsts) <= multiset(free) && KeysIn(b, firsts) == KeysIn(b, free)
    ensures HasUnit(b, firsts, CheapestPerModel(free)[i])
  {
    var prices := CheapestPerModel(free);
    CheapestKnown(b, free);
    assert prices[i].key in ModelsOf(prices);
    var j :| 0 <= j < |firsts| && KeyOf(b, firsts[j]) == prices[i].key;
    assert firsts[j] in multiset(firsts) && firsts[j] in multiset(free);
    EntryIsCheapest(prices, i, firsts[j].price);
  }

  /** The announced price of the free models is a lower bound for one free unit of each. */
  lemma {:induction false} FirstsCoverLeftover(b: Bundle, x: seq<Bucket>, free: seq<Unit>)
    requires b.requireDifferentPhoneModels && Keyed(b, x) && DistinctKeys(x) && multiset(AllUnits(x)) == multiset(free)
    ensures SumBy(CheapestPerModel(free), ModelPriceOf) <= Subtotal(PickedUnits(FirstOfEach(x)))
    ensures |CheapestPerModel(free)| == |KeysLeft(x)|
  {
    var prices, firsts := CheapestPerModel(free), PickedUnits(FirstOfEach(x));
    CheapestKnown(b, free);
    ModelCount(prices);
    KeysLeftOfUnits(b, x, free);
    FirstUnits(b, x);
    FirstsAreThere(x);
    forall i | 0 <= i < |prices| ensures HasUnit(b, firsts, prices[i]) {
      EntryHasUnit(b, free, firsts, i);
    }
    MatchedIsWorthMore(b, prices, firsts);
  }

  lemma {:induction false} DisjointModelsDiffer(b: Bundle, s: seq<Unit>, t: seq<Unit>)
    requires ModelsDiffer(b, s) && ModelsDiffer(b, t) && KeysIn(b, s) !! KeysIn(b, t)
    ensures ModelsDiffer(b, s + t)
  {
    var all := s + t;
    forall i, j | 0 <= i < j < |all| && b.requireDifferentPhoneModels ensures KeyOf(b, all[i]) != KeyOf(b, all[j]) {
      if i < |s| && j >= |s| {
        assert KeyOf(b, s[i]) in KeysIn(b, s) && KeyOf(b, t[j - |s|]) in KeysIn(b, t);
      }
    }
  }

  /** Besides the groups formed so far, the completed cart has room for one more: a free unit of every
      model that has one, and the added units. */
  lemma {:induction false} OneMoreGroupFits(b: Bundle, units: seq<Unit>, free: seq<Unit>, added: seq<Unit>, completed: seq<Unit>, x: seq<Bucket>)
    requires SizeOf(b) >= 2 && b.requireDifferentPhoneModels && AddsNewModels(b, units, free, added, completed)
    requires multiset(units) == multiset(Flatten(Groups(b, units))) + multiset(free)
    requires Keyed(b, x) && DistinctKeys(x) && multiset(AllUnits(x)) == multiset(free)
    requires |KeysLeft(x)| + |added| == SizeOf(b)
    ensures Grouping(b, SizeOf(b), completed, Groups(b, units) + [PickedUnits(FirstOfEach(x)) + added])
  {
    var groups, extra := Groups(b, units), PickedUnits(FirstOfEach(x)) + added;
    FirstUnits(b, x);
    FirstsAreThere(x);
    KeysLeftOfUnits(b, x, free);
    CompletedIsAhead(b, units, free, added, completed);
    DisjointModelsDiffer(b, PickedUnits(FirstOfEach(x)), added);
    GroupsAreDisjoint(b, units);
    FlattenConcat(groups, [extra]);
    FlattenHead(extra, []);
    assert Flatten<Unit>([]) == [] && [extra] + [] == [extra];
  }

  lemma {:induction false} CancelMultiset<T>(x: multiset<T>, y: multiset<T>, z: multiset<T>)
    requires x + z == y + z
    ensures x == y
  {
    forall u: T ensures x[u] == y[u] {
      assert (x + z)[u] == (y + z)[u];
    }
  }

  /** A grouping that uses exactly one more group's units saves what they are worth, less the price of a group. */
  lemma {:induction false} ExtraGroupSaves(b: Bundle, groups: seq<seq<Unit>>, more: seq<seq<Unit>>, extra: seq<Unit>, most: nat)
    requires |more| == |groups| + 1 && multiset(Flatten(more)) == multiset(Flatten(groups)) + multiset(extra)
    requires forall u :: u in extra ==> u.surcharge <= most
    ensures TotalDiscount(b, more) >= TotalDiscount(b, groups) + Subtotal(extra) - b.fixedTotal - |extra| * most
  {
    TotalOfGroups(b, groups);
    TotalOfGroups(b, more);
    OneMoreTimes(|more|, b.fixedTotal);
    SumRearranged(Flatten(more), Flatten(groups) + extra, PriceOf);
    SumRearranged(Flatten(more), Flatten(groups) + extra, SurchargeOf);
    SumConcat(Flatten(groups), extra, PriceOf);
    SumConcat(Flatten(groups), extra, SurchargeOf);
    AtMostEach(extra, most);
  }

  /** What the extra group is worth: the announced leftover and the least price for each added unit. */
  lemma {:induction false} ExtraWorth(b: Bundle, x: seq<Bucket>, free: seq<Unit>, added: seq<Unit>, least: nat)
    requires b.requireDifferentPhoneModels && Keyed(b, x) && DistinctKeys(x) && multiset(AllUnits(x)) == multiset(free)
    requires forall u :: u in added ==> u.price >= least
    ensures Subtotal(PickedUnits(FirstOfEach(x)) + added) >= SumBy(CheapestPerModel(free), ModelPriceOf) + |added| * least
  {
    FirstsCoverLeftover(b, x, free);
    AtLeastEach(added, least);
    SumConcat(PickedUnits(FirstOfEach(x)), added, PriceOf);
  }

  // ------------------------------------------------------------ the completed cart, regrouped

  /** A cart that is completed with as many units as the announcement asks for. */
  ghost predicate Completes(b: Bundle, units: seq<Unit>, free: seq<Unit>, added: seq<Unit>, completed: seq<Unit>)
    requires SizeOf(b) >= 2
  {
    && b.requireDifferentPhoneModels && b.minUnitPrice.Some?
    && multiset(units) == multiset(Flatten(Groups(b, units))) + multiset(free)
    && added != [] && |added| == SizeOf(b) - |CheapestPerModel(free)|
    && AddsNewModels(b, units, free, added, completed)
    && WithinBounds(completed, b.minUnitPrice.value, WorstSurcharge(b))
  }

  /** A positive saving is announced, and the missing units are added. */
  ghost predicate Offered(b: Bundle, units: seq<Unit>, free: seq<Unit>, added: seq<Unit>, completed: seq<Unit>, saving: int)
    requires SizeOf(b) >= 2
  {
    saving > 0 && AnnouncesModels(b, units, free, |added|, saving) && Completes(b, units, free, added, completed)
  }

  /** Advertised bounds that cover the price of a group make every cart affordable. */
  lemma {:induction false} BoundedIsAffordable(b: Bundle, units: seq<Unit>)
    requires SizeOf(b) >= 2 && BoundsCoverPrice(b) && WithinBounds(units, b.minUnitPrice.value, WorstSurcharge(b))
    ensures Affordable(b, SizeOf(b), Buckets(b, units))
  {
    BucketsHoldTheUnits(b, units);
    BoundedNeverNegative(b, units);
    NeverNegativeIsAffordable(b, SizeOf(b), Buckets(b, units));
  }

  /** Rounds that end for lack of models never met a group that loses money. */
  lemma {:induction false} EndedShortIsAffordable(b: Bundle, size: nat, x: seq<Bucket>)
    requires b.requireDifferentPhoneModels && b.isRepeatable && size > 0 && DistinctKeys(x)
    requires Choose(b, size, Remains(b, size, x)).None?
    ensures Affordable(b, size, x)
    decreases |AllUnits(x)|
  {
    var next := NextGroup(b, size, x, true);
    if next.Some? {
      RoundSplits(b, size, x);
      EndedShortIsAffordable(b, size, AfterRound(b, size, x, next.value));
    }
  }

  lemma {:induction false} RemainsStayDistinct(b: Bundle, size: nat, x: seq<Bucket>)
    requires b.requireDifferentPhoneModels && size > 0 && DistinctKeys(x) && Keyed(b, x)
    ensures DistinctKeys(Remains(b, size, x)) && Keyed(b, Remains(b, size, x))
    decreases |AllUnits(x)|
  {
    var next := NextGroup(b, size, x, true);
    if next.Some? {
      RoundSplits(b, size, x);
      AfterRoundKeyed(b, size, x, next.value);
      RemainsStayDistinct(b, size, AfterRound(b, size, x, next.value));
    }
  }

  /** A cart whose free units lack models was affordable. */
  lemma {:induction false} AnnouncedIsAffordable(b: Bundle, units: seq<Unit>, free: seq<Unit>)
    requires SizeOf(b) >= 2 && b.requireDifferentPhoneModels && b.isRepeatable
    requires multiset(units) == multiset(Flatten(Groups(b, units))) + multiset(free) && |CheapestPerModel(free)| < SizeOf(b)
    ensures Affordable(b, SizeOf(b), Buckets(b, units))
  {
    var buckets, size := Buckets(b, units), SizeOf(b);
    var x := Remains(b, size, buckets);
    BucketsHoldTheUnits(b, units);
    FormedAnyIrrelevant(b, size, buckets);
    GroupsAndRemains(b, size, buckets);
    RemainsStayDistinct(b, size, buckets);
    FreeAtEnd(b, units, free, x);
    ChooseByKeys(b, size, x);
    EndedShortIsAffordable(b, size, buckets);
  }

  lemma {:induction false} StartRunnable(b: Bundle, units: seq<Unit>)
    requires SizeOf(b) >= 2 && b.requireDifferentPhoneModels && b.isRepeatable
    requires Affordable(b, SizeOf(b), Buckets(b, units))
    ensures Runnable(b, SizeOf(b), Buckets(b, units))
    ensures Groups(b, units) == FormGroups(b, SizeOf(b), Buckets(b, units), true)
    ensures multiset(units) == multiset(Flatten(Groups(b, units))) + multiset(AllUnits(Remains(b, SizeOf(b), Buckets(b, units))))
  {
    BucketsHoldTheUnits(b, units);
    FormedAnyIrrelevant(b, SizeOf(b), Buckets(b, units));
    GroupsAndRemains(b, SizeOf(b), Buckets(b, units));
  }

  /** The rounds leave the same tail of a model's units in both carts when its units and counts agree. */
  lemma {:induction false} SameTail(b: Bundle, units: seq<Unit>, completed: seq<Unit>, x: seq<Bucket>, y: seq<Bucket>, key: string)
    requires OfKey(b, completed, key) == OfKey(b, units, key)
    requires Tails(Buckets(b, units), x) && Tails(Buckets(b, completed), y)
    requires |At(x, key)| == |At(y, key)|
    ensures At(x, key) == At(y, key)
  {
    BucketsAt(b, units, key);
    BucketsAt(b, completed, key);
    assert IsTail(At(Buckets(b, units), key), At(x, key));
    assert IsTail(At(Buckets(b, completed), key), At(y, key));
  }

  /** After the last round, the second cart has lost just the first free unit of every model. */
  lemma {:induction false} LastLosesFirsts(b: Bundle, units: seq<Unit>, free: seq<Unit>, added: seq<Unit>, completed: seq<Unit>,
                                           x: seq<Bucket>, y: seq<Bucket>, ahead: set<string>, last: seq<Bucket>)
    requires AddsNewModels(b, units, free, added, completed) && KeepsOrder(b, units, free, completed)
    requires DistinctKeys(x) && Keyed(b, x) && multiset(AllUnits(x)) == multiset(free)
    requires Tails(Buckets(b, units), x) && Tails(Buckets(b, completed), y)
    requires Ahead(x, y, ahead) && KeysLeft(x) !! ahead && DistinctKeys(last) && Keyed(b, last)
    requires forall key :: At(last, key) == if key in KeysLeft(x) && At(y, key) != [] then At(y, key)[1..] else []
    ensures multiset(free) == multiset(PickedUnits(FirstOfEach(x))) + multiset(AllUnits(last))
  {
    KeysLeftOfUnits(b, x, free);
    forall key ensures At(last, key) == if At(x, key) != [] then At(x, key)[1..] else [] {
      KeysLeftAreFilled(x, key);
      if key in KeysLeft(x) {
        var i :| 0 <= i < |free| && KeyOf(b, free[i]) == key;
        assert free[i] in free;
        SameTail(b, units, completed, x, y, key);
      }
    }
    LostFirsts(b, x, last);
  }

  lemma {:induction false} ExtraIsGrouped(flat: multiset<Unit>, more: multiset<Unit>, free: multiset<Unit>, firsts: multiset<Unit>,
                                          last: multiset<Unit>, added: multiset<Unit>)
    requires more + last == (flat + free) + added && free == firsts + last
    ensures more == flat + (firsts + added)
  {
    assert more + last == (flat + (firsts + added)) + last;
    CancelMultiset(more, flat + (firsts + added), last);
  }

  /** Where the two carts stand when the first can form no further group: `x` of the first, `y` of the second. */
  ghost predicate StandingAtEnd(b: Bundle, units: seq<Unit>, free: seq<Unit>, added: seq<Unit>, completed: seq<Unit>,
                                x: seq<Bucket>, y: seq<Bucket>, ahead: set<string>)
    requires SizeOf(b) >= 2
  {
    && Keyed(b, x) && DistinctKeys(x) && multiset(AllUnits(x)) == multiset(free)
    && |KeysLeft(x)| + |added| == SizeOf(b) && |ahead| == |added|
    && Runnable(b, SizeOf(b), y) && Ahead(x, y, ahead)
    && Tails(Buckets(b, units), x) && Tails(Buckets(b, completed), y)
    && |Groups(b, completed)| == |Groups(b, units)| + |FormGroups(b, SizeOf(b), y, true)|
    && multiset(completed) == multiset(Flatten(Groups(b, completed))) + multiset(AllUnits(Remains(b, SizeOf(b), y)))
  }

  /** What is left of the first cart are its free units. */
  lemma {:induction false} FreeAtEnd(b: Bundle, units: seq<Unit>, free: seq<Unit>, x: seq<Bucket>)
    requires SizeOf(b) >= 2 && b.requireDifferentPhoneModels && Keyed(b, x) && DistinctKeys(x)
    requires multiset(units) == multiset(Flatten(Groups(b, units))) + multiset(free)
    requires multiset(units) == multiset(Flatten(Groups(b, units))) + multiset(AllUnits(x))
    ensures multiset(AllUnits(x)) == multiset(free) && |CheapestPerModel(free)| == |KeysLeft(x)|
  {
    var flat := multiset(Flatten(Groups(b, units)));
    assert multiset(AllUnits(x)) + flat == flat + multiset(AllUnits(x));
    assert multiset(free) + flat == flat + multiset(free);
    CancelMultiset(multiset(AllUnits(x)), multiset(free), flat);
    FirstsCoverLeftover(b, x, free);
  }

  lemma {:induction false} BothRuns(b: Bundle, units: seq<Unit>, free: seq<Unit>, added: seq<Unit>, completed: seq<Unit>)
    returns (x: seq<Bucket>, y: seq<Bucket>, ahead: set<string>)
    requires SizeOf(b) >= 2 && b.isRepeatable && Completes(b, units, free, added, completed)
    requires Affordable(b, SizeOf(b), Buckets(b, completed))
    ensures StandingAtEnd(b, units, free, added, completed, x, y, ahead)
  {
    var first, second := Buckets(b, units), Buckets(b, completed);
    AnnouncedIsAffordable(b, units, free);
    StartRunnable(b, units);
    StartRunnable(b, completed);
    CompletedIsAhead(b, units, free, added, completed);
    KeysInCount(b, added);
    y, ahead := StepTogether(b, SizeOf(b), first, second, KeysIn(b, added));
    x := Remains(b, SizeOf(b), first);
    FreeAtEnd(b, units, free, x);
  }

  /** The second cart can go on, because one more group than the first has fits into it. */
  lemma {:induction false} SecondGoesOn(b: Bundle, units: seq<Unit>, free: seq<Unit>, added: seq<Unit>, completed: seq<Unit>,
                                        x: seq<Bucket>, y: seq<Bucket>, ahead: set<string>)
    requires SizeOf(b) >= 2 && b.isRepeatable && Completes(b, units, free, added, completed)
    requires Affordable(b, SizeOf(b), Buckets(b, completed))
    requires StandingAtEnd(b, units, free, added, completed, x, y, ahead)
    ensures Choose(b, SizeOf(b), y).Some?
  {
    OneMoreGroupFits(b, units, free, added, completed, x);
    MostAffordableGroups(b, completed, Groups(b, units) + [PickedUnits(FirstOfEach(x)) + added]);
    NoRound(b, SizeOf(b), y);
  }

  /** When its rounds stay affordable, the completed cart forms exactly one group more, and groups besides the
      old units a free unit of every model that has one and all the added units. */
  lemma {:induction false} RegroupedWithExtra(b: Bundle, units: seq<Unit>, free: seq<Unit>, added: seq<Unit>, completed: seq<Unit>)
    returns (x: seq<Bucket>)
    requires SizeOf(b) >= 2 && b.isRepeatable && Completes(b, units, free, added, completed)
    requires KeepsOrder(b, units, free, completed)
    requires Affordable(b, SizeOf(b), Buckets(b, completed))
    ensures Keyed(b, x) && DistinctKeys(x) && multiset(AllUnits(x)) == multiset(free) && |KeysLeft(x)| + |added| == SizeOf(b)
    ensures |Groups(b, completed)| == |Groups(b, units)| + 1
    ensures multiset(Flatten(Groups(b, completed)))
         == multiset(Flatten(Groups(b, units))) + multiset(PickedUnits(FirstOfEach(x)) + added)
  {
    var y, ahead;
    x, y, ahead := BothRuns(b, units, free, added, completed);
    SecondGoesOn(b, units, free, added, completed, x, y, ahead);
    LastRound(b, SizeOf(b), x, y, ahead);
    var last := Remains(b, SizeOf(b), y);
    LastLosesFirsts(b, units, free, added, completed, x, y, ahead, last);
    ExtraIsGrouped(multiset(Flatten(Groups(b, units))), multiset(Flatten(Groups(b, completed))), multiset(free),
                   multiset(PickedUnits(FirstOfEach(x))), multiset(AllUnits(last)), multiset(added));
  }

  lemma {:induction false} ExtraWithinBounds(b: Bundle, completed: seq<Unit>, added: seq<Unit>, extra: seq<Unit>, units: seq<Unit>,
                                             groups: seq<seq<Unit>>)
    requires b.minUnitPrice.Some? && WithinBounds(completed, b.minUnitPrice.value, WorstSurcharge(b))
    requires multiset(completed) == multiset(units) + multiset(added)
    requires multiset(extra) <= multiset(Flatten(groups)) && multiset(Flatten(groups)) <= multiset(completed)
    ensures forall u :: u in added ==> u.price >= b.minUnitPrice.value
    ensures forall u :: u in extra ==> u.surcharge <= WorstSurcharge(b)
  {
    WithinBoundsRearranged(added, completed, b.minUnitPrice.value, WorstSurcharge(b));
    WithinBoundsRearranged(extra, completed, b.minUnitPrice.value, WorstSurcharge(b));
  }

  /** A repeatable different-models bundle keeps its announcement whenever the completed cart's rounds stay
      affordable. */
  lemma {:induction false} AffordableKeepsPromise(b: Bundle, units: seq<Unit>, free: seq<Unit>, added: seq<Unit>, completed: seq<Unit>, saving: int)
    requires SizeOf(b) >= 2 && b.isRepeatable && Completes(b, units, free, added, completed)
    requires KeepsOrder(b, units, free, completed)
    requires Affordable(b, SizeOf(b), Buckets(b, completed))
    requires AnnouncesModels(b, units, free, |added|, saving)
    ensures TotalDiscount(b, Groups(b, completed)) >= TotalDiscount(b, Groups(b, units)) + saving
  {
    var x := RegroupedWithExtra(b, units, free, added, completed);
    var extra := PickedUnits(FirstOfEach(x)) + added;
    GroupsAreDisjoint(b, completed);
    ExtraWithinBounds(b, completed, added, extra, units, Groups(b, completed));
    FirstUnits(b, x);
    assert |extra| == SizeOf(b);
    ExtraWorth(b, x, free, added, b.minUnitPrice.value);
    ExtraGroupSaves(b, Groups(b, units), Groups(b, completed), extra, WorstSurcharge(b));
  }

  /** So it does when its advertised bounds rule out groups that lose money. */
  lemma {:induction false} RepeatableKeepsPromise(b: Bundle, units: seq<Unit>, free: seq<Unit>, added: seq<Unit>, completed: seq<Unit>, saving: int)
    requires SizeOf(b) >= 2 && b.isRepeatable && BoundsCoverPrice(b) && Completes(b, units, free, added, completed)
    requires KeepsOrder(b, units, free, completed)
    requires AnnouncesModels(b, units, free, |added|, saving)
    ensures TotalDiscount(b, Groups(b, completed)) >= TotalDiscount(b, Groups(b, units)) + saving
  {
    BoundedIsAffordable(b, completed);
    AffordableKeepsPromise(b, units, free, added, completed, saving);
  }

  // ------------------------------------------------------------ the first group

  /** One entry per added unit, at the least price. */
  function LeastPrices(b: Bundle, added: seq<Unit>, least: nat): (prices: seq<ModelPrice>)
    ensures |prices| == |added|
    ensures forall i :: 0 <= i < |added| ==> prices[i] == ModelPrice(KeyOf(b, added[i]), least)
  {
    seq(|added|, i requires 0 <= i < |added| => ModelPrice(KeyOf(b, added[i]), least))
  }

  lemma {:induction false} OldModelIsFree(b: Bundle, units: seq<Unit>, free: seq<Unit>, added: seq<Unit>, completed: seq<Unit>, u: Unit)
    requires AddsNewModels(b, units, free, added, completed) && multiset(units) == multiset(free)
    requires u in completed && KeyOf(b, u) in KeysIn(b, free)
    ensures u in free
  {
    FreeModelUnitIsOld(b, units, free, added, completed, u);
    assert u in multiset(units) && u in multiset(free);
  }

  /** A group of the completed cart has, for every announced model, a unit at least as dear. */
  lemma {:induction false} GroupMatchesCheapest(b: Bundle, units: seq<Unit>, free: seq<Unit>, added: seq<Unit>, completed: seq<Unit>,
                                                group: seq<Unit>, i: nat)
    requires b.requireDifferentPhoneModels && AddsNewModels(b, units, free, added, completed) && multiset(units) == multiset(free)
    requires multiset(group) <= multiset(completed) && KeysIn(b, free) <= KeysIn(b, group)
    requires i < |CheapestPerModel(free)|
    ensures HasUnit(b, group, CheapestPerModel(free)[i])
  {
    var prices := CheapestPerModel(free);
    CheapestKnown(b, free);
    assert prices[i].key in ModelsOf(prices);
    var j :| 0 <= j < |group| && KeyOf(b, group[j]) == prices[i].key;
    assert group[j] in multiset(group) && group[j] in multiset(completed);
    OldModelIsFree(b, units, free, added, completed, group[j]);
    EntryIsCheapest(prices, i, group[j].price);
  }

  lemma {:induction false} EntryIsCheapest(prices: seq<ModelPrice>, i: nat, most: int)
    requires DistinctModels(prices) && i < |prices| && Knows(prices, prices[i].key, most)
    ensures prices[i].price <= most
  {
    var k :| 0 <= k < |prices| && prices[k].key == prices[i].key && prices[k].price <= most;
    assert !(k < i) && !(i < k);
  }

  lemma {:induction false} GroupMatchesAdded(b: Bundle, added: seq<Unit>, completed: seq<Unit>, group: seq<Unit>, i: nat, least: nat)
    requires multiset(group) <= multiset(completed) && KeysIn(b, added) <= KeysIn(b, group) && i < |added|
    requires forall u :: u in completed ==> u.price >= least
    ensures HasUnit(b, group, ModelPrice(KeyOf(b, added[i]), least))
  {
    assert KeyOf(b, added[i]) in KeysIn(b, added);
    var j :| 0 <= j < |group| && KeyOf(b, group[j]) == KeyOf(b, added[i]);
    assert group[j] in multiset(group) && group[j] in multiset(completed);
  }

  lemma {:induction false} OfferModelsDiffer(b: Bundle, free: seq<Unit>, added: seq<Unit>, least: nat)
    requires b.requireDifferentPhoneModels && ModelsDiffer(b, added) && KeysIn(b, free) !! KeysIn(b, added)
    ensures DistinctModels(CheapestPerModel(free) + LeastPrices(b, added, least))
  {
    var cheapest, others := CheapestPerModel(free), LeastPrices(b, added, least);
    var all := cheapest + others;
    CheapestKnown(b, free);
    forall i, j | 0 <= i < j < |all| ensures all[i].key != all[j].key {
      if i < |cheapest| && j >= |cheapest| {
        assert cheapest[i].key in ModelsOf(cheapest);
        assert KeyOf(b, added[j - |cheapest|]) in KeysIn(b, added);
      }
    }
  }

  lemma {:induction false} MatchedConcat(b: Bundle, p: seq<ModelPrice>, q: seq<ModelPrice>, units: seq<Unit>)
    requires Matched(b, p, units) && Matched(b, q, units)
    ensures Matched(b, p + q, units)
  {
  }

  lemma {:induction false} OfferMatched(b: Bundle, units: seq<Unit>, free: seq<Unit>, added: seq<Unit>, completed: seq<Unit>,
                                        group: seq<Unit>, least: nat)
    requires b.requireDifferentPhoneModels && AddsNewModels(b, units, free, added, completed) && multiset(units) == multiset(free)
    requires multiset(group) <= multiset(completed)
    requires KeysIn(b, group) == KeysIn(b, free) + KeysIn(b, added)
    requires forall u :: u in completed ==> u.price >= least
    ensures Matched(b, CheapestPerModel(free) + LeastPrices(b, added, least), group)
  {
    var cheapest, others := CheapestPerModel(free), LeastPrices(b, added, least);
    forall i: nat | i < |cheapest| ensures HasUnit(b, group, cheapest[i]) {
      GroupMatchesCheapest(b, units, free, added, completed, group, i);
    }
    forall i: nat | i < |others| ensures HasUnit(b, group, others[i]) {
      GroupMatchesAdded(b, added, completed, group, i, least);
    }
    MatchedConcat(b, cheapest, others, group);
  }

  lemma {:induction false} LeastPricesSum(b: Bundle, added: seq<Unit>, least: nat)
    ensures SumBy(LeastPrices(b, added, least), ModelPriceOf) == |added| * least
  {
    SumConstant(LeastPrices(b, added, least), least, ModelPriceOf);
    TimesCommutes(|added|, least);
  }

  lemma {:induction false} GroupCoversOffer(b: Bundle, units: seq<Unit>, free: seq<Unit>, added: seq<Unit>, completed: seq<Unit>,
                                            group: seq<Unit>, least: nat)
    requires b.requireDifferentPhoneModels && AddsNewModels(b, units, free, added, completed) && multiset(units) == multiset(free)
    requires multiset(group) <= multiset(completed)
    requires KeysIn(b, group) == KeysIn(b, free) + KeysIn(b, added)
    requires forall u :: u in completed ==> u.price >= least
    ensures Subtotal(group) >= SumBy(CheapestPerModel(free), ModelPriceOf) + |added| * least
  {
    CompletedIsAhead(b, units, free, added, completed);
    OfferModelsDiffer(b, free, added, least);
    OfferMatched(b, units, free, added, completed, group, least);
    MatchedIsWorthMore(b, CheapestPerModel(free) + LeastPrices(b, added, least), group);
    SumConcat(CheapestPerModel(free), LeastPrices(b, added, least), ModelPriceOf);
    LeastPricesSum(b, added, least);
  }

  /** The completed cart has just the models of the free and the added units, so its first group takes one of each. */
  lemma {:induction false} FirstGroupTakesAll(b: Bundle, units: seq<Unit>, free: seq<Unit>, added: seq<Unit>, completed: seq<Unit>)
    returns (group: seq<Unit>)
    requires SizeOf(b) >= 2 && Completes(b, units, free, added, completed) && multiset(units) == multiset(free)
    ensures Choose(b, SizeOf(b), Buckets(b, completed)).Some?
    ensures group == PickedUnits(Choose(b, SizeOf(b), Buckets(b, completed)).value)
    ensures |group| == SizeOf(b) && KeysIn(b, group) == KeysIn(b, free) + KeysIn(b, added)
    ensures multiset(group) <= multiset(completed)
  {
    var size, x, y := SizeOf(b), Buckets(b, units), Buckets(b, completed);
    BucketsHoldTheUnits(b, units);
    BucketsHoldTheUnits(b, completed);
    CompletedIsAhead(b, units, free, added, completed);
    KeysInCount(b, added);
    FirstsCoverLeftover(b, x, free);
    KeysLeftOfUnits(b, x, free);
    AheadHasMoreKeys(x, y, KeysIn(b, added));
    ChooseByKeys(b, size, y);
    var picks := Choose(b, size, y).value;
    group := PickedUnits(picks);
    RoundByKeys(b, size, y);
    RoundSplits(b, size, y);
    forall key | key in KeysOf(picks) ensures key in KeysLeft(y) {
      KeysLeftAreFilled(y, key);
    }
    SubsetOfSameSize(KeysOf(picks), KeysLeft(y));
    ChosenAreHeads(b, size, y);
    PickedKeys(b, y, picks);
  }

  lemma {:induction false} PickedKeys(b: Bundle, y: seq<Bucket>, picks: seq<Pick>)
    requires Keyed(b, y) && PicksAreHeads(y, picks)
    ensures KeysIn(b, PickedUnits(picks)) == KeysOf(picks)
  {
    forall i | 0 <= i < |picks| ensures KeyOf(b, PickedUnits(picks)[i]) == picks[i].key {
      assert picks[i] in picks;
      HeadHasItsKey(b, y, picks[i]);
    }
    forall key ensures key in KeysIn(b, PickedUnits(picks)) <==> key in KeysOf(picks) {
      if key in KeysOf(picks) {
        var i :| 0 <= i < |picks| && picks[i].key == key;
        assert KeyOf(b, PickedUnits(picks)[i]) == key;
      }
    }
  }

  lemma {:induction false} FirstGroupCounts(b: Bundle, units: seq<Unit>)
    requires SizeOf(b) >= 2 && Choose(b, SizeOf(b), Buckets(b, units)).Some?
    requires Discount(b, PickedUnits(Choose(b, SizeOf(b), Buckets(b, units)).value)) >= 0
    ensures TotalDiscount(b, Groups(b, units)) >= Discount(b, PickedUnits(Choose(b, SizeOf(b), Buckets(b, units)).value))
  {
    var buckets, size := Buckets(b, units), SizeOf(b);
    var picks := Choose(b, size, buckets).value;
    RoundSplits(b, size, buckets);
    var rest := AfterRound(b, size, buckets, picks);
    GroupsNeverNegative(b, size, rest, true);
    var later := FormGroups(b, size, rest, true);
    SumNonNegative(later, DiscountFor(b));
    assert ([PickedUnits(picks)] + later)[1..] == later;
  }

  /** With no group formed yet, the announcement is kept whatever the bounds. */
  lemma {:induction false} FirstGroupKeepsPromise(b: Bundle, units: seq<Unit>, free: seq<Unit>, added: seq<Unit>, completed: seq<Unit>, saving: int)
    requires SizeOf(b) >= 2 && Completes(b, units, free, added, completed) && Groups(b, units) == []
    requires AnnouncesModels(b, units, free, |added|, saving) && saving > 0
    ensures TotalDiscount(b, Groups(b, completed)) >= TotalDiscount(b, Groups(b, units)) + saving
  {
    assert Flatten<Unit>([]) == [];
    var group := FirstGroupTakesAll(b, units, free, added, completed);
    GroupCoversOffer(b, units, free, added, completed, group, b.minUnitPrice.value);
    forall u | u in group ensures u.surcharge <= WorstSurcharge(b) {
      assert u in multiset(group) && u in multiset(completed);
    }
    AtMostEach(group, WorstSurcharge(b));
    FirstGroupCounts(b, completed);
  }
}
