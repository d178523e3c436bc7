/** Different-models bundles with few eligible models: with no more than the size of a group, or one more and
    one surcharge for all, the regrouping of a completed cart never meets a group that loses money
    (src/modules/promotions/bundles/bundle-pricing.util.ts). */
module BundleFewModels {
  import opened Options
  import opened Sums
  import opened BundlePricing
  import opened BundleGrouping
  import opened BundleOptimality
  import opened BundleProgress
  import opened BundleRounds
  import opened BundlePromise

  // ------------------------------------------------------------ all rounds, whatever they cost

  /** The buckets before each round, and after the last one that enough models allow. */
  ghost function Trace(b: Bundle, size: nat, x: seq<Bucket>): (trace: seq<seq<Bucket>>)
    requires WellBucketed(b, x) && size > 0
    ensures trace != [] && trace[0] == x
    decreases |AllUnits(x)|
  {
    match Choose(b, size, x)
    case None => [x]
    case Some(picks) =>
      RoundSplits(b, size, x);
      [x] + Trace(b, size, AfterRound(b, size, x, picks))
  }

  /** One round after another. */
  ghost predicate Rounds(b: Bundle, size: nat, trace: seq<seq<Bucket>>) {
    && trace != [] && b.requireDifferentPhoneModels && size > 0
    && (forall t: nat :: t < |trace| ==> StateAt(b, trace, t))
    && (forall t: nat :: t + 1 < |trace| ==> RoundAt(b, size, trace, t))
    && Choose(b, size, trace[|trace| - 1]).None?
  }

  ghost predicate IsRound(b: Bundle, size: nat, x: seq<Bucket>, next: seq<Bucket>) {
    && Choose(b, size, x).Some?
    && var taken := KeysOf(Choose(b, size, x).value);
       TopKeys(x, taken, size) && RoundTaken(x, next, taken)
  }

  ghost predicate StateAt(b: Bundle, trace: seq<seq<Bucket>>, t: nat) {
    t < |trace| && DistinctKeys(trace[t]) && Keyed(b, trace[t]) && Tails(trace[0], trace[t])
  }

  ghost predicate RoundAt(b: Bundle, size: nat, trace: seq<seq<Bucket>>, t: nat) {
    t + 1 < |trace| && IsRound(b, size, trace[t], trace[t + 1])
  }

  lemma {:induction false} TailsOfItself(x: seq<Bucket>)
    ensures Tails(x, x)
  {
    forall key ensures IsTail(At(x, key), At(x, key)) {
    }
  }

  lemma {:induction false} RoundThenTailsOf(b: Bundle, size: nat, x: seq<Bucket>, next: seq<Bucket>, rest: seq<Bucket>)
    requires IsRound(b, size, x, next) && Tails(next, rest)
    ensures Tails(x, rest)
  {
    RoundThenTails(x, next, rest, KeysOf(Choose(b, size, x).value));
  }

  lemma {:induction false} StateLater(b: Bundle, size: nat, x: seq<Bucket>, later: seq<seq<Bucket>>, trace: seq<seq<Bucket>>, t: nat)
    requires trace == [x] + later && later != [] && StateAt(b, later, t) && IsRound(b, size, x, later[0])
    ensures StateAt(b, trace, t + 1)
  {
    RoundThenTailsOf(b, size, x, later[0], later[t]);
    assert trace[t + 1] == later[t] && trace[0] == x;
  }

  lemma {:induction false} RoundLater(b: Bundle, size: nat, x: seq<Bucket>, later: seq<seq<Bucket>>, trace: seq<seq<Bucket>>, t: nat)
    requires trace == [x] + later && RoundAt(b, size, later, t)
    ensures RoundAt(b, size, trace, t + 1)
  {
    assert trace[t + 1] == later[t] && trace[t + 2] == later[t + 1];
  }

  lemma {:induction false} StatesWithOneBefore(b: Bundle, size: nat, x: seq<Bucket>, later: seq<seq<Bucket>>, trace: seq<seq<Bucket>>, t: nat)
    requires Rounds(b, size, later) && trace == [x] + later && t < |trace| && StateAt(b, trace, 0) && IsRound(b, size, x, later[0])
    ensures StateAt(b, trace, t)
  {
    if t > 0 {
      var u: nat := t - 1;
      assert StateAt(b, later, u);
      StateLater(b, size, x, later, trace, u);
    }
  }

  lemma {:induction false} RoundsWithOneBefore(b: Bundle, size: nat, x: seq<Bucket>, later: seq<seq<Bucket>>, trace: seq<seq<Bucket>>, t: nat)
    requires Rounds(b, size, later) && trace == [x] + later && t + 1 < |trace| && RoundAt(b, size, trace, 0)
    ensures RoundAt(b, size, trace, t)
  {
    if t > 0 {
      var u: nat := t - 1;
      assert RoundAt(b, size, later, u);
      RoundLater(b, size, x, later, trace, u);
    }
  }

  lemma {:induction false} OneRoundBefore(b: Bundle, size: nat, x: seq<Bucket>, later: seq<seq<Bucket>>)
    requires Rounds(b, size, later) && DistinctKeys(x) && Keyed(b, x) && IsRound(b, size, x, later[0])
    ensures Rounds(b, size, [x] + later)
  {
    var trace := [x] + later;
    TailsOfItself(x);
    assert StateAt(b, trace, 0) && RoundAt(b, size, trace, 0);
    forall t: nat | t < |trace| ensures StateAt(b, trace, t) {
      StatesWithOneBefore(b, size, x, later, trace, t);
    }
    forall t: nat | t + 1 < |trace| ensures RoundAt(b, size, trace, t) {
      RoundsWithOneBefore(b, size, x, later, trace, t);
    }
    assert trace[|trace| - 1] == later[|later| - 1];
  }

  lemma {:induction false} TraceIsRounds(b: Bundle, size: nat, x: seq<Bucket>)
    requires b.requireDifferentPhoneModels && size > 0 && DistinctKeys(x) && Keyed(b, x)
    ensures Rounds(b, size, Trace(b, size, x))
    decreases |AllUnits(x)|
  {
    TailsOfItself(x);
    if Choose(b, size, x).Some? {
      var picks := Choose(b, size, x).value;
      RoundSplits(b, size, x);
      RoundByKeys(b, size, x);
      AfterRoundKeyed(b, size, x, picks);
      var next := AfterRound(b, size, x, picks);
      TraceIsRounds(b, size, next);
      OneRoundBefore(b, size, x, Trace(b, size, next));
    }
  }

  ghost function GroupAt(b: Bundle, size: nat, x: seq<Bucket>): seq<Unit> {
    if Choose(b, size, x).Some? then PickedUnits(Choose(b, size, x).value) else []
  }

  ghost predicate SavesAt(b: Bundle, size: nat, trace: seq<seq<Bucket>>, t: nat) {
    t < |trace| && Discount(b, GroupAt(b, size, trace[t])) >= 0
  }

  /** No group of the rounds loses money. */
  ghost predicate NoneLoses(b: Bundle, size: nat, trace: seq<seq<Bucket>>) {
    forall t: nat :: t + 1 < |trace| ==> SavesAt(b, size, trace, t)
  }

  lemma {:induction false} NoneLosesLater(b: Bundle, size: nat, x: seq<Bucket>, later: seq<seq<Bucket>>)
    requires later != [] && NoneLoses(b, size, [x] + later)
    ensures Discount(b, GroupAt(b, size, x)) >= 0 && NoneLoses(b, size, later)
  {
    var trace := [x] + later;
    assert SavesAt(b, size, trace, 0);
    forall t: nat | t + 1 < |later| ensures SavesAt(b, size, later, t) {
      assert trace[t + 1] == later[t] && SavesAt(b, size, trace, t + 1);
    }
  }

  lemma {:induction false} NoneLosesBefore(b: Bundle, size: nat, x: seq<Bucket>, later: seq<seq<Bucket>>)
    requires later != [] && Discount(b, GroupAt(b, size, x)) >= 0 && NoneLoses(b, size, later)
    ensures NoneLoses(b, size, [x] + later)
  {
    var trace := [x] + later;
    forall t: nat | t + 1 < |trace| ensures SavesAt(b, size, trace, t) {
      if t > 0 {
        var u: nat := t - 1;
        assert trace[t] == later[u] && SavesAt(b, size, later, u);
      }
    }
  }

  lemma {:induction false} NoneLosesSplit(b: Bundle, size: nat, x: seq<Bucket>, later: seq<seq<Bucket>>)
    requires later != []
    ensures NoneLoses(b, size, [x] + later) <==> Discount(b, GroupAt(b, size, x)) >= 0 && NoneLoses(b, size, later)
  {
    if NoneLoses(b, size, [x] + later) {
      NoneLosesLater(b, size, x, later);
    }
    if Discount(b, GroupAt(b, size, x)) >= 0 && NoneLoses(b, size, later) {
      NoneLosesBefore(b, size, x, later);
    }
  }

  /** The rounds are affordable exactly when none of their groups loses money. */
  lemma {:induction false} AffordableByRounds(b: Bundle, size: nat, x: seq<Bucket>)
    requires WellBucketed(b, x) && size > 0
    ensures Affordable(b, size, x) <==> NoneLoses(b, size, Trace(b, size, x))
    decreases |AllUnits(x)|
  {
    if Choose(b, size, x).Some? {
      RoundSplits(b, size, x);
      var next := AfterRound(b, size, x, Choose(b, size, x).value);
      AffordableByRounds(b, size, next);
      NoneLosesSplit(b, size, x, Trace(b, size, next));
    }
  }

  // ------------------------------------------------------------ a group with every free model

  lemma {:induction false} InGroup(b: Bundle, size: nat, x: seq<Bucket>)
    requires b.requireDifferentPhoneModels && size > 0 && DistinctKeys(x) && Keyed(b, x) && Choose(b, size, x).Some?
    ensures |GroupAt(b, size, x)| == size && ModelsDiffer(b, GroupAt(b, size, x))
    ensures KeysIn(b, GroupAt(b, size, x)) == KeysOf(Choose(b, size, x).value)
    ensures multiset(GroupAt(b, size, x)) <= multiset(AllUnits(x))
  {
    RoundSplits(b, size, x);
    PickedGroupComplete(b, size, x);
    ChosenAreHeads(b, size, x);
    PickedKeys(b, x, Choose(b, size, x).value);
  }

  function WithoutKeys(b: Bundle, units: seq<Unit>, keys: set<string>): seq<Unit> {
    if units == [] then []
    else if KeyOf(b, units[0]) in keys then WithoutKeys(b, units[1..], keys)
    else [units[0]] + WithoutKeys(b, units[1..], keys)
  }

  lemma {:induction false} LaterDiffer(b: Bundle, units: seq<Unit>)
    requires b.requireDifferentPhoneModels && ModelsDiffer(b, units) && units != []
    ensures ModelsDiffer(b, units[1..]) && KeyOf(b, units[0]) !in KeysIn(b, units[1..])
    ensures KeysIn(b, units) == {KeyOf(b, units[0])} + KeysIn(b, units[1..])
  {
    var later := units[1..];
    assert forall i :: 0 <= i < |later| ==> later[i] == units[i + 1];
    assert KeysIn(b, units) == {KeyOf(b, units[0])} + KeysIn(b, later);
  }

  lemma {:induction false} WithoutKeysMembers(b: Bundle, units: seq<Unit>, keys: set<string>)
    ensures forall u :: u in WithoutKeys(b, units, keys) ==> u in units && KeyOf(b, u) !in keys
  {
    if units != [] {
      WithoutKeysMembers(b, units[1..], keys);
    }
  }

  lemma {:induction false} HeadDiffers(b: Bundle, head: Unit, rest: seq<Unit>)
    requires ModelsDiffer(b, rest) && forall u :: u in rest ==> KeyOf(b, u) != KeyOf(b, head)
    ensures ModelsDiffer(b, [head] + rest)
  {
    var all := [head] + rest;
    forall i, j | 0 <= i < j < |all| && b.requireDifferentPhoneModels ensures KeyOf(b, all[i]) != KeyOf(b, all[j]) {
      assert all[j] == rest[j - 1] && rest[j - 1] in rest;
      assert i > 0 ==> all[i] == rest[i - 1];
    }
  }

  lemma {:induction false} WithoutKeysRest(b: Bundle, units: seq<Unit>, keys: set<string>)
    requires b.requireDifferentPhoneModels && ModelsDiffer(b, units)
    ensures ModelsDiffer(b, WithoutKeys(b, units, keys))
    ensures |WithoutKeys(b, units, keys)| == |units| - |keys * KeysIn(b, units)|
  {
    if units == [] {
      assert keys * KeysIn(b, units) == {};
    } else {
      var later, key := units[1..], KeyOf(b, units[0]);
      LaterDiffer(b, units);
      WithoutKeysRest(b, later, keys);
      if key in keys {
        assert keys * KeysIn(b, units) == {key} + keys * KeysIn(b, later);
      } else {
        assert keys * KeysIn(b, units) == keys * KeysIn(b, later);
        WithoutKeysMembers(b, later, keys);
        forall u | u in WithoutKeys(b, later, keys) ensures KeyOf(b, u) != key {
          KeyOfMember(b, later, u);
        }
        HeadDiffers(b, units[0], WithoutKeys(b, later, keys));
      }
    }
  }

  /** No unit of a free model is cheaper than the free unit the announcement counts. */
  ghost predicate FreeAreCheapest(b: Bundle, free: seq<Unit>, completed: seq<Unit>) {
    forall u :: u in completed && KeyOf(b, u) in KeysIn(b, free) ==>
      exists f :: f in free && KeyOf(b, f) == KeyOf(b, u) && f.price <= u.price
  }

  lemma {:induction false} TailIsDearEnough(s: seq<Unit>, t: seq<Unit>, u: Unit)
    requires Descending(s) && IsTail(s, t) && t != [] && u in s
    ensures t[|t| - 1].price <= u.price
  {
    var i :| 0 <= i < |s| && s[i] == u;
    assert t[|t| - 1] == s[|s| - 1];
  }

  lemma {:induction false} LeftoverIsFree(b: Bundle, free: seq<Unit>, x: seq<Bucket>, key: string) returns (f: Unit)
    requires Keyed(b, x) && DistinctKeys(x) && multiset(AllUnits(x)) == multiset(free) && At(x, key) != []
    ensures f == At(x, key)[|At(x, key)| - 1] && f in free && KeyOf(b, f) == key
  {
    f := At(x, key)[|At(x, key)| - 1];
    assert f in At(x, key);
    AtKeyed(b, x, key);
    Multiplicity(b, x, f);
    assert f in multiset(free);
  }

  lemma {:induction false} FreeUnitIsCheaper(b: Bundle, units: seq<Unit>, free: seq<Unit>, added: seq<Unit>, completed: seq<Unit>,
                                             x: seq<Bucket>, u: Unit) returns (f: Unit)
    requires AddsNewModels(b, units, free, added, completed)
    requires Keyed(b, x) && DistinctKeys(x) && multiset(AllUnits(x)) == multiset(free) && Tails(Buckets(b, units), x)
    requires u in completed && KeyOf(b, u) in KeysIn(b, free)
    ensures f in free && KeyOf(b, f) == KeyOf(b, u) && f.price <= u.price
  {
    var key := KeyOf(b, u);
    KeysLeftOfUnits(b, x, free);
    var i :| 0 <= i < |free| && KeyOf(b, free[i]) == key;
    FreeModelUnitIsOld(b, units, free, added, completed, u);
    OfKeyMembers(b, units, key, u);
    LeftoverBelow(b, units, x, u);
    f := LeftoverIsFree(b, free, x, key);
  }

  lemma {:induction false} LeftoversAreCheapest(b: Bundle, units: seq<Unit>, free: seq<Unit>, added: seq<Unit>, completed: seq<Unit>, x: seq<Bucket>)
    requires AddsNewModels(b, units, free, added, completed)
    requires Keyed(b, x) && DistinctKeys(x) && multiset(AllUnits(x)) == multiset(free) && Tails(Buckets(b, units), x)
    ensures FreeAreCheapest(b, free, completed)
  {
    forall u | u in completed && KeyOf(b, u) in KeysIn(b, free)
      ensures exists f :: f in free && KeyOf(b, f) == KeyOf(b, u) && f.price <= u.price
    {
      var f := FreeUnitIsCheaper(b, units, free, added, completed, x, u);
    }
  }

  lemma {:induction false} LeftoverBelow(b: Bundle, units: seq<Unit>, x: seq<Bucket>, u: Unit)
    requires DistinctKeys(x) && Tails(Buckets(b, units), x)
    requires KeyOf(b, u) in KeysLeft(x) && u in OfKey(b, units, KeyOf(b, u))
    ensures var tail := At(x, KeyOf(b, u)); tail != [] && tail[|tail| - 1].price <= u.price
  {
    var key := KeyOf(b, u);
    KeysLeftAreFilled(x, key);
    BucketsAt(b, units, key);
    SortDescends(OfKey(b, units, key));
    SortPermutes(OfKey(b, units, key));
    assert u in multiset(DearestFirst(OfKey(b, units, key)));
    assert IsTail(At(Buckets(b, units), key), At(x, key));
    TailIsDearEnough(At(Buckets(b, units), key), At(x, key), u);
  }

  lemma {:induction false} FreeModelsMatched(b: Bundle, free: seq<Unit>, completed: seq<Unit>, group: seq<Unit>, i: nat)
    requires b.requireDifferentPhoneModels && FreeAreCheapest(b, free, completed)
    requires multiset(group) <= multiset(completed) && KeysIn(b, free) <= KeysIn(b, group)
    requires i < |CheapestPerModel(free)|
    ensures HasUnit(b, group, CheapestPerModel(free)[i])
  {
    var prices := CheapestPerModel(free);
    CheapestKnown(b, free);
    assert prices[i].key in ModelsOf(prices);
    var j :| 0 <= j < |group| && KeyOf(b, group[j]) == prices[i].key;
    assert group[j] in multiset(group) && group[j] in multiset(completed);
    var f :| f in free && KeyOf(b, f) == prices[i].key && f.price <= group[j].price;
    assert Knows(prices, prices[i].key, f.price);
    EntryIsCheapest(prices, i, f.price);
  }

  /** A group that holds every free model is worth what the announcement assumed. */
  lemma {:induction false} GroupWithFreeModels(b: Bundle, free: seq<Unit>, completed: seq<Unit>, group: seq<Unit>, least: nat)
    requires b.requireDifferentPhoneModels && FreeAreCheapest(b, free, completed) && ModelsDiffer(b, group)
    requires multiset(group) <= multiset(completed) && KeysIn(b, free) <= KeysIn(b, group)
    requires forall u :: u in completed ==> u.price >= least
    ensures |group| >= |CheapestPerModel(free)|
    ensures Subtotal(group) >= SumBy(CheapestPerModel(free), ModelPriceOf) + (|group| - |CheapestPerModel(free)|) * least
  {
    var cheapest := CheapestPerModel(free);
    var rest := WithoutKeys(b, group, KeysIn(b, free));
    CheapestKnown(b, free);
    ModelCount(cheapest);
    WithoutKeysMembers(b, group, KeysIn(b, free));
    WithoutKeysRest(b, group, KeysIn(b, free));
    assert KeysIn(b, free) * KeysIn(b, group) == KeysIn(b, free);
    RestIsOther(b, rest, KeysIn(b, free));
    OfferModelsDiffer(b, free, rest, least);
    forall i: nat | i < |cheapest| ensures HasUnit(b, group, cheapest[i]) {
      FreeModelsMatched(b, free, completed, group, i);
    }
    RestMatched(b, completed, group, rest, least);
    MatchedConcat(b, cheapest, LeastPrices(b, rest, least), group);
    MatchedIsWorthMore(b, cheapest + LeastPrices(b, rest, least), group);
    SumConcat(cheapest, LeastPrices(b, rest, least), ModelPriceOf);
    LeastPricesSum(b, rest, least);
  }

  lemma {:induction false} RestIsOther(b: Bundle, rest: seq<Unit>, keys: set<string>)
    requires forall u :: u in rest ==> KeyOf(b, u) !in keys
    ensures keys !! KeysIn(b, rest)
  {
    forall key | key in KeysIn(b, rest) ensures key !in keys {
      var i :| 0 <= i < |rest| && KeyOf(b, rest[i]) == key;
      assert rest[i] in rest;
    }
  }

  lemma {:induction false} RestMatched(b: Bundle, completed: seq<Unit>, group: seq<Unit>, rest: seq<Unit>, least: nat)
    requires multiset(group) <= multiset(completed) && forall u :: u in rest ==> u in group
    requires forall u :: u in completed ==> u.price >= least
    ensures Matched(b, LeastPrices(b, rest, least), group)
  {
    forall i: nat | i < |rest| ensures HasUnit(b, group, LeastPrices(b, rest, least)[i]) {
      assert rest[i] in rest;
      var j :| 0 <= j < |group| && group[j] == rest[i];
      assert group[j] in multiset(group) && group[j] in multiset(completed);
    }
  }

  /** So, where a positive saving was announced, it saves more than nothing. */
  lemma {:induction false} GroupWithFreeModelsSaves(b: Bundle, units: seq<Unit>, free: seq<Unit>, needed: nat, saving: int,
                                                    completed: seq<Unit>, group: seq<Unit>)
    requires SizeOf(b) >= 2 && b.requireDifferentPhoneModels && AnnouncesModels(b, units, free, needed, saving) && saving > 0
    requires FreeAreCheapest(b, free, completed) && WithinBounds(completed, b.minUnitPrice.value, WorstSurcharge(b))
    requires |group| == SizeOf(b) && ModelsDiffer(b, group)
    requires multiset(group) <= multiset(completed) && KeysIn(b, free) <= KeysIn(b, group)
    ensures Discount(b, group) >= saving
  {
    GroupWithFreeModels(b, free, completed, group, b.minUnitPrice.value);
    WithinBoundsRearranged(group, completed, b.minUnitPrice.value, WorstSurcharge(b));
    AtMostEach(group, WorstSurcharge(b));
  }

  // ------------------------------------------------------------ no more models than a group takes

  lemma {:induction false} StillThere(b: Bundle, trace: seq<seq<Bucket>>, t: nat, u: Unit)
    requires t < |trace| && Keyed(b, trace[0]) && DistinctKeys(trace[0]) && Keyed(b, trace[t]) && DistinctKeys(trace[t])
    requires Tails(trace[0], trace[t])
    ensures multiset(AllUnits(trace[t]))[u] <= multiset(AllUnits(trace[0]))[u]
  {
    Multiplicity(b, trace[t], u);
    Multiplicity(b, trace[0], u);
    assert IsTail(At(trace[0], KeyOf(b, u)), At(trace[t], KeyOf(b, u)));
    TailIncluded(At(trace[0], KeyOf(b, u)), At(trace[t], KeyOf(b, u)));
  }

  lemma {:induction false} TailIncluded(s: seq<Unit>, t: seq<Unit>)
    requires IsTail(s, t)
    ensures multiset(t) <= multiset(s)
  {
    assert s == s[..|s| - |t|] + t;
  }

  /** The group of any round consists of units of the cart. */
  lemma {:induction false} GroupFromCartUnits(b: Bundle, units: seq<Unit>, trace: seq<seq<Bucket>>, t: nat)
    requires SizeOf(b) >= 2 && Rounds(b, SizeOf(b), trace) && trace[0] == Buckets(b, units) && t + 1 < |trace|
    ensures var group := GroupAt(b, SizeOf(b), trace[t]);
      && |group| == SizeOf(b) && ModelsDiffer(b, group) && multiset(group) <= multiset(units)
      && KeysIn(b, group) == KeysOf(Choose(b, SizeOf(b), trace[t]).value) <= KeysIn(b, units)
  {
    var group := GroupAt(b, SizeOf(b), trace[t]);
    assert RoundAt(b, SizeOf(b), trace, t) && StateAt(b, trace, t) && StateAt(b, trace, 0);
    BucketsHoldTheUnits(b, units);
    InGroup(b, SizeOf(b), trace[t]);
    forall u: Unit ensures multiset(group)[u] <= multiset(units)[u] {
      StillThere(b, trace, t, u);
    }
    forall key | key in KeysIn(b, group) ensures key in KeysIn(b, units) {
      var i :| 0 <= i < |group| && KeyOf(b, group[i]) == key;
      assert group[i] in multiset(group) && group[i] in multiset(units);
      KeyOfMember(b, units, group[i]);
    }
  }

  /** What stands behind an announcement that is taken up: a positive saving, and the free units still there. */
  lemma {:induction false} LeftBehind(b: Bundle, units: seq<Unit>, free: seq<Unit>, added: seq<Unit>, completed: seq<Unit>, saving: int)
    returns (x: seq<Bucket>)
    requires SizeOf(b) >= 2 && b.isRepeatable && Offered(b, units, free, added, completed, saving)
    ensures Keyed(b, x) && DistinctKeys(x) && multiset(AllUnits(x)) == multiset(free) && Tails(Buckets(b, units), x)
    ensures FreeAreCheapest(b, free, completed)
  {
    var buckets, size := Buckets(b, units), SizeOf(b);
    BucketsHoldTheUnits(b, units);
    FormedAnyIrrelevant(b, size, buckets);
    GroupsAndRemains(b, size, buckets);
    RemainsStayDistinct(b, size, buckets);
    x := Remains(b, size, buckets);
    FreeAtEnd(b, units, free, x);
    RemainsAreTails(b, size, buckets);
    LeftoversAreCheapest(b, units, free, added, completed, x);
  }

  lemma {:induction false} RemainsAreTails(b: Bundle, size: nat, x: seq<Bucket>)
    requires b.requireDifferentPhoneModels && size > 0 && DistinctKeys(x)
    ensures Tails(x, Remains(b, size, x))
    decreases |AllUnits(x)|
  {
    TailsOfItself(x);
    var next := NextGroup(b, size, x, true);
    if next.Some? {
      RoundSplits(b, size, x);
      RoundByKeys(b, size, x);
      RemainsAreTails(b, size, AfterRound(b, size, x, next.value));
      RoundThenTails(x, AfterRound(b, size, x, next.value), Remains(b, size, AfterRound(b, size, x, next.value)), KeysOf(next.value));
    }
  }

  lemma {:induction false} FreeModelsAreOld(b: Bundle, units: seq<Unit>, free: seq<Unit>, completed: seq<Unit>, added: seq<Unit>)
    requires SizeOf(b) >= 2 && Completes(b, units, free, added, completed)
    ensures KeysIn(b, free) <= KeysIn(b, completed) && KeysIn(b, units) <= KeysIn(b, completed)
  {
    forall key | key in KeysIn(b, free) ensures key in KeysIn(b, units) {
      var i :| 0 <= i < |free| && KeyOf(b, free[i]) == key;
      assert free[i] in multiset(free) && free[i] in multiset(units);
      KeyOfMember(b, units, free[i]);
    }
    forall key | key in KeysIn(b, units) ensures key in KeysIn(b, completed) {
      var i :| 0 <= i < |units| && KeyOf(b, units[i]) == key;
      assert units[i] in multiset(units) && units[i] in multiset(completed);
      KeyOfMember(b, completed, units[i]);
    }
  }

  /** With no more models in the completed cart than a group takes, every group takes them all. */
  lemma {:induction false} FewModelsAffordable(b: Bundle, units: seq<Unit>, free: seq<Unit>, added: seq<Unit>, completed: seq<Unit>, saving: int)
    requires SizeOf(b) >= 2 && b.isRepeatable && Offered(b, units, free, added, completed, saving)
    requires |KeysIn(b, completed)| <= SizeOf(b)
    ensures Affordable(b, SizeOf(b), Buckets(b, completed))
  {
    var size, start := SizeOf(b), Buckets(b, completed);
    var trace := Trace(b, size, start);
    var x := LeftBehind(b, units, free, added, completed, saving);
    BucketsHoldTheUnits(b, completed);
    TraceIsRounds(b, size, start);
    FreeModelsAreOld(b, units, free, completed, added);
    forall t: nat | t + 1 < |trace| ensures SavesAt(b, size, trace, t) {
      GroupFromCartUnits(b, completed, trace, t);
      KeysInCount(b, GroupAt(b, size, trace[t]));
      SubsetOfSameSize(KeysIn(b, GroupAt(b, size, trace[t])), KeysIn(b, completed));
      GroupWithFreeModelsSaves(b, units, free, |added|, saving, completed, GroupAt(b, size, trace[t]));
    }
    AffordableByRounds(b, size, start);
  }

  // ------------------------------------------------------------ one model more: who is left out, and when

  function Count(trace: seq<seq<Bucket>>, t: nat, key: string): nat
    requires t < |trace|
  {
    |At(trace[t], key)|
  }

  /** Round `t` takes nothing of this model. */
  predicate Omits(trace: seq<seq<Bucket>>, t: nat, key: string) {
    t + 1 < |trace| && Count(trace, t + 1, key) == Count(trace, t, key)
  }

  lemma {:induction false} CountsFall(b: Bundle, size: nat, trace: seq<seq<Bucket>>, t: nat, u: nat, key: string)
    requires Rounds(b, size, trace) && t <= u < |trace|
    ensures Count(trace, u, key) <= Count(trace, t, key) <= Count(trace, u, key) + (u - t)
  {
    if t < u {
      var v: nat := u - 1;
      CountsFall(b, size, trace, t, v, key);
      assert RoundAt(b, size, trace, v);
    }
  }

  /** Round `s` is the last before `end` that omits the model; from then on each round takes one unit of it. */
  ghost predicate OmittedLast(trace: seq<seq<Bucket>>, s: nat, end: nat, key: string) {
    && s < end < |trace| && Omits(trace, s, key)
    && (forall u: nat :: u < end && Omits(trace, u, key) ==> u <= s)
    && (forall u: nat :: s < u <= end ==> Count(trace, u, key) == Count(trace, end, key) + (end - u))
  }

  lemma {:induction false} OneRoundCounts(b: Bundle, size: nat, trace: seq<seq<Bucket>>, t: nat, key: string)
    requires Rounds(b, size, trace) && t + 1 < |trace|
    ensures Omits(trace, t, key) || Count(trace, t, key) == Count(trace, t + 1, key) + 1
  {
    assert RoundAt(b, size, trace, t);
  }

  lemma {:induction false} StillOmittedLast(trace: seq<seq<Bucket>>, s: nat, last: nat, end: nat, key: string)
    requires OmittedLast(trace, s, last, key) && end == last + 1 && end < |trace|
    requires Count(trace, last, key) == Count(trace, end, key) + 1
    ensures OmittedLast(trace, s, end, key)
  {
  }

  /** A model with more units left than one taken a round allows was omitted. */
  lemma {:induction false} LastOmission(b: Bundle, size: nat, trace: seq<seq<Bucket>>, end: nat, key: string) returns (s: nat)
    requires Rounds(b, size, trace) && end < |trace| && Count(trace, 0, key) < Count(trace, end, key) + end
    ensures OmittedLast(trace, s, end, key)
    decreases end
  {
    var last: nat := end - 1;
    OneRoundCounts(b, size, trace, last, key);
    if Omits(trace, last, key) {
      s := last;
    } else {
      s := LastOmission(b, size, trace, last, key);
      StillOmittedLast(trace, s, last, end, key);
    }
  }

  /** With one model more than a group takes, the omitted model ranks behind every other. */
  lemma {:induction false} OmittedRanksLast(b: Bundle, size: nat, all: set<string>, trace: seq<seq<Bucket>>, t: nat, key: string, other: string)
    requires Rounds(b, size, trace) && |all| == size + 1 && KeysLeft(trace[0]) <= all
    requires key in all && other in all && other != key && Omits(trace, t, key)
    ensures Outranks(Count(trace, t, other), other, Count(trace, t, key), key)
    ensures Choose(b, size, trace[t]).Some? && KeysOf(Choose(b, size, trace[t]).value) == all - {key}
  {
    assert RoundAt(b, size, trace, t) && StateAt(b, trace, t) && StateAt(b, trace, 0);
    var taken := KeysOf(Choose(b, size, trace[t]).value);
    forall x | x in taken ensures x in all - {key} {
      KeysLeftAreFilled(trace[0], x);
      assert IsTail(At(trace[0], x), At(trace[t], x));
    }
    SubsetOfSameSize(taken, all - {key});
  }

  ghost predicate InStep(x: seq<Bucket>, y: seq<Bucket>, count: nat) {
    exists ahead :: Ahead(x, y, ahead) && |ahead| == count
  }

  ghost predicate StepAt(first: seq<seq<Bucket>>, second: seq<seq<Bucket>>, t: nat, count: nat) {
    t < |first| && t < |second| && InStep(first[t], second[t], count)
  }

  lemma {:induction false} TracesInStep(b: Bundle, size: nat, first: seq<seq<Bucket>>, second: seq<seq<Bucket>>, count: nat, t: nat)
    requires Rounds(b, size, first) && Rounds(b, size, second) && InStep(first[0], second[0], count) && t < |first|
    ensures t < |second| && InStep(first[t], second[t], count)
    decreases t
  {
    if t > 0 {
      var u: nat := t - 1;
      TracesInStep(b, size, first, second, count, u);
      var ahead :| Ahead(first[u], second[u], ahead) && |ahead| == count;
      assert RoundAt(b, size, first, u) && StateAt(b, first, u);
      GoesOn(b, size, first[u], second, u, ahead);
      assert RoundAt(b, size, second, u);
      var s, r := KeysOf(Choose(b, size, first[u]).value), KeysOf(Choose(b, size, second[u]).value);
      RoundsKeepStep(first[u], second[u], ahead, s, r, size, first[u + 1], second[u + 1]);
    }
  }

  lemma {:induction false} GoesOn(b: Bundle, size: nat, x: seq<Bucket>, trace: seq<seq<Bucket>>, u: nat, ahead: set<string>)
    requires Rounds(b, size, trace) && u < |trace| && DistinctKeys(x) && Ahead(x, trace[u], ahead) && Choose(b, size, x).Some?
    ensures u + 1 < |trace|
  {
    assert StateAt(b, trace, u);
    ChooseByKeys(b, size, x);
    ChooseByKeys(b, size, trace[u]);
    AheadHasMoreKeys(x, trace[u], ahead);
  }

  /** Two runs over the same models, one more than a group takes: the second cart has the units in `added`
      besides, and its run is one round longer; `free` are the models the first run leaves units of. */
  ghost predicate TwoRuns(b: Bundle, size: nat, all: set<string>, first: seq<seq<Bucket>>, second: seq<seq<Bucket>>,
                          added: set<string>, free: set<string>)
  {
    && Rounds(b, size, first) && Rounds(b, size, second) && |second| == |first| + 1
    && |all| == size + 1 && KeysLeft(first[0]) <= all && KeysLeft(second[0]) <= all
    && Ahead(first[0], second[0], added)
    && free <= all && free !! added
    && (forall t: nat :: t < |first| ==> StepAt(first, second, t, |added|))
    && (forall key :: key in added ==> Count(first, |first| - 1, key) == 0)
    && (forall key :: key in free ==> Count(first, |first| - 1, key) > 0
                                      && Count(second, |first|, key) == Count(first, |first| - 1, key) - 1)
  }

  lemma {:induction false} InStepCounts(first: seq<seq<Bucket>>, second: seq<seq<Bucket>>, t: nat, count: nat, key: string)
    requires StepAt(first, second, t, count)
    ensures Count(first, t, key) <= Count(second, t, key) <= Count(first, t, key) + 1
  {
    var ahead :| Ahead(first[t], second[t], ahead) && |ahead| == count;
  }

  lemma {:induction false} SecondOmission(b: Bundle, size: nat, second: seq<seq<Bucket>>, t: nat, end: nat, key: string)
    returns (last: nat)
    requires Rounds(b, size, second) && end < |second| && t < end && Omits(second, t, key)
    ensures OmittedLast(second, last, end, key) && t <= last
  {
    CountsFall(b, size, second, 0, t, key);
    CountsFall(b, size, second, t + 1, end, key);
    last := LastOmission(b, size, second, end, key);
  }

  /** The last rounds that omit a free model: the second run's comes no later than the first run's. */
  lemma {:induction false} LastOmissions(b: Bundle, size: nat, all: set<string>, first: seq<seq<Bucket>>, second: seq<seq<Bucket>>,
                                         added: set<string>, free: set<string>, key: string, t: nat)
    returns (s: nat, last: nat)
    requires TwoRuns(b, size, all, first, second, added, free) && key in free && Omits(second, t, key)
    ensures OmittedLast(first, s, |first| - 1, key) && OmittedLast(second, last, |first|, key) && t <= last <= s
  {
    var end: nat := |first| - 1;
    last := SecondOmission(b, size, second, t, |first|, key);
    assert |At(second[0], key)| == |At(first[0], key)|;
    CountsFall(b, size, second, 0, last, key);
    s := LastOmission(b, size, first, end, key);
    InStepCounts(first, second, last, |added|, key);
  }

  /** A model the second run is not ahead in can only have lost its lead to one that ranks before the free
      model in the first run and behind it in the second: there is none. */
  lemma {:induction false} NoLeadLost(b: Bundle, size: nat, all: set<string>, first: seq<seq<Bucket>>, second: seq<seq<Bucket>>,
                                      added: set<string>, free: set<string>, key: string, s: nat, other: string)
    requires TwoRuns(b, size, all, first, second, added, free) && s + 1 < |first| && key in all
    requires Omits(first, s, key) && Omits(second, s, key) && Count(second, s, key) == Count(first, s, key)
    requires other in added
    ensures Count(second, s, other) == Count(first, s, other) + 1
  {
    assert StepAt(first, second, s, |added|);
    var ahead :| Ahead(first[s], second[s], ahead) && |ahead| == |added|;
    if other !in ahead {
      var x := OtherMember(added, ahead, other);
      OvertakerTies(b, size, all, first, second, added, free, key, s, x);
      KeyLessIsStrict(key, x);
      assert false;
    }
  }

  lemma {:induction false} LeftAtStart(b: Bundle, size: nat, trace: seq<seq<Bucket>>, t: nat, key: string)
    requires Rounds(b, size, trace) && t < |trace| && Count(trace, t, key) > 0
    ensures key in KeysLeft(trace[0])
  {
    assert StateAt(b, trace, 0) && StateAt(b, trace, t);
    KeysLeftAreFilled(trace[0], key);
    assert IsTail(At(trace[0], key), At(trace[t], key));
  }

  lemma {:induction false} OvertakerTies(b: Bundle, size: nat, all: set<string>, first: seq<seq<Bucket>>, second: seq<seq<Bucket>>,
                                            added: set<string>, free: set<string>, key: string, s: nat, x: string)
    requires TwoRuns(b, size, all, first, second, added, free) && s + 1 < |first| && key in all && x != key
    requires Omits(first, s, key) && Omits(second, s, key) && Count(second, s, key) == Count(first, s, key)
    requires x !in added && Count(second, s, x) == Count(first, s, x) + 1
    ensures KeyLess(key, x) && KeyLess(x, key)
  {
    assert |At(second[0], x)| == |At(first[0], x)|;
    LeftAtStart(b, size, second, s, x);
    CountsFall(b, size, first, 0, s, x);
    var u := LastOmission(b, size, second, s, x);
    CountsFall(b, size, second, u, s, key);
    OmittedRanksLast(b, size, all, second, u, x, key);
    OmittedRanksLast(b, size, all, first, s, key, x);
  }

  lemma {:induction false} CountAtOmission(trace: seq<seq<Bucket>>, s: nat, end: nat, key: string)
    requires OmittedLast(trace, s, end, key)
    ensures Count(trace, s, key) == Count(trace, end, key) + (end - 1 - s)
  {
    assert Count(trace, s + 1, key) == Count(trace, end, key) + (end - (s + 1));
  }

  /** At its last omission, a model that is left over has as many units as rounds are to come, and so has
      every model that is used up. */
  lemma {:induction false} LevelAtOmission(b: Bundle, size: nat, all: set<string>, trace: seq<seq<Bucket>>, end: nat, key: string, s: nat,
                                           other: string)
    requires Rounds(b, size, trace) && |all| == size + 1 && KeysLeft(trace[0]) <= all && key in all && other in all && other != key
    requires end + 1 == |trace| && OmittedLast(trace, s, end, key) && Count(trace, end, key) > 0 && Count(trace, end, other) == 0
    ensures Count(trace, s, other) == end - s && Count(trace, s, key) == end - s && Count(trace, end, key) == 1
  {
    CountAtOmission(trace, s, end, key);
    CountsFall(b, size, trace, s, end, other);
    OmittedNotLarger(b, size, all, trace, s, key, other);
    Squeezed(Count(trace, s, key), Count(trace, s, other), Count(trace, end, key), end - s);
  }

  lemma {:induction false} Squeezed(least: int, other: int, left: int, rounds: int)
    requires left > 0 && least == left + (rounds - 1) && least <= other <= rounds
    ensures left == 1 && other == rounds == least
  {
  }

  lemma {:induction false} OmittedNotLarger(b: Bundle, size: nat, all: set<string>, trace: seq<seq<Bucket>>, t: nat, key: string, other: string)
    requires Rounds(b, size, trace) && |all| == size + 1 && KeysLeft(trace[0]) <= all
    requires key in all && other in all && other != key && Omits(trace, t, key)
    ensures Count(trace, t, key) <= Count(trace, t, other)
  {
    OmittedRanksLast(b, size, all, trace, t, key, other);
  }

  lemma {:induction false} EndsOf(b: Bundle, size: nat, all: set<string>, first: seq<seq<Bucket>>, second: seq<seq<Bucket>>,
                                  added: set<string>, free: set<string>, end: nat, key: string, other: string)
    requires TwoRuns(b, size, all, first, second, added, free) && key in free && other in added && end + 1 == |first|
    ensures key != other && Count(first, end, other) == 0 && Count(first, end, key) > 0
    ensures end + 1 < |second| && Count(second, end + 1, key) == Count(first, end, key) - 1
  {
  }

  lemma {:induction false} AddedStillLeads(b: Bundle, size: nat, all: set<string>, first: seq<seq<Bucket>>, second: seq<seq<Bucket>>,
                                           added: set<string>, free: set<string>, end: nat, key: string, s: nat, last: nat, other: string)
    requires TwoRuns(b, size, all, first, second, added, free) && key in free && end + 1 == |first|
    requires OmittedLast(first, s, end, key) && OmittedLast(second, last, end + 1, key) && last <= s
    requires other in all && other in added
    ensures Count(second, last, other) >= Count(first, s, other) + 1
  {
    EndsOf(b, size, all, first, second, added, free, end, key, other);
    LevelAtOmission(b, size, all, first, end, key, s, other);
    CountAtOmission(second, last, end + 1, key);
    assert Count(second, last, key) == end - last;
    if last == s {
      NoLeadLost(b, size, all, first, second, added, free, key, s, other);
    } else {
      OmittedNotLarger(b, size, all, second, last, key, other);
    }
  }

  /** When the second run last omits a free model, it has taken no more of any other model, its added unit
      aside, than the first run has when it last omits the free model. */
  lemma {:induction false} OmittedEarlier(b: Bundle, size: nat, all: set<string>, first: seq<seq<Bucket>>, second: seq<seq<Bucket>>,
                                          added: set<string>, free: set<string>, key: string, s: nat, last: nat, other: string)
    requires TwoRuns(b, size, all, first, second, added, free) && key in free
    requires OmittedLast(first, s, |first| - 1, key) && OmittedLast(second, last, |first|, key) && last <= s
    requires other in all && other != key
    ensures Count(second, 0, other) - Count(second, last, other) <= Count(first, 0, other) - Count(first, s, other)
  {
    assert Count(second, 0, other) == Count(first, 0, other) + if other in added then 1 else 0;
    if other in added {
      AddedStillLeads(b, size, all, first, second, added, free, |first| - 1, key, s, last, other);
    } else {
      InStepCounts(first, second, last, |added|, other);
      CountsFall(b, size, first, last, s, other);
    }
  }

  /** Whenever the second run omits a free model, some round of the first run omits it after taking at least as
      many units of every other model, the added ones aside. */
  lemma {:induction false} ComparableRound(b: Bundle, size: nat, all: set<string>, first: seq<seq<Bucket>>, second: seq<seq<Bucket>>,
                                           added: set<string>, free: set<string>, key: string, t: nat) returns (s: nat)
    requires TwoRuns(b, size, all, first, second, added, free) && key in free && Omits(second, t, key)
    ensures Omits(first, s, key)
    ensures forall other :: other in all && other != key ==>
      Count(second, 0, other) - Count(second, t, other) <= Count(first, 0, other) - Count(first, s, other)
  {
    var last;
    s, last := LastOmissions(b, size, all, first, second, added, free, key, t);
    forall other | other in all && other != key
      ensures Count(second, 0, other) - Count(second, t, other) <= Count(first, 0, other) - Count(first, s, other)
    {
      OmittedEarlier(b, size, all, first, second, added, free, key, s, last, other);
      CountsFall(b, size, second, t, last, other);
    }
  }

  // ------------------------------------------------------------ the two runs of an announcement taken up

  lemma {:induction false} AffordableRun(b: Bundle, size: nat, x: seq<Bucket>)
    requires b.isRepeatable && size > 0 && WellBucketed(b, x) && Affordable(b, size, x)
    ensures |Trace(b, size, x)| == |FormGroups(b, size, x, true)| + 1
    ensures Trace(b, size, x)[|Trace(b, size, x)| - 1] == Remains(b, size, x)
    decreases |AllUnits(x)|
  {
    if Choose(b, size, x).Some? {
      RoundIsTaken(b, size, x, true);
      RoundSplits(b, size, x);
      AffordableRun(b, size, AfterRound(b, size, x, Choose(b, size, x).value));
    }
  }

  lemma {:induction false} EnoughCapacityEnoughRounds(b: Bundle, size: nat, x: seq<Bucket>, m: nat)
    requires b.requireDifferentPhoneModels && size > 0 && DistinctKeys(x) && Spare(size, x, m) >= 0
    ensures |Trace(b, size, x)| > m
    decreases m
  {
    if m > 0 {
      var left: nat := m - 1;
      CapacityAllowsRound(b, size, x, m);
      RoundSplits(b, size, x);
      RoundKeepsCapacity(b, size, x, m, left);
      EnoughCapacityEnoughRounds(b, size, AfterRound(b, size, x, Choose(b, size, x).value), left);
    }
  }

  /** The first run ends with the free units. */
  lemma {:induction false} FirstRunEnds(b: Bundle, units: seq<Unit>, free: seq<Unit>)
    requires SizeOf(b) >= 2 && b.requireDifferentPhoneModels && b.isRepeatable
    requires multiset(units) == multiset(Flatten(Groups(b, units))) + multiset(free) && |CheapestPerModel(free)| < SizeOf(b)
    ensures var first := Trace(b, SizeOf(b), Buckets(b, units));
      && |first| == |Groups(b, units)| + 1
      && multiset(AllUnits(first[|first| - 1])) == multiset(free)
      && DistinctKeys(first[|first| - 1]) && Keyed(b, first[|first| - 1])
      && KeysLeft(first[|first| - 1]) == KeysIn(b, free) && |KeysIn(b, free)| == |CheapestPerModel(free)|
    ensures Affordable(b, SizeOf(b), Buckets(b, units))
  {
    var buckets, size := Buckets(b, units), SizeOf(b);
    AnnouncedIsAffordable(b, units, free);
    BucketsHoldTheUnits(b, units);
    StartRunnable(b, units);
    AffordableRun(b, size, buckets);
    RemainsStayDistinct(b, size, buckets);
    FreeAtEnd(b, units, free, Remains(b, size, buckets));
    KeysLeftOfUnits(b, Remains(b, size, buckets), free);
  }

  /** The second run goes on for one round more. */
  lemma {:induction false} SecondRunGoesOn(b: Bundle, units: seq<Unit>, free: seq<Unit>, added: seq<Unit>, completed: seq<Unit>)
    requires SizeOf(b) >= 2 && b.isRepeatable && Completes(b, units, free, added, completed)
    ensures |Trace(b, SizeOf(b), Buckets(b, completed))| > |Trace(b, SizeOf(b), Buckets(b, units))|
  {
    var size, first := SizeOf(b), Trace(b, SizeOf(b), Buckets(b, units));
    var x := first[|first| - 1];
    FirstRunEnds(b, units, free);
    BucketsHoldTheUnits(b, completed);
    OneMoreGroupFits(b, units, free, added, completed, x);
    var others := Groups(b, units) + [PickedUnits(FirstOfEach(x)) + added];
    GroupingNeedsCapacity(b, size, Buckets(b, completed), others);
    EnoughCapacityEnoughRounds(b, size, Buckets(b, completed), |others|);
  }

  lemma {:induction false} EndsWhenStuck(b: Bundle, size: nat, trace: seq<seq<Bucket>>, t: nat)
    requires Rounds(b, size, trace) && t < |trace| && Choose(b, size, trace[t]).None?
    ensures |trace| == t + 1
  {
    assert t + 1 < |trace| ==> RoundAt(b, size, trace, t);
  }

  /** In that round it takes one unit of each free model, and then no further round is possible. */
  lemma {:induction false} OnlyOneRoundMore(b: Bundle, size: nat, second: seq<seq<Bucket>>, x: seq<Bucket>, end: nat, ahead: set<string>)
    requires Rounds(b, size, second) && end + 1 < |second| && DistinctKeys(x) && Ahead(x, second[end], ahead)
    requires |KeysLeft(x)| + |ahead| == size && |ahead| > 0
    ensures |second| == end + 2
    ensures forall key :: key in KeysLeft(x) ==> |At(x, key)| > 0 && Count(second, end + 1, key) == |At(x, key)| - 1
  {
    assert RoundAt(b, size, second, end) && StateAt(b, second, end) && StateAt(b, second, end + 1);
    var taken := KeysOf(Choose(b, size, second[end]).value);
    AllAreTaken(b, size, x, second[end], ahead, taken);
    forall key | key in KeysLeft(second[end + 1]) ensures key in KeysLeft(x) {
      KeysLeftAreFilled(second[end + 1], key);
      KeysLeftAreFilled(second[end], key);
      KeysLeftAreFilled(x, key);
    }
    SubsetIsSmaller(KeysLeft(second[end + 1]), KeysLeft(x));
    ChooseByKeys(b, size, second[end + 1]);
    EndsWhenStuck(b, size, second, end + 1);
    forall key | key in KeysLeft(x) ensures |At(x, key)| > 0 && Count(second, end + 1, key) == |At(x, key)| - 1 {
      KeysLeftAreFilled(x, key);
    }
  }

  lemma {:induction false} StartKeys(b: Bundle, units: seq<Unit>)
    ensures b.requireDifferentPhoneModels ==> KeysLeft(Buckets(b, units)) == KeysIn(b, units)
  {
    BucketsHoldTheUnits(b, units);
    KeysLeftOfUnits(b, Buckets(b, units), units);
  }

  lemma {:induction false} EndsMeet(b: Bundle, size: nat, first: seq<seq<Bucket>>, second: seq<seq<Bucket>>, end: nat,
                                    added: set<string>, free: set<string>)
    requires Rounds(b, size, first) && Rounds(b, size, second) && end + 1 == |first| < |second|
    requires StepAt(first, second, end, |added|) && KeysLeft(first[end]) == free && free !! added
    requires |free| + |added| == size && |added| > 0
    ensures |second| == |first| + 1
    ensures forall key :: key in added ==> Count(first, end, key) == 0
    ensures forall key :: key in free ==> Count(first, end, key) > 0 && Count(second, end + 1, key) == Count(first, end, key) - 1
  {
    assert StateAt(b, first, end);
    var ahead :| Ahead(first[end], second[end], ahead) && |ahead| == |added|;
    OnlyOneRoundMore(b, size, second, first[end], end, ahead);
    forall key | key in added ensures Count(first, end, key) == 0 {
      KeysLeftAreFilled(first[end], key);
    }
  }

  lemma {:induction false} RunsStart(b: Bundle, units: seq<Unit>)
    requires SizeOf(b) >= 2 && b.requireDifferentPhoneModels
    ensures Rounds(b, SizeOf(b), Trace(b, SizeOf(b), Buckets(b, units)))
    ensures KeysLeft(Buckets(b, units)) == KeysIn(b, units)
  {
    BucketsHoldTheUnits(b, units);
    TraceIsRounds(b, SizeOf(b), Buckets(b, units));
    StartKeys(b, units);
  }

  lemma {:induction false} AllInStep(b: Bundle, size: nat, first: seq<seq<Bucket>>, second: seq<seq<Bucket>>, added: set<string>)
    requires Rounds(b, size, first) && Rounds(b, size, second) && Ahead(first[0], second[0], added)
    ensures forall t: nat :: t < |first| ==> StepAt(first, second, t, |added|)
  {
    forall t: nat | t < |first| ensures StepAt(first, second, t, |added|) {
      TracesInStep(b, size, first, second, |added|, t);
    }
  }

  lemma {:induction false} RunsOfAnnouncement(b: Bundle, units: seq<Unit>, free: seq<Unit>, added: seq<Unit>, completed: seq<Unit>)
    requires SizeOf(b) >= 2 && b.isRepeatable && Completes(b, units, free, added, completed)
    requires |KeysIn(b, completed)| == SizeOf(b) + 1
    ensures TwoRuns(b, SizeOf(b), KeysIn(b, completed), Trace(b, SizeOf(b), Buckets(b, units)),
                    Trace(b, SizeOf(b), Buckets(b, completed)), KeysIn(b, added), KeysIn(b, free))
  {
    var size, first, second := SizeOf(b), Trace(b, SizeOf(b), Buckets(b, units)), Trace(b, SizeOf(b), Buckets(b, completed));
    RunsStart(b, units);
    RunsStart(b, completed);
    FreeModelsAreOld(b, units, free, completed, added);
    CompletedIsAhead(b, units, free, added, completed);
    KeysInCount(b, added);
    AllInStep(b, size, first, second, KeysIn(b, added));
    FirstRunEnds(b, units, free);
    SecondRunGoesOn(b, units, free, added, completed);
    assert StepAt(first, second, |first| - 1, |KeysIn(b, added)|);
    EndsMeet(b, size, first, second, |first| - 1, KeysIn(b, added), KeysIn(b, free));
  }

  // ------------------------------------------------------------ groups of the same models compared

  function AtLeastPrice(v: int): Unit -> int { (u: Unit) => if u.price >= v then 1 else 0 }

  /** Position by position, more units sorted dearest first are at least as dear. */
  lemma {:induction false} SortedDominates(p: seq<Unit>, q: seq<Unit>, i: nat)
    requires Descending(p) && Descending(q) && multiset(p) <= multiset(q) && i < |p|
    ensures i < |q| && q[i].price >= p[i].price
  {
    IncludedIsNoLonger(p, q);
    var v := p[i].price;
    SumIncluded(p, q, AtLeastPrice(v));
    SumSplit(p, i + 1, AtLeastPrice(v));
    forall u | u in p[..i + 1] ensures AtLeastPrice(v)(u) == 1 {
      var j :| 0 <= j < i + 1 && p[j] == u;
    }
    SumConstant(p[..i + 1], 1, AtLeastPrice(v));
    SumNonNegative(p[i + 1..], AtLeastPrice(v));
    SumSplit(q, i, AtLeastPrice(v));
    AtMostOneEach(q[..i], v);
    CheaperTail(q, i, v);
  }

  lemma {:induction false} AtMostOneEach(units: seq<Unit>, v: int)
    ensures SumBy(units, AtLeastPrice(v)) <= |units|
  {
    if units != [] {
      AtMostOneEach(units[1..], v);
    }
  }

  lemma {:induction false} CheaperTail(q: seq<Unit>, i: nat, v: int)
    requires Descending(q) && i < |q|
    ensures SumBy(q[i..], AtLeastPrice(v)) > 0 ==> q[i].price >= v
  {
    if q[i].price < v {
      forall u | u in q[i..] ensures AtLeastPrice(v)(u) == 0 {
        var j :| 0 <= j < |q[i..]| && q[i..][j] == u;
        assert q[i + j] == u;
      }
      SumZero(q[i..], AtLeastPrice(v));
    }
  }

  lemma {:induction false} OfKeyMultiplicity(b: Bundle, units: seq<Unit>, key: string, u: Unit)
    ensures multiset(OfKey(b, units, key))[u] == if KeyOf(b, u) == key then multiset(units)[u] else 0
  {
    if units != [] {
      var n := |units| - 1;
      OfKeyMultiplicity(b, units[..n], key, u);
      assert units == units[..n] + [units[n]];
    }
  }

  lemma {:induction false} OfKeyIncluded(b: Bundle, units: seq<Unit>, completed: seq<Unit>, key: string)
    requires multiset(units) <= multiset(completed)
    ensures multiset(OfKey(b, units, key)) <= multiset(OfKey(b, completed, key))
  {
    forall u: Unit ensures multiset(OfKey(b, units, key))[u] <= multiset(OfKey(b, completed, key))[u] {
      OfKeyMultiplicity(b, units, key, u);
      OfKeyMultiplicity(b, completed, key, u);
    }
  }

  lemma {:induction false} SortingDominates(few: seq<Unit>, many: seq<Unit>, i: nat)
    requires multiset(few) <= multiset(many) && i < |DearestFirst(few)|
    ensures i < |DearestFirst(many)| && DearestFirst(many)[i].price >= DearestFirst(few)[i].price
  {
    SortDescends(few);
    SortDescends(many);
    SortPermutes(few);
    SortPermutes(many);
    SortedDominates(DearestFirst(few), DearestFirst(many), i);
  }

  /** A model's bucket of the completed cart dominates its bucket before. */
  lemma {:induction false} BucketDominates(b: Bundle, units: seq<Unit>, completed: seq<Unit>, key: string, j: nat, i: nat)
    requires multiset(units) <= multiset(completed) && j <= i < |At(Buckets(b, units), key)|
    ensures j < |At(Buckets(b, completed), key)|
    ensures At(Buckets(b, completed), key)[j].price >= At(Buckets(b, units), key)[i].price
  {
    OfKeyIncluded(b, units, completed, key);
    BucketsAt(b, units, key);
    BucketsAt(b, completed, key);
    SortingDominates(OfKey(b, units, key), OfKey(b, completed, key), i);
    SortDescends(OfKey(b, completed, key));
  }

  /** The unit a group takes of a model is the first of those left. */
  lemma {:induction false} GroupHeads(b: Bundle, size: nat, x: seq<Bucket>, u: Unit)
    requires b.requireDifferentPhoneModels && DistinctKeys(x) && Keyed(b, x) && Choose(b, size, x).Some? && u in GroupAt(b, size, x)
    ensures At(x, KeyOf(b, u)) != [] && At(x, KeyOf(b, u))[0] == u
  {
    var picks := Choose(b, size, x).value;
    ChosenAreHeads(b, size, x);
    var i :| 0 <= i < |picks| && PickedUnits(picks)[i] == u;
    assert picks[i] in picks && HasHead(x, picks[i]);
    HeadHasItsKey(b, x, picks[i]);
    var j :| 0 <= j < |x| && x[j].key == picks[i].key && x[j].units != [] && x[j].units[0] == u;
    AtIndex(x, j);
  }

  /** Prices of a group's units by model. */
  function PricesOf(b: Bundle, group: seq<Unit>): (prices: seq<ModelPrice>)
    ensures |prices| == |group|
    ensures forall i :: 0 <= i < |group| ==> prices[i] == ModelPrice(KeyOf(b, group[i]), group[i].price)
  {
    seq(|group|, i requires 0 <= i < |group| => ModelPrice(KeyOf(b, group[i]), group[i].price))
  }

  /** Two rounds over the same models, the one of the smaller cart no earlier for any of them. */
  ghost predicate LaterRound(b: Bundle, units: seq<Unit>, completed: seq<Unit>, size: nat, x: seq<Bucket>, y: seq<Bucket>) {
    && b.requireDifferentPhoneModels && size > 0 && multiset(units) <= multiset(completed)
    && DistinctKeys(x) && Keyed(b, x) && Tails(Buckets(b, units), x) && Choose(b, size, x).Some?
    && DistinctKeys(y) && Keyed(b, y) && Tails(Buckets(b, completed), y) && Choose(b, size, y).Some?
    && KeysOf(Choose(b, size, x).value) == KeysOf(Choose(b, size, y).value)
    && forall key :: key in KeysOf(Choose(b, size, x).value) ==>
         |At(Buckets(b, completed), key)| - |At(y, key)| <= |At(Buckets(b, units), key)| - |At(x, key)|
  }

  lemma {:induction false} PartnerPicked(b: Bundle, units: seq<Unit>, completed: seq<Unit>, size: nat, x: seq<Bucket>, y: seq<Bucket>,
                                         key: string)
    requires LaterRound(b, units, completed, size, x, y) && key in KeysIn(b, GroupAt(b, size, x))
    ensures key in KeysIn(b, GroupAt(b, size, y)) && key in KeysOf(Choose(b, size, x).value)
  {
    InGroup(b, size, x);
    InGroup(b, size, y);
  }

  lemma {:induction false} SameModelIsDearer(b: Bundle, units: seq<Unit>, completed: seq<Unit>, size: nat,
                                             x: seq<Bucket>, y: seq<Bucket>, i: nat)
    requires LaterRound(b, units, completed, size, x, y) && i < |GroupAt(b, size, x)|
    ensures HasUnit(b, GroupAt(b, size, y), PricesOf(b, GroupAt(b, size, x))[i])
  {
    var before, later := GroupAt(b, size, x), GroupAt(b, size, y);
    var key := KeyOf(b, before[i]);
    PartnerPicked(b, units, completed, size, x, y, key);
    var j :| 0 <= j < |later| && KeyOf(b, later[j]) == key;
    GroupHeads(b, size, x, before[i]);
    GroupHeads(b, size, y, later[j]);
    assert IsTail(At(Buckets(b, units), key), At(x, key));
    assert IsTail(At(Buckets(b, completed), key), At(y, key));
    BucketDominates(b, units, completed, key, |At(Buckets(b, completed), key)| - |At(y, key)|, |At(Buckets(b, units), key)| - |At(x, key)|);
  }

  lemma {:induction false} MatchedModelsAreWorthMore(b: Bundle, before: seq<Unit>, later: seq<Unit>)
    requires b.requireDifferentPhoneModels && ModelsDiffer(b, before) && Matched(b, PricesOf(b, before), later)
    ensures Subtotal(before) <= Subtotal(later)
  {
    MatchedIsWorthMore(b, PricesOf(b, before), later);
    SumPointwise(PricesOf(b, before), before, ModelPriceOf, PriceOf);
  }

  lemma {:induction false} GroupsModelsDiffer(b: Bundle, units: seq<Unit>, completed: seq<Unit>, size: nat, x: seq<Bucket>, y: seq<Bucket>)
    requires LaterRound(b, units, completed, size, x, y)
    ensures ModelsDiffer(b, GroupAt(b, size, x))
  {
    InGroup(b, size, x);
  }

  /** A group of the second run is worth at least a group of the first over the same models that takes later
      units of them. */
  lemma {:induction false} LaterGroupIsWorthLess(b: Bundle, units: seq<Unit>, completed: seq<Unit>, size: nat,
                                                 x: seq<Bucket>, y: seq<Bucket>)
    requires LaterRound(b, units, completed, size, x, y)
    ensures Subtotal(GroupAt(b, size, x)) <= Subtotal(GroupAt(b, size, y))
  {
    forall i: nat | i < |GroupAt(b, size, x)| ensures HasUnit(b, GroupAt(b, size, y), PricesOf(b, GroupAt(b, size, x))[i]) {
      SameModelIsDearer(b, units, completed, size, x, y, i);
    }
    GroupsModelsDiffer(b, units, completed, size, x, y);
    MatchedModelsAreWorthMore(b, GroupAt(b, size, x), GroupAt(b, size, y));
  }

  // ------------------------------------------------------------ one model more: no group loses money

  /** Every unit costs the same surcharge. */
  ghost predicate SameSurcharge(b: Bundle, units: seq<Unit>) {
    forall u :: u in units ==> u.surcharge == WorstSurcharge(b)
  }

  lemma {:induction false} DiscountBySubtotal(b: Bundle, completed: seq<Unit>, group: seq<Unit>)
    requires SameSurcharge(b, completed) && multiset(group) <= multiset(completed)
    ensures Discount(b, group) == Subtotal(group) - (b.fixedTotal + |group| * WorstSurcharge(b))
  {
    forall u | u in group ensures u.surcharge == WorstSurcharge(b) {
      assert u in multiset(group) && u in multiset(completed);
    }
    SumConstant(group, WorstSurcharge(b), SurchargeOf);
    TimesCommutes(|group|, WorstSurcharge(b));
  }

  /** A group that leaves out a free model is worth at least a group of the cart before. */
  lemma {:induction false} GroupWithoutFreeModel(b: Bundle, units: seq<Unit>, completed: seq<Unit>, all: set<string>, added: set<string>,
                                                 free: set<string>, key: string, t: nat)
    requires SizeOf(b) >= 2 && b.requireDifferentPhoneModels && multiset(units) <= multiset(completed)
    requires Affordable(b, SizeOf(b), Buckets(b, units)) && SameSurcharge(b, completed)
    requires TwoRuns(b, SizeOf(b), all, Trace(b, SizeOf(b), Buckets(b, units)), Trace(b, SizeOf(b), Buckets(b, completed)), added, free)
    requires key in free && Omits(Trace(b, SizeOf(b), Buckets(b, completed)), t, key)
    ensures Discount(b, GroupAt(b, SizeOf(b), Trace(b, SizeOf(b), Buckets(b, completed))[t])) >= 0
  {
    var size, first, second := SizeOf(b), Trace(b, SizeOf(b), Buckets(b, units)), Trace(b, SizeOf(b), Buckets(b, completed));
    var s := ComparableRound(b, size, all, first, second, added, free, key, t);
    OmissionsCompared(b, units, completed, all, first, second, added, free, key, s, t);
    AffordableByRounds(b, size, Buckets(b, units));
    assert SavesAt(b, size, first, s);
    GroupFromCartUnits(b, units, first, s);
    GroupFromCartUnits(b, completed, second, t);
    DiscountBySubtotal(b, completed, GroupAt(b, size, first[s]));
    DiscountBySubtotal(b, completed, GroupAt(b, size, second[t]));
  }

  lemma {:induction false} AnyOther(all: set<string>, size: nat, key: string) returns (other: string)
    requires |all| == size + 1 && size >= 1
    ensures other in all && other != key
  {
    if all - {key} == {} {
      SubsetIsSmaller(all, {key});
    }
    other :| other in all - {key};
  }

  lemma {:induction false} OmissionsCompared(b: Bundle, units: seq<Unit>, completed: seq<Unit>, all: set<string>,
                                             first: seq<seq<Bucket>>, second: seq<seq<Bucket>>, added: set<string>, free: set<string>,
                                             key: string, s: nat, t: nat)
    requires SizeOf(b) >= 2 && b.requireDifferentPhoneModels && multiset(units) <= multiset(completed)
    requires TwoRuns(b, SizeOf(b), all, first, second, added, free)
    requires first[0] == Buckets(b, units) && second[0] == Buckets(b, completed)
    requires key in free && Omits(second, t, key) && Omits(first, s, key)
    requires forall other :: other in all && other != key ==>
      Count(second, 0, other) - Count(second, t, other) <= Count(first, 0, other) - Count(first, s, other)
    ensures Subtotal(GroupAt(b, SizeOf(b), first[s])) <= Subtotal(GroupAt(b, SizeOf(b), second[t]))
  {
    var size := SizeOf(b);
    var other := AnyOther(all, size, key);
    OmittedRanksLast(b, size, all, first, s, key, other);
    OmittedRanksLast(b, size, all, second, t, key, other);
    assert StateAt(b, first, s) && StateAt(b, second, t);
    LaterGroupIsWorthLess(b, units, completed, size, first[s], second[t]);
  }

  lemma {:induction false} NotTakenIsOmitted(b: Bundle, size: nat, trace: seq<seq<Bucket>>, t: nat, key: string)
    requires Rounds(b, size, trace) && t + 1 < |trace|
    ensures Choose(b, size, trace[t]).Some?
    ensures key !in KeysOf(Choose(b, size, trace[t]).value) ==> Omits(trace, t, key)
  {
    assert RoundAt(b, size, trace, t);
  }

  /** With one model more in the completed cart than a group takes, and one surcharge for all units, no group
      loses money: it takes every free model, or is worth at least some group of the cart before. */
  lemma {:induction false} OneMoreModelAffordable(b: Bundle, units: seq<Unit>, free: seq<Unit>, added: seq<Unit>, completed: seq<Unit>, saving: int)
    requires SizeOf(b) >= 2 && b.isRepeatable && Offered(b, units, free, added, completed, saving)
    requires |KeysIn(b, completed)| == SizeOf(b) + 1 && SameSurcharge(b, completed)
    ensures Affordable(b, SizeOf(b), Buckets(b, completed))
  {
    var size, start := SizeOf(b), Buckets(b, completed);
    var trace := Trace(b, size, start);
    var x := LeftBehind(b, units, free, added, completed, saving);
    BucketsHoldTheUnits(b, completed);
    TraceIsRounds(b, size, start);
    RunsOfAnnouncement(b, units, free, added, completed);
    FirstRunEnds(b, units, free);
    forall t: nat | t + 1 < |trace| ensures SavesAt(b, size, trace, t) {
      GroupFromCartUnits(b, completed, trace, t);
      NotTakenIsOmitted(b, size, trace, t, "");
      if KeysIn(b, free) <= KeysIn(b, GroupAt(b, size, trace[t])) {
        GroupWithFreeModelsSaves(b, units, free, |added|, saving, completed, GroupAt(b, size, trace[t]));
      } else {
        var key :| key in KeysIn(b, free) && key !in KeysIn(b, GroupAt(b, size, trace[t]));
        NotTakenIsOmitted(b, size, trace, t, key);
        GroupWithoutFreeModel(b, units, completed, KeysIn(b, completed), KeysIn(b, added), KeysIn(b, free), key, t);
      }
    }
    AffordableByRounds(b, size, start);
  }
}
