/** Grouping of cart units into bundle instances
    (src/modules/promotions/bundles/bundle-pricing.util.ts): the data, the grouping as a
    function, and the imperative computation proved equal to it. */
module BundlePricing {
  import opened Options
  import opened Sums
  import opened DiscountAllocation

  const DEFAULT_BUNDLE_SIZE := 2

  /** The bucket of units without a phone model. */
  const NO_PHONE_MODEL := "__no_phone_model__"

  datatype Scope = SpecificVariants | AllProducts | Products | Collections | CaseTypes | PhoneBrands | PhoneModels

  datatype Bundle = Bundle(
    id: string,
    fixedTotal: nat,
    currency: string,
    requireDifferentPhoneModels: bool,
    isRepeatable: bool,
    allowCouponStacking: bool,
    eligibleVariants: map<string, nat>,
    scope: Option<Scope>,
    targetIds: Option<set<string>>,
    bundleSize: Option<int>,
    minUnitPrice: Option<nat>,
    maxSurcharge: Option<nat>)

  datatype Line = Line(
    lineIndex: nat,
    variantId: string,
    phoneModelId: Option<string>,
    unitPrice: nat,
    quantity: nat,
    currency: string,
    productId: Option<string>,
    caseTypeId: Option<string>,
    phoneBrandId: Option<string>,
    collectionIds: seq<string>)

  datatype Unit = Unit(lineIndex: nat, phoneModelId: Option<string>, price: nat, surcharge: nat)

  datatype UnitAllocation = UnitAllocation(lineIndex: nat, discount: int)

  datatype Instance = Instance(
    bundleId: string,
    fixedTotalApplied: int,
    normalSubtotal: int,
    discountAmount: int,
    unitAllocations: seq<UnitAllocation>)

  // ---------------------------------------------------------------- eligibility

  function ScopeOf(b: Bundle): Scope { ValueOr(b.scope, SpecificVariants) }

  function SizeOf(b: Bundle): int { ValueOr(b.bundleSize, DEFAULT_BUNDLE_SIZE) }

  /** A nullable id that is present, non-empty and targeted. */
  predicate Targeted(id: Option<string>, targets: set<string>) {
    id.Some? && id.value != "" && id.value in targets
  }

  predicate IsLineEligible(line: Line, b: Bundle) {
    var targets := ValueOr(b.targetIds, {});
    match ScopeOf(b)
    case AllProducts => true
    case SpecificVariants => line.variantId in b.eligibleVariants
    case Products => line.productId.Some? && line.productId.value in targets
    case Collections => exists id :: id in line.collectionIds && id in targets
    case CaseTypes => Targeted(line.caseTypeId, targets)
    case PhoneBrands => Targeted(line.phoneBrandId, targets)
    case PhoneModels => Targeted(line.phoneModelId, targets)
  }

  predicate MayFill(line: Line, b: Bundle) {
    line.currency == b.currency && IsLineEligible(line, b)
  }

  function Eligible(lines: seq<Line>, b: Bundle): seq<Line> {
    if lines == [] then []
    else (if MayFill(lines[0], b) then [lines[0]] else []) + Eligible(lines[1..], b)
  }

  // ---------------------------------------------------------------- units

  function UnitFor(line: Line, b: Bundle): Unit {
    Unit(line.lineIndex, line.phoneModelId, line.unitPrice,
         if ScopeOf(b) == SpecificVariants && line.variantId in b.eligibleVariants
         then b.eligibleVariants[line.variantId] else 0)
  }

  function Copies<T>(x: T, n: int): seq<T> {
    if n <= 0 then [] else Copies(x, n - 1) + [x]
  }

  /** Units still unclaimed per line index. */
  type Remaining = map<nat, int>

  function Left(rem: Remaining, index: nat): int {
    if index in rem then rem[index] else 0
  }

  /** One unit per unclaimed piece of each of the given lines, in cart order. */
  function UnitsLeft(eligible: seq<Line>, rem: Remaining, b: Bundle): seq<Unit> {
    if eligible == [] then []
    else Copies(UnitFor(eligible[0], b), Left(rem, eligible[0].lineIndex)) + UnitsLeft(eligible[1..], rem, b)
  }

  function Quantities(lines: seq<Line>): Remaining {
    if lines == [] then map[]
    else Quantities(lines[..|lines| - 1])[lines[|lines| - 1].lineIndex := lines[|lines| - 1].quantity]
  }

  function Claim(rem: Remaining, units: seq<Unit>): Remaining
    decreases |units|
  {
    if units == [] then rem
    else Claim(rem[units[0].lineIndex := Left(rem, units[0].lineIndex) - 1], units[1..])
  }

  // ---------------------------------------------------------------- buckets

  datatype Bucket = Bucket(key: string, units: seq<Unit>)

  function KeyOf(b: Bundle, u: Unit): string {
    if b.requireDifferentPhoneModels then ValueOr(u.phoneModelId, NO_PHONE_MODEL) else "__all__"
  }

  /** `Map.set` of one more unit: append to its bucket, or open a new bucket at the end. */
  function AddUnit(buckets: seq<Bucket>, key: string, u: Unit): seq<Bucket> {
    if buckets == [] then [Bucket(key, [u])]
    else if buckets[0].key == key then [Bucket(key, buckets[0].units + [u])] + buckets[1..]
    else [buckets[0]] + AddUnit(buckets[1..], key, u)
  }

  function Bucketed(b: Bundle, units: seq<Unit>): seq<Bucket> {
    if units == [] then []
    else
      var last := units[|units| - 1];
      AddUnit(Bucketed(b, units[..|units| - 1]), KeyOf(b, last), last)
  }

  function InsertByPrice(u: Unit, sorted: seq<Unit>): seq<Unit> {
    if sorted == [] || u.price >= sorted[0].price then [u] + sorted
    else [sorted[0]] + InsertByPrice(u, sorted[1..])
  }

  /** Stable sort, dearest first. */
  function DearestFirst(units: seq<Unit>): seq<Unit> {
    if units == [] then [] else InsertByPrice(units[0], DearestFirst(units[1..]))
  }

  function SortEach(buckets: seq<Bucket>): (sorted: seq<Bucket>)
    ensures |sorted| == |buckets|
    ensures forall i :: 0 <= i < |buckets| ==> sorted[i].key == buckets[i].key
    ensures forall i :: 0 <= i < |buckets| ==> sorted[i].units == DearestFirst(buckets[i].units)
  {
    if buckets == [] then []
    else [Bucket(buckets[0].key, DearestFirst(buckets[0].units))] + SortEach(buckets[1..])
  }

  function NonEmpty(buckets: seq<Bucket>): (some: seq<Bucket>)
    ensures forall x :: x in some ==> x in buckets && x.units != []
  {
    if buckets == [] then []
    else (if buckets[0].units != [] then [buckets[0]] else []) + NonEmpty(buckets[1..])
  }

  /** Code-unit order on keys, as JavaScript compares strings. */
  predicate KeyLess(a: string, b: string) {
    b != [] && (a == [] || a[0] < b[0] || (a[0] == b[0] && KeyLess(a[1..], b[1..])))
  }

  /** Larger buckets first, ties by key. */
  predicate RanksBefore(x: Bucket, y: Bucket) {
    |x.units| > |y.units| || (|x.units| == |y.units| && KeyLess(x.key, y.key))
  }

  function InsertByRank(x: Bucket, ranked: seq<Bucket>): (r: seq<Bucket>)
    ensures multiset(r) == multiset{x} + multiset(ranked)
  {
    if ranked == [] || !RanksBefore(ranked[0], x) then [x] + ranked
    else
      assert ranked == [ranked[0]] + ranked[1..];
      [ranked[0]] + InsertByRank(x, ranked[1..])
  }

  function Ranked(buckets: seq<Bucket>): (r: seq<Bucket>)
    ensures multiset(r) == multiset(buckets)
  {
    if buckets == [] then []
    else
      assert buckets == [buckets[0]] + buckets[1..];
      InsertByRank(buckets[0], Ranked(buckets[1..]))
  }

  function UnitsIn(x: Bucket): int { |x.units| }

  function UnitCount(buckets: seq<Bucket>): int { SumBy(buckets, UnitsIn) }

  function AllUnits(buckets: seq<Bucket>): seq<Unit> {
    if buckets == [] then [] else buckets[0].units + AllUnits(buckets[1..])
  }

  /** `buckets.set(key, buckets.get(key).slice(n))`. */
  function DropFront(buckets: seq<Bucket>, key: string, n: nat): (r: seq<Bucket>)
    ensures |r| == |buckets|
    ensures forall i :: 0 <= i < |r| ==> r[i].key == buckets[i].key
  {
    if buckets == [] then []
    else if buckets[0].key == key then
      [Bucket(key, if n <= |buckets[0].units| then buckets[0].units[n..] else [])] + buckets[1..]
    else [buckets[0]] + DropFront(buckets[1..], key, n)
  }

  // ---------------------------------------------------------------- one round

  datatype Pick = Pick(key: string, unit: Unit)

  /** The first unit of each bucket. */
  function Heads(buckets: seq<Bucket>): (picks: seq<Pick>)
    requires forall x :: x in buckets ==> x.units != []
    ensures |picks| == |buckets|
    ensures forall i :: 0 <= i < |picks| ==> picks[i] == Pick(buckets[i].key, buckets[i].units[0])
  {
    if buckets == [] then []
    else [Pick(buckets[0].key, buckets[0].units[0])] + Heads(buckets[1..])
  }

  function PicksFrom(key: string, units: seq<Unit>): (picks: seq<Pick>)
    ensures |picks| == |units|
    ensures forall i :: 0 <= i < |picks| ==> picks[i] == Pick(key, units[i])
  {
    seq(|units|, i requires 0 <= i < |units| => Pick(key, units[i]))
  }

  function PickedUnits(picks: seq<Pick>): (units: seq<Unit>)
    ensures |units| == |picks|
    ensures forall i :: 0 <= i < |picks| ==> units[i] == picks[i].unit
  {
    seq(|picks|, i requires 0 <= i < |picks| => picks[i].unit)
  }

  /** The units the next instance would use, if enough are left. */
  function Choose(b: Bundle, size: nat, buckets: seq<Bucket>): Option<seq<Pick>> {
    var nonEmpty := NonEmpty(buckets);
    if b.requireDifferentPhoneModels then
      if |nonEmpty| < size then None
      else
        var ranked := Ranked(nonEmpty);
        assert |ranked| == |nonEmpty| by { assert |multiset(ranked)| == |multiset(nonEmpty)|; }
        assert forall x :: x in ranked[..size] ==> x in multiset(ranked) && x in multiset(nonEmpty);
        Some(Heads(ranked[..size]))
    else if nonEmpty == [] || UnitCount(nonEmpty) < size then None
    else
      var units := nonEmpty[0].units;
      Some(PicksFrom(nonEmpty[0].key, if size <= |units| then units[..size] else units))
  }

  /** One unit off each picked bucket. */
  function DropPicks(buckets: seq<Bucket>, picks: seq<Pick>): seq<Bucket>
    decreases |picks|
  {
    if picks == [] then buckets else DropPicks(DropFront(buckets, picks[0].key, 1), picks[1..])
  }

  function AfterRound(b: Bundle, size: nat, buckets: seq<Bucket>, picks: seq<Pick>): seq<Bucket>
    requires picks != []
  {
    if b.requireDifferentPhoneModels then DropPicks(buckets, picks)
    else DropFront(buckets, picks[0].key, size)
  }

  function PriceOf(u: Unit): int { u.price }

  function SurchargeOf(u: Unit): int { u.surcharge }

  function Subtotal(units: seq<Unit>): int { SumBy(units, PriceOf) }

  function EffectiveTotal(b: Bundle, units: seq<Unit>): int { b.fixedTotal + SumBy(units, SurchargeOf) }

  function Discount(b: Bundle, units: seq<Unit>): int { Subtotal(units) - EffectiveTotal(b, units) }

  predicate DistinctKeys(buckets: seq<Bucket>) {
    forall i, j :: 0 <= i < j < |buckets| ==> buckets[i].key != buckets[j].key
  }

  /** What `Bucketed` delivers: one bucket a key, and a single bucket when models may repeat. */
  predicate WellBucketed(b: Bundle, buckets: seq<Bucket>) {
    DistinctKeys(buckets) && (!b.requireDifferentPhoneModels ==> |buckets| <= 1)
  }

  predicate HasHead(buckets: seq<Bucket>, p: Pick) {
    exists i :: 0 <= i < |buckets| && buckets[i].key == p.key && buckets[i].units != [] && buckets[i].units[0] == p.unit
  }

  lemma {:induction false} AllUnitsOfOne(buckets: seq<Bucket>, i: nat)
    requires i < |buckets|
    ensures |AllUnits(buckets)| >= |buckets[i].units|
  {
    if i > 0 {
      AllUnitsOfOne(buckets[1..], i - 1);
    }
  }

  lemma {:induction false} DropFrontAt(buckets: seq<Bucket>, i: nat, n: nat)
    requires DistinctKeys(buckets) && i < |buckets| && n <= |buckets[i].units|
    ensures DropFront(buckets, buckets[i].key, n) == buckets[i := Bucket(buckets[i].key, buckets[i].units[n..])]
  {
    if i > 0 {
      assert buckets[1..][i - 1] == buckets[i];
      DropFrontAt(buckets[1..], i - 1, n);
      assert buckets[i := Bucket(buckets[i].key, buckets[i].units[n..])]
          == [buckets[0]] + buckets[1..][i - 1 := Bucket(buckets[i].key, buckets[i].units[n..])];
    }
  }

  lemma {:induction false} AllUnitsReplaced(buckets: seq<Bucket>, i: nat, x: Bucket, taken: seq<Unit>)
    requires i < |buckets| && buckets[i].units == taken + x.units
    ensures multiset(AllUnits(buckets)) == multiset(taken) + multiset(AllUnits(buckets[i := x]))
  {
    if i == 0 {
      assert buckets[0 := x][1..] == buckets[1..];
    } else {
      AllUnitsReplaced(buckets[1..], i - 1, x, taken);
      assert buckets[i := x][1..] == buckets[1..][i - 1 := x];
    }
  }

  /** Taking `n` units off the bucket of `key` removes exactly those units. */
  lemma {:induction false} DropFrontSplits(buckets: seq<Bucket>, i: nat, n: nat)
    requires DistinctKeys(buckets) && i < |buckets| && n <= |buckets[i].units|
    ensures multiset(AllUnits(buckets))
         == multiset(buckets[i].units[..n]) + multiset(AllUnits(DropFront(buckets, buckets[i].key, n)))
    ensures forall j :: 0 <= j < |buckets| && j != i ==> DropFront(buckets, buckets[i].key, n)[j] == buckets[j]
    ensures DropFront(buckets, buckets[i].key, n)[i] == Bucket(buckets[i].key, buckets[i].units[n..])
  {
    DropFrontAt(buckets, i, n);
    assert buckets[i].units == buckets[i].units[..n] + buckets[i].units[n..];
    AllUnitsReplaced(buckets, i, Bucket(buckets[i].key, buckets[i].units[n..]), buckets[i].units[..n]);
  }

  predicate PicksAreHeads(buckets: seq<Bucket>, picks: seq<Pick>) {
    && (forall i, j :: 0 <= i < j < |picks| ==> picks[i].key != picks[j].key)
    && (forall p :: p in picks ==> HasHead(buckets, p))
  }

  lemma {:induction false} OtherHeadsStay(buckets: seq<Bucket>, i: nat, picks: seq<Pick>)
    requires DistinctKeys(buckets) && i < |buckets| && buckets[i].units != []
    requires PicksAreHeads(buckets, picks) && picks != [] && picks[0].key == buckets[i].key
    ensures PicksAreHeads(DropFront(buckets, buckets[i].key, 1), picks[1..])
  {
    var dropped := DropFront(buckets, buckets[i].key, 1);
    DropFrontSplits(buckets, i, 1);
    forall p | p in picks[1..] ensures HasHead(dropped, p) {
      assert p in picks && p.key != picks[0].key;
      var j :| 0 <= j < |buckets| && buckets[j].key == p.key && buckets[j].units != [] && buckets[j].units[0] == p.unit;
      assert dropped[j] == buckets[j];
    }
  }

  lemma {:induction false} FirstPickSplits(buckets: seq<Bucket>, picks: seq<Pick>)
    requires DistinctKeys(buckets) && PicksAreHeads(buckets, picks) && picks != []
    ensures var rest := DropFront(buckets, picks[0].key, 1);
            && multiset(AllUnits(buckets)) == multiset{picks[0].unit} + multiset(AllUnits(rest))
            && PicksAreHeads(rest, picks[1..])
            && DistinctKeys(rest)
  {
    assert HasHead(buckets, picks[0]);
    var i :| 0 <= i < |buckets| && buckets[i].key == picks[0].key && buckets[i].units != []
          && buckets[i].units[0] == picks[0].unit;
    DropFrontSplits(buckets, i, 1);
    OtherHeadsStay(buckets, i, picks);
    assert buckets[i].units[..1] == [picks[0].unit];
  }

  lemma {:induction false} PickedUnitsHead(picks: seq<Pick>)
    requires picks != []
    ensures multiset(PickedUnits(picks)) == multiset{picks[0].unit} + multiset(PickedUnits(picks[1..]))
  {
    assert PickedUnits(picks) == [picks[0].unit] + PickedUnits(picks[1..]);
  }

  /** A round takes exactly the picked units out of the buckets. */
  lemma {:induction false} DropPicksSplits(buckets: seq<Bucket>, picks: seq<Pick>)
    requires DistinctKeys(buckets) && PicksAreHeads(buckets, picks)
    ensures multiset(AllUnits(buckets))
         == multiset(PickedUnits(picks)) + multiset(AllUnits(DropPicks(buckets, picks)))
    ensures DistinctKeys(DropPicks(buckets, picks))
    ensures |DropPicks(buckets, picks)| == |buckets|
    decreases |picks|
  {
    if picks != [] {
      FirstPickSplits(buckets, picks);
      DropPicksSplits(DropFront(buckets, picks[0].key, 1), picks[1..]);
      PickedUnitsHead(picks);
    }
  }

  lemma {:induction false} NonEmptyKeepsKeysDistinct(buckets: seq<Bucket>)
    requires DistinctKeys(buckets)
    ensures DistinctKeys(NonEmpty(buckets))
  {
    if buckets != [] {
      NonEmptyKeepsKeysDistinct(buckets[1..]);
      var rest := NonEmpty(buckets[1..]);
      forall x | x in rest ensures x.key != buckets[0].key {
        var j :| 0 <= j < |buckets[1..]| && buckets[1..][j] == x;
        assert buckets[j + 1] == x;
      }
    }
  }

  lemma {:induction false} RankedKeepsKeysDistinct(a: seq<Bucket>, r: seq<Bucket>)
    requires DistinctKeys(a) && multiset(r) == multiset(a)
    ensures DistinctKeys(r)
  {
    forall i, j | 0 <= i < j < |r| ensures r[i].key != r[j].key {
      if r[i].key == r[j].key {
        assert r[i] in multiset(a) && r[j] in multiset(a);
        var p :| 0 <= p < |a| && a[p] == r[i];
        var q :| 0 <= q < |a| && a[q] == r[j];
        assert p == q;
        TwiceIn(r, i, j);
        OnceIn(a, p);
      }
    }
  }

  lemma {:induction false} TwiceIn<T>(s: seq<T>, i: nat, j: nat)
    requires i < j < |s| && s[i] == s[j]
    ensures multiset(s)[s[i]] >= 2
  {
    assert s == s[..i] + [s[i]] + s[i + 1..j] + [s[j]] + s[j + 1..];
  }

  lemma {:induction false} OnceIn<T>(s: seq<T>, p: nat)
    requires p < |s| && forall i :: 0 <= i < |s| && i != p ==> s[i] != s[p]
    ensures multiset(s)[s[p]] == 1
  {
    assert s == s[..p] + [s[p]] + s[p + 1..];
    assert s[p] !in s[..p] && s[p] !in s[p + 1..];
  }

  /** When models must differ, the picks are the heads of distinct non-empty buckets. */
  lemma {:induction false} ChosenAreHeads(b: Bundle, size: nat, buckets: seq<Bucket>)
    requires DistinctKeys(buckets) && b.requireDifferentPhoneModels && Choose(b, size, buckets).Some?
    ensures PicksAreHeads(buckets, Choose(b, size, buckets).value)
    ensures |Choose(b, size, buckets).value| == size
  {
    var nonEmpty := NonEmpty(buckets);
    var ranked := Ranked(nonEmpty);
    assert |multiset(ranked)| == |multiset(nonEmpty)|;
    NonEmptyKeepsKeysDistinct(buckets);
    RankedKeepsKeysDistinct(nonEmpty, ranked);
    var picks := Choose(b, size, buckets).value;
    forall p | p in picks ensures HasHead(buckets, p) {
      var k :| 0 <= k < |picks| && picks[k] == p;
      assert ranked[..size][k] == ranked[k];
      assert ranked[k] in multiset(nonEmpty);
      var i :| 0 <= i < |buckets| && buckets[i] == ranked[k];
    }
    forall i, j | 0 <= i < j < |picks| ensures picks[i].key != picks[j].key {
      assert picks[i].key == ranked[i].key && picks[j].key == ranked[j].key;
    }
  }

  /** When models may repeat, the picks are the first `size` units of the only bucket. */
  lemma {:induction false} ChosenFromTheBucket(b: Bundle, size: nat, buckets: seq<Bucket>)
    requires WellBucketed(b, buckets) && !b.requireDifferentPhoneModels
    requires size > 0 && Choose(b, size, buckets).Some?
    ensures |buckets| == 1 && size <= |buckets[0].units|
    ensures PickedUnits(Choose(b, size, buckets).value) == buckets[0].units[..size]
    ensures Choose(b, size, buckets).value[0].key == buckets[0].key
  {
    assert NonEmpty(buckets) == buckets;
    SumOne(buckets[0], UnitsIn);
    assert buckets == [buckets[0]];
  }

  lemma {:induction false} RoundSplits(b: Bundle, size: nat, buckets: seq<Bucket>)
    requires WellBucketed(b, buckets) && size > 0 && Choose(b, size, buckets).Some?
    ensures Choose(b, size, buckets).value != []
    ensures |Choose(b, size, buckets).value| == size
    ensures var picks := Choose(b, size, buckets).value;
            var rest := AfterRound(b, size, buckets, picks);
            && WellBucketed(b, rest)
            && multiset(AllUnits(buckets)) == multiset(PickedUnits(picks)) + multiset(AllUnits(rest))
            && |AllUnits(rest)| == |AllUnits(buckets)| - size
  {
    var picks := Choose(b, size, buckets).value;
    if b.requireDifferentPhoneModels {
      ChosenAreHeads(b, size, buckets);
      DropPicksSplits(buckets, picks);
    } else {
      ChosenFromTheBucket(b, size, buckets);
      DropFrontSplits(buckets, 0, size);
    }
    var rest := AfterRound(b, size, buckets, picks);
    assert |multiset(AllUnits(buckets))| == |multiset(PickedUnits(picks))| + |multiset(AllUnits(rest))|;
  }

  // ---------------------------------------------------------------- grouping

  /** The next group, if the bundle may form another one, enough units are left, and the group
      would not cost more than its units. */
  function NextGroup(b: Bundle, size: nat, buckets: seq<Bucket>, formedAny: bool): Option<seq<Pick>> {
    if !b.isRepeatable && formedAny then None
    else
      match Choose(b, size, buckets)
      case None => None
      case Some(picks) => if Discount(b, PickedUnits(picks)) < 0 then None else Some(picks)
  }

  /** The groups formed from these buckets, in order. */
  function FormGroups(b: Bundle, size: nat, buckets: seq<Bucket>, formedAny: bool): seq<seq<Unit>>
    requires WellBucketed(b, buckets) && size > 0
    decreases |AllUnits(buckets)|
  {
    match NextGroup(b, size, buckets, formedAny)
    case None => []
    case Some(picks) =>
      RoundSplits(b, size, buckets);
      [PickedUnits(picks)] + FormGroups(b, size, AfterRound(b, size, buckets, picks), true)
  }

  lemma {:induction false} AddUnitAdds(buckets: seq<Bucket>, key: string, u: Unit)
    ensures multiset(AllUnits(AddUnit(buckets, key, u))) == multiset(AllUnits(buckets)) + multiset{u}
  {
    if buckets == [] {
      assert AllUnits([Bucket(key, [u])]) == [u];
    } else if buckets[0].key == key {
      var grown := AddUnit(buckets, key, u);
      assert grown[1..] == buckets[1..];
    } else {
      AddUnitAdds(buckets[1..], key, u);
      assert AddUnit(buckets, key, u)[1..] == AddUnit(buckets[1..], key, u);
    }
  }

  predicate HasKey(buckets: seq<Bucket>, key: string) {
    exists i :: 0 <= i < |buckets| && buckets[i].key == key
  }

  /** A new unit opens a bucket only for a key that had none. */
  lemma {:induction false} AddUnitKeys(buckets: seq<Bucket>, key: string, u: Unit)
    requires DistinctKeys(buckets)
    ensures DistinctKeys(AddUnit(buckets, key, u))
    ensures forall i :: 0 <= i < |AddUnit(buckets, key, u)| ==>
      AddUnit(buckets, key, u)[i].key == key || HasKey(buckets, AddUnit(buckets, key, u)[i].key)
  {
    var grown := AddUnit(buckets, key, u);
    if buckets != [] && buckets[0].key != key {
      var rest := AddUnit(buckets[1..], key, u);
      AddUnitKeys(buckets[1..], key, u);
      assert grown[1..] == rest;
      forall i | 0 <= i < |rest| ensures rest[i].key != buckets[0].key && (rest[i].key == key || HasKey(buckets, rest[i].key)) {
        if rest[i].key != key {
          var j :| 0 <= j < |buckets[1..]| && buckets[1..][j].key == rest[i].key;
          assert buckets[j + 1].key == rest[i].key;
        }
      }
      assert forall i :: 0 < i < |grown| ==> grown[i] == rest[i - 1];
    } else if buckets != [] {
      assert forall i :: 0 <= i < |grown| ==> grown[i].key == buckets[i].key;
    }
  }

  lemma {:induction false} BucketedKeys(b: Bundle, units: seq<Unit>)
    ensures WellBucketed(b, Bucketed(b, units))
    ensures multiset(AllUnits(Bucketed(b, units))) == multiset(units)
    ensures !b.requireDifferentPhoneModels ==> forall x :: x in Bucketed(b, units) ==> x.key == "__all__"
  {
    if units != [] {
      var n := |units| - 1;
      BucketedKeys(b, units[..n]);
      AddUnitKeys(Bucketed(b, units[..n]), KeyOf(b, units[n]), units[n]);
      AddUnitAdds(Bucketed(b, units[..n]), KeyOf(b, units[n]), units[n]);
      assert units == units[..n] + [units[n]];
    }
  }

  function Buckets(b: Bundle, units: seq<Unit>): (buckets: seq<Bucket>)
    ensures WellBucketed(b, buckets)
  {
    BucketedKeys(b, units);
    SortEach(Bucketed(b, units))
  }

  /** All groups `b` forms from these units. */
  function Groups(b: Bundle, units: seq<Unit>): seq<seq<Unit>>
    requires SizeOf(b) >= 2
  {
    FormGroups(b, SizeOf(b), Buckets(b, units), false)
  }

  predicate Skipped(b: Bundle, couponIsApplied: bool) {
    (couponIsApplied && !b.allowCouponStacking) || SizeOf(b) < 2
  }

  function BundleGroups(lines: seq<Line>, rem: Remaining, b: Bundle, couponIsApplied: bool): seq<seq<Unit>> {
    if Skipped(b, couponIsApplied) then [] else Groups(b, UnitsLeft(Eligible(lines, b), rem, b))
  }

  function Prices(units: seq<Unit>): (prices: seq<int>)
    ensures |prices| == |units|
    ensures forall i :: 0 <= i < |units| ==> prices[i] == units[i].price
  {
    seq(|units|, i requires 0 <= i < |units| => units[i].price)
  }

  function Allocated(units: seq<Unit>, discount: int): (allocations: seq<UnitAllocation>)
    ensures |allocations| == |units|
  {
    var shares := Allocate(Prices(units), discount);
    seq(|units|, i requires 0 <= i < |units| => UnitAllocation(units[i].lineIndex, shares[i]))
  }

  function MakeInstance(b: Bundle, units: seq<Unit>): Instance {
    Instance(b.id, EffectiveTotal(b, units), Subtotal(units), Discount(b, units),
             Allocated(units, Discount(b, units)))
  }

  function MakeInstances(b: Bundle, groups: seq<seq<Unit>>): seq<Instance> {
    if groups == [] then [] else [MakeInstance(b, groups[0])] + MakeInstances(b, groups[1..])
  }

  function InstancesFrom(lines: seq<Line>, bundles: seq<Bundle>, rem: Remaining, couponIsApplied: bool): seq<Instance> {
    if bundles == [] then []
    else
      var groups := BundleGroups(lines, rem, bundles[0], couponIsApplied);
      MakeInstances(bundles[0], groups)
      + InstancesFrom(lines, bundles[1..], Claim(rem, Flatten(groups)), couponIsApplied)
  }

  /** Every bundle instance of a cart. */
  function Instances(lines: seq<Line>, bundles: seq<Bundle>, couponIsApplied: bool): seq<Instance> {
    InstancesFrom(lines, bundles, Quantities(lines), couponIsApplied)
  }

  // ---------------------------------------------------------------- the computation

  lemma {:induction false} ClaimConcat(rem: Remaining, a: seq<Unit>, more: seq<Unit>)
    ensures Claim(rem, a + more) == Claim(Claim(rem, a), more)
    decreases |a|
  {
    if a == [] {
      assert a + more == more;
    } else {
      assert (a + more)[1..] == a[1..] + more;
      ClaimConcat(rem[a[0].lineIndex := Left(rem, a[0].lineIndex) - 1], a[1..], more);
    }
  }

  lemma {:induction false} MakeInstancesConcat(b: Bundle, x: seq<seq<Unit>>, y: seq<seq<Unit>>)
    ensures MakeInstances(b, x + y) == MakeInstances(b, x) + MakeInstances(b, y)
  {
    if x == [] {
      assert x + y == y;
    } else {
      assert (x + y)[1..] == x[1..] + y;
      MakeInstancesConcat(b, x[1..], y);
    }
  }

  lemma {:induction false} UnitsLeftConcat(x: seq<Line>, y: seq<Line>, rem: Remaining, b: Bundle)
    ensures UnitsLeft(x + y, rem, b) == UnitsLeft(x, rem, b) + UnitsLeft(y, rem, b)
  {
    if x == [] {
      assert x + y == y;
    } else {
      assert (x + y)[1..] == x[1..] + y;
      UnitsLeftConcat(x[1..], y, rem, b);
    }
  }

  method CollectUnits(eligible: seq<Line>, remaining: Remaining, b: Bundle) returns (units: seq<Unit>)
    ensures units == UnitsLeft(eligible, remaining, b)
  {
    units := [];
    for i := 0 to |eligible|
      invariant units == UnitsLeft(eligible[..i], remaining, b)
    {
      var line := eligible[i];
      var left := Left(remaining, line.lineIndex);
      ghost var before := units;
      var j := 0;
      while j < left
        invariant 0 <= j && (j <= left || (left < 0 && j == 0))
        invariant units == before + Copies(UnitFor(line, b), j)
      {
        units := units + [UnitFor(line, b)];
        j := j + 1;
      }
      assert left < 0 ==> j == 0;
      assert Copies(UnitFor(line, b), j) == Copies(UnitFor(line, b), left);
      assert eligible[..i + 1] == eligible[..i] + [line];
      UnitsLeftConcat(eligible[..i], [line], remaining, b);
      assert UnitsLeft([line], remaining, b) == Copies(UnitFor(line, b), left);
    }
    assert eligible[..|eligible|] == eligible;
  }

  method SplitIntoBuckets(b: Bundle, units: seq<Unit>) returns (buckets: seq<Bucket>)
    ensures buckets == Bucketed(b, units)
  {
    buckets := [];
    for i := 0 to |units|
      invariant buckets == Bucketed(b, units[..i])
    {
      assert units[..i + 1][..i] == units[..i];
      buckets := AddUnit(buckets, KeyOf(b, units[i]), units[i]);
    }
    assert units[..|units|] == units;
  }

  method TakePicked(buckets: seq<Bucket>, picks: seq<Pick>) returns (rest: seq<Bucket>)
    ensures rest == DropPicks(buckets, picks)
  {
    rest := buckets;
    assert picks[0..] == picks;
    for i := 0 to |picks|
      invariant DropPicks(rest, picks[i..]) == DropPicks(buckets, picks)
    {
      assert picks[i..][1..] == picks[i + 1..];
      rest := DropFront(rest, picks[i].key, 1);
    }
  }

  method ClaimUnits(before: Remaining, units: seq<Unit>) returns (remaining: Remaining)
    ensures remaining == Claim(before, units)
  {
    remaining := before;
    assert units[0..] == units;
    for i := 0 to |units|
      invariant Claim(remaining, units[i..]) == Claim(before, units)
    {
      assert units[i..][1..] == units[i + 1..];
      remaining := remaining[units[i].lineIndex := Left(remaining, units[i].lineIndex) - 1];
    }
  }

  method TakeGroup(b: Bundle, size: nat, buckets: seq<Bucket>, picks: seq<Pick>) returns (rest: seq<Bucket>)
    requires picks != []
    ensures rest == AfterRound(b, size, buckets, picks)
  {
    if b.requireDifferentPhoneModels {
      rest := TakePicked(buckets, picks);
    } else {
      rest := DropFront(buckets, picks[0].key, size);
    }
  }

  method PriceGroup(b: Bundle, units: seq<Unit>) returns (instance: Instance)
    ensures instance == MakeInstance(b, units)
  {
    var discount := Discount(b, units);
    var shares := AllocateDiscount(Prices(units), discount);
    var allocations := seq(|units|, i requires 0 <= i < |units| => UnitAllocation(units[i].lineIndex, shares[i]));
    assert allocations == Allocated(units, discount);
    instance := Instance(b.id, EffectiveTotal(b, units), Subtotal(units), discount, allocations);
  }

  lemma {:induction false} NextGroupShrinks(b: Bundle, size: nat, buckets: seq<Bucket>, formedAny: bool)
    requires WellBucketed(b, buckets) && size > 0
    requires NextGroup(b, size, buckets, formedAny).Some?
    ensures var picks := NextGroup(b, size, buckets, formedAny).value;
            && picks != []
            && |picks| == size
            && WellBucketed(b, AfterRound(b, size, buckets, picks))
            && |AllUnits(AfterRound(b, size, buckets, picks))| == |AllUnits(buckets)| - size
            && multiset(AllUnits(buckets))
               == multiset(PickedUnits(picks)) + multiset(AllUnits(AfterRound(b, size, buckets, picks)))
  {
    RoundSplits(b, size, buckets);
  }

  lemma {:induction false} AppendAssoc<T>(a: seq<T>, x: T, rest: seq<T>)
    ensures a + ([x] + rest) == (a + [x]) + rest
  {
  }

  lemma {:induction false} GroupsUnfold(b: Bundle, size: nat, buckets: seq<Bucket>, formedAny: bool, formed: seq<seq<Unit>>)
    requires WellBucketed(b, buckets) && size > 0
    requires NextGroup(b, size, buckets, formedAny).Some?
    ensures var picks := NextGroup(b, size, buckets, formedAny).value;
            && picks != []
            && WellBucketed(b, AfterRound(b, size, buckets, picks))
            && formed + FormGroups(b, size, buckets, formedAny)
               == (formed + [PickedUnits(picks)]) + FormGroups(b, size, AfterRound(b, size, buckets, picks), true)
  {
    NextGroupShrinks(b, size, buckets, formedAny);
    var picks := NextGroup(b, size, buckets, formedAny).value;
    AppendAssoc(formed, PickedUnits(picks), FormGroups(b, size, AfterRound(b, size, buckets, picks), true));
  }

  lemma {:induction false} OneMoreGroup(b: Bundle, formed: seq<seq<Unit>>, group: seq<Unit>, before: Remaining)
    ensures MakeInstances(b, formed + [group]) == MakeInstances(b, formed) + [MakeInstance(b, group)]
    ensures Claim(before, Flatten(formed + [group])) == Claim(Claim(before, Flatten(formed)), group)
  {
    MakeInstancesConcat(b, formed, [group]);
    assert MakeInstances(b, [group]) == [MakeInstance(b, group)];
    FlattenConcat(formed, [group]);
    assert Flatten([group]) == group;
    ClaimConcat(before, Flatten(formed), group);
  }

  /** The grouping loop for one bundle. */
  method FormInstances(b: Bundle, size: nat, start: seq<Bucket>, before: Remaining)
    returns (results: seq<Instance>, remaining: Remaining)
    requires WellBucketed(b, start) && size > 0
    ensures results == MakeInstances(b, FormGroups(b, size, start, false))
    ensures remaining == Claim(before, Flatten(FormGroups(b, size, start, false)))
  {
    results, remaining := [], before;
    var buckets := start;
    var formedAny := false;
    ghost var formed: seq<seq<Unit>> := [];
    while true
      invariant WellBucketed(b, buckets)
      invariant results == MakeInstances(b, formed)
      invariant remaining == Claim(before, Flatten(formed))
      invariant formed + FormGroups(b, size, buckets, formedAny) == FormGroups(b, size, start, false)
      decreases |AllUnits(buckets)|
    {
      var next := NextGroup(b, size, buckets, formedAny);
      if next.None? {
        assert FormGroups(b, size, buckets, formedAny) == [];
        break;
      }
      NextGroupShrinks(b, size, buckets, formedAny);
      GroupsUnfold(b, size, buckets, formedAny, formed);
      var units := PickedUnits(next.value);
      OneMoreGroup(b, formed, units, before);
      buckets := TakeGroup(b, size, buckets, next.value);
      remaining := ClaimUnits(remaining, units);
      var instance := PriceGroup(b, units);
      results := results + [instance];
      formed := formed + [units];
      formedAny := true;
    }
    assert formed == FormGroups(b, size, start, false);
  }

  lemma {:induction false} NoUnitsNoGroups(b: Bundle)
    requires SizeOf(b) >= 2
    ensures Groups(b, []) == []
  {
  }

  /** One bundle against the units earlier bundles left. */
  method ApplyBundle(lines: seq<Line>, b: Bundle, before: Remaining, couponIsApplied: bool)
    returns (results: seq<Instance>, remaining: Remaining)
    ensures results == MakeInstances(b, BundleGroups(lines, before, b, couponIsApplied))
    ensures remaining == Claim(before, Flatten(BundleGroups(lines, before, b, couponIsApplied)))
  {
    if couponIsApplied && !b.allowCouponStacking {
      return [], before;
    }
    var size := SizeOf(b);
    if size < 2 {
      return [], before;
    }
    var eligible := Eligible(lines, b);
    if eligible == [] {
      NoUnitsNoGroups(b);
      return [], before;
    }
    var units := CollectUnits(eligible, before, b);
    var unsorted := SplitIntoBuckets(b, units);
    BucketedKeys(b, units);
    results, remaining := FormInstances(b, size, SortEach(unsorted), before);
  }

  lemma {:induction false} InstancesUnfold(lines: seq<Line>, bundles: seq<Bundle>, k: nat, rem: Remaining,
                                           couponIsApplied: bool, done: seq<Instance>)
    requires k < |bundles|
    ensures var groups := BundleGroups(lines, rem, bundles[k], couponIsApplied);
            done + InstancesFrom(lines, bundles[k..], rem, couponIsApplied)
            == (done + MakeInstances(bundles[k], groups))
               + InstancesFrom(lines, bundles[k + 1..], Claim(rem, Flatten(groups)), couponIsApplied)
  {
    var groups := BundleGroups(lines, rem, bundles[k], couponIsApplied);
    var suffix := bundles[k..];
    assert suffix[0] == bundles[k] && suffix[1..] == bundles[k + 1..];
    ConcatAssociates(done, MakeInstances(bundles[k], groups),
                     InstancesFrom(lines, suffix[1..], Claim(rem, Flatten(groups)), couponIsApplied));
  }

  lemma {:induction false} ConcatAssociates<T>(x: seq<T>, y: seq<T>, z: seq<T>)
    ensures x + (y + z) == (x + y) + z
  {
  }

  /** The entry point shared by the cart view, the checkout quote and order creation. */
  method ComputeBundleInstances(lines: seq<Line>, bundles: seq<Bundle>, couponIsApplied: bool)
    returns (results: seq<Instance>)
    ensures results == Instances(lines, bundles, couponIsApplied)
  {
    results := [];
    var remaining := Quantities(lines);
    assert bundles[0..] == bundles;
    for k := 0 to |bundles|
      invariant results + InstancesFrom(lines, bundles[k..], remaining, couponIsApplied)
             == Instances(lines, bundles, couponIsApplied)
    {
      InstancesUnfold(lines, bundles, k, remaining, couponIsApplied, results);
      var formed;
      formed, remaining := ApplyBundle(lines, bundles[k], remaining, couponIsApplied);
      results := results + formed;
    }
  }
}
