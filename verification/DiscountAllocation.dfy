/** Proportional, exact allocation of a discount over line subtotals
    (src/modules/orders/order-pricing.util.ts). */
module DiscountAllocation {
  import opened Sums

  function Total(s: seq<int>): int { SumBy(s, Itself) }

  predicate NonNegative(s: seq<int>) { forall i :: 0 <= i < |s| ==> s[i] >= 0 }

  /** Each line's share rounded down, capped at the line itself. */
  function Floors(lines: seq<int>, capped: int, subtotal: int): (shares: seq<int>)
    requires subtotal > 0
    ensures |shares| == |lines|
  {
    if lines == [] then []
    else [Min(lines[0], lines[0] * capped / subtotal)] + Floors(lines[1..], capped, subtotal)
  }

  /** Hands out `remainder` units, topping every line up to its own subtotal before moving on. */
  function Fill(lines: seq<int>, shares: seq<int>, remainder: int): (filled: seq<int>)
    requires |lines| == |shares|
    ensures |filled| == |lines|
  {
    if lines == [] || remainder <= 0 then shares
    else
      var headroom := if shares[0] < lines[0] then lines[0] - shares[0] else 0;
      var given := Min(headroom, remainder);
      [shares[0] + given] + Fill(lines[1..], shares[1..], remainder - given)
  }

  function Zeros(n: nat): seq<int> { seq(n, _ => 0) }

  function Allocate(lines: seq<int>, totalDiscount: int): (allocations: seq<int>)
    ensures |allocations| == |lines|
  {
    if lines == [] then []
    else if totalDiscount <= 0 then Zeros(|lines|)
    else
      var subtotal := Total(lines);
      if subtotal <= 0 then Zeros(|lines|)
      else
        var capped := Min(totalDiscount, subtotal);
        var floors := Floors(lines, capped, subtotal);
        Fill(lines, floors, capped - Total(floors))
  }

  /** What every caller relies on: nothing negative, nothing above its own line, and exactly
      the capped discount in all. */
  ghost predicate ExactAllocation(lines: seq<int>, totalDiscount: int, allocations: seq<int>) {
    && |allocations| == |lines|
    && (forall i :: 0 <= i < |lines| ==> 0 <= allocations[i] <= lines[i])
    && Total(allocations) == if totalDiscount <= 0 then 0 else Min(totalDiscount, Total(lines))
  }

  lemma {:induction false} TotalNonNegative(s: seq<int>)
    requires NonNegative(s)
    ensures Total(s) >= 0
  {
    SumNonNegative(s, Itself);
  }

  lemma {:induction false} TotalHead(s: seq<int>)
    requires s != []
    ensures Total(s) == s[0] + Total(s[1..])
  {
  }

  lemma {:induction false} TotalMonotone(a: seq<int>, b: seq<int>)
    requires |a| == |b| && forall i :: 0 <= i < |a| ==> a[i] <= b[i]
    ensures Total(a) <= Total(b)
  {
    if a != [] {
      TotalHead(a);
      TotalHead(b);
      TotalMonotone(a[1..], b[1..]);
    }
  }

  lemma {:induction false} ZerosTotal(n: nat)
    ensures Total(Zeros(n)) == 0
  {
    SumZero(Zeros(n), Itself);
  }

  lemma {:induction false} FloorOfShare(line: int, capped: int, subtotal: int)
    requires 0 <= line && 0 <= capped <= subtotal && subtotal > 0
    ensures 0 <= line * capped / subtotal <= line
    ensures subtotal * (line * capped / subtotal) <= line * capped
    ensures subtotal * (line * capped / subtotal) >= line * capped - (subtotal - 1)
  {
    var product := line * capped;
    assert 0 <= product <= line * subtotal;
    var q := product / subtotal;
    assert product == q * subtotal + product % subtotal;
    Cancel(q, line, subtotal);
  }

  lemma {:induction false} ScaledStep(c: int, head: int, tail: int, all: int)
    requires all == head + tail
    ensures c * all == c * head + c * tail
  {
  }

  /** `share` is the line's proportional part rounded down. */
  ghost predicate RoundsDown(share: int, line: int, capped: int, subtotal: int) {
    && 0 <= share <= line
    && line * capped - (subtotal - 1) <= subtotal * share <= line * capped
  }

  ghost predicate AllRoundDown(shares: seq<int>, lines: seq<int>, capped: int, subtotal: int) {
    |shares| == |lines| && forall i :: 0 <= i < |lines| ==> RoundsDown(shares[i], lines[i], capped, subtotal)
  }

  lemma {:induction false} FloorsRoundDown(lines: seq<int>, capped: int, subtotal: int)
    requires NonNegative(lines)
    requires 0 <= capped <= subtotal && subtotal > 0
    ensures AllRoundDown(Floors(lines, capped, subtotal), lines, capped, subtotal)
  {
    if lines != [] {
      FloorOfShare(lines[0], capped, subtotal);
      FloorsRoundDown(lines[1..], capped, subtotal);
      var rest := Floors(lines[1..], capped, subtotal);
      var all := Floors(lines, capped, subtotal);
      forall i | 0 <= i < |lines| ensures RoundsDown(all[i], lines[i], capped, subtotal) {
        if i > 0 {
          assert all[i] == rest[i - 1] && lines[i] == lines[1..][i - 1];
        }
      }
    }
  }

  lemma {:induction false} AllRoundDownSplits(shares: seq<int>, lines: seq<int>, capped: int, subtotal: int)
    requires AllRoundDown(shares, lines, capped, subtotal) && lines != []
    ensures RoundsDown(shares[0], lines[0], capped, subtotal)
    ensures AllRoundDown(shares[1..], lines[1..], capped, subtotal)
  {
    assert forall i :: 0 <= i < |lines| - 1 ==> shares[1..][i] == shares[i + 1] && lines[1..][i] == lines[i + 1];
  }

  /** Together the rounded shares fall short of the exact proportion by less than one unit a line. */
  lemma {:induction false} RoundedSum(shares: seq<int>, lines: seq<int>, capped: int, subtotal: int)
    requires AllRoundDown(shares, lines, capped, subtotal)
    ensures capped * Total(lines) - |lines| * (subtotal - 1) <= subtotal * Total(shares) <= capped * Total(lines)
  {
    if lines != [] {
      AllRoundDownSplits(shares, lines, capped, subtotal);
      RoundedSum(shares[1..], lines[1..], capped, subtotal);
      ScaledStep(subtotal, shares[0], Total(shares[1..]), Total(shares));
      ScaledStep(capped, lines[0], Total(lines[1..]), Total(lines));
      ScaledStep(subtotal - 1, 1, |lines[1..]|, |lines|);
    }
  }

  lemma {:induction false} Cancel(a: int, b: int, c: int)
    requires c > 0
    ensures c * a <= c * b ==> a <= b
    ensures c * a < c * b ==> a < b
  {
    if a > b {
      assert c * a >= c * (b + 1);
      assert c * (b + 1) == c * b + c;
    }
    if a == b {
      assert c * a == c * b;
    }
  }

  /** The flooring remainder is never negative and always smaller than the number of lines. */
  lemma {:induction false} RemainderBelowLineCount(lines: seq<int>, capped: int)
    requires NonNegative(lines) && lines != []
    requires 0 <= capped <= Total(lines) && Total(lines) > 0
    ensures 0 <= capped - Total(Floors(lines, capped, Total(lines))) < |lines|
  {
    var subtotal := Total(lines);
    var floored := Total(Floors(lines, capped, subtotal));
    FloorsRoundDown(lines, capped, subtotal);
    RoundedSum(Floors(lines, capped, subtotal), lines, capped, subtotal);
    Cancel(floored, capped, subtotal);
    assert capped * subtotal == subtotal * capped;
    assert subtotal * (capped - |lines|) == subtotal * capped - |lines| * subtotal;
    assert |lines| * (subtotal - 1) == |lines| * subtotal - |lines|;
    Cancel(capped - |lines|, floored, subtotal);
  }

  /** With enough headroom the fill hands out everything and never overfills a line. */
  lemma {:induction false} FillExact(lines: seq<int>, shares: seq<int>, remainder: int)
    requires |lines| == |shares|
    requires forall i :: 0 <= i < |lines| ==> 0 <= shares[i] <= lines[i]
    requires 0 <= remainder <= Total(lines) - Total(shares)
    ensures forall i :: 0 <= i < |lines| ==> shares[i] <= Fill(lines, shares, remainder)[i] <= lines[i]
    ensures Total(Fill(lines, shares, remainder)) == Total(shares) + remainder
  {
    if lines != [] && remainder > 0 {
      TotalHead(lines);
      TotalHead(shares);
      var given := Min(lines[0] - shares[0], remainder);
      TotalMonotone(shares[1..], lines[1..]);
      FillExact(lines[1..], shares[1..], remainder - given);
      var filled := Fill(lines, shares, remainder);
      assert filled[1..] == Fill(lines[1..], shares[1..], remainder - given);
      TotalHead(filled);
    } else if lines == [] {
      assert shares == [];
    }
  }

  /** The allocation is exact for every list of non-negative lines and every discount. */
  lemma {:induction false} AllocateIsExact(lines: seq<int>, totalDiscount: int)
    requires NonNegative(lines)
    ensures ExactAllocation(lines, totalDiscount, Allocate(lines, totalDiscount))
  {
    TotalNonNegative(lines);
    ZerosTotal(|lines|);
    if lines != [] && totalDiscount > 0 && Total(lines) > 0 {
      var subtotal := Total(lines);
      var capped := Min(totalDiscount, subtotal);
      FloorsRoundDown(lines, capped, subtotal);
      RemainderBelowLineCount(lines, capped);
      FillExact(lines, Floors(lines, capped, subtotal), capped - Total(Floors(lines, capped, subtotal)));
    }
  }

  /** What each line gets beyond its proportional share rounded down. */
  function Excesses(lines: seq<int>, capped: int, shares: seq<int>): (excesses: seq<int>)
    requires |shares| == |lines| && Total(lines) > 0
    ensures |excesses| == |lines|
    ensures forall i :: 0 <= i < |lines| ==> excesses[i] == shares[i] - lines[i] * capped / Total(lines)
  {
    seq(|lines|, i requires 0 <= i < |lines| => shares[i] - lines[i] * capped / Total(lines))
  }

  /** A proportional split: every line gets its share of the capped discount rounded down, and what the rounding
      leaves, fewer units than there are lines, goes to the first lines that have room for it. */
  ghost predicate Proportional(lines: seq<int>, totalDiscount: int, shares: seq<int>)
    requires Total(lines) > 0
  {
    && |shares| == |lines|
    && var capped := Min(totalDiscount, Total(lines));
       var excesses := Excesses(lines, capped, shares);
       && (forall i :: 0 <= i < |lines| ==> 0 <= excesses[i] < |lines|)
       && Total(excesses) < |lines|
       && (forall i, j :: 0 <= i < j < |lines| && excesses[j] > 0 ==> shares[i] == lines[i])
  }

  lemma {:induction false} FloorsAt(lines: seq<int>, capped: int, subtotal: int, i: nat)
    requires NonNegative(lines) && 0 <= capped <= subtotal && subtotal > 0 && i < |lines|
    ensures Floors(lines, capped, subtotal)[i] == lines[i] * capped / subtotal
  {
    FloorOfShare(lines[i], capped, subtotal);
    if i > 0 {
      assert lines[1..][i - 1] == lines[i];
      FloorsAt(lines[1..], capped, subtotal, i - 1);
    }
  }

  /** The fill goes from the front: a line gets something only when all before it are full. */
  lemma {:induction false} FillFromTheFront(lines: seq<int>, shares: seq<int>, remainder: int, i: nat, j: nat)
    requires |lines| == |shares| && i < j < |lines| && forall k :: 0 <= k < |lines| ==> shares[k] <= lines[k]
    requires Fill(lines, shares, remainder)[j] > shares[j]
    ensures Fill(lines, shares, remainder)[i] == lines[i]
  {
    if lines != [] && remainder > 0 {
      var headroom := if shares[0] < lines[0] then lines[0] - shares[0] else 0;
      var given := Min(headroom, remainder);
      var rest := Fill(lines[1..], shares[1..], remainder - given);
      assert Fill(lines, shares, remainder)[j] == rest[j - 1] && shares[1..][j - 1] == shares[j];
      if i > 0 {
        assert Fill(lines, shares, remainder)[i] == rest[i - 1] && lines[1..][i - 1] == lines[i];
        FillFromTheFront(lines[1..], shares[1..], remainder - given, i - 1, j - 1);
      } else {
        assert remainder - given > 0;
      }
    }
  }

  lemma {:induction false} PartsWithinTotal(s: seq<int>, i: nat)
    requires NonNegative(s) && i < |s|
    ensures s[i] <= Total(s)
  {
    TotalHead(s);
    TotalNonNegative(s[1..]);
    if i > 0 {
      assert s[1..][i - 1] == s[i];
      PartsWithinTotal(s[1..], i - 1);
    }
  }

  lemma {:induction false} DifferenceTotal(a: seq<int>, b: seq<int>, d: seq<int>)
    requires |a| == |b| == |d| && forall i :: 0 <= i < |a| ==> d[i] == a[i] - b[i]
    ensures Total(d) == Total(a) - Total(b)
  {
    if a != [] {
      TotalHead(a);
      TotalHead(b);
      TotalHead(d);
      DifferenceTotal(a[1..], b[1..], d[1..]);
    }
  }

  /** The allocation is the proportional split of the discount. */
  lemma {:induction false} AllocateIsProportional(lines: seq<int>, totalDiscount: int)
    requires NonNegative(lines) && totalDiscount > 0 && Total(lines) > 0
    ensures Proportional(lines, totalDiscount, Allocate(lines, totalDiscount))
  {
    var subtotal := Total(lines);
    var capped := Min(totalDiscount, subtotal);
    var floors, shares := Floors(lines, capped, subtotal), Allocate(lines, totalDiscount);
    var excesses, remainder := Excesses(lines, capped, shares), capped - Total(floors);
    FloorsRoundDown(lines, capped, subtotal);
    RemainderBelowLineCount(lines, capped);
    FillExact(lines, floors, remainder);
    forall i: nat | i < |lines| ensures floors[i] == lines[i] * capped / subtotal && excesses[i] == shares[i] - floors[i] {
      FloorsAt(lines, capped, subtotal, i);
    }
    DifferenceTotal(shares, floors, excesses);
    forall i: nat | i < |lines| ensures 0 <= excesses[i] < |lines| {
      PartsWithinTotal(excesses, i);
    }
    forall i: nat, j: nat | i < j < |lines| && excesses[j] > 0 ensures shares[i] == lines[i] {
      FillFromTheFront(lines, floors, remainder, i, j);
    }
  }

  /** The final allocation as seen from inside the loop: everything before `index` is done. */
  ghost function Outcome(lines: seq<int>, shares: seq<int>, index: nat, remainder: int): seq<int>
    requires |lines| == |shares| && index <= |lines|
  {
    shares[..index] + Fill(lines[index..], shares[index..], remainder)
  }

  lemma {:induction false} TopUpKeepsOutcome(lines: seq<int>, shares: seq<int>, index: nat, remainder: int)
    requires |lines| == |shares| && index < |lines| && remainder > 0 && shares[index] < lines[index]
    ensures Outcome(lines, shares, index, remainder)
         == Outcome(lines, shares[index := shares[index] + 1], index, remainder - 1)
  {
    var tail := shares[index..];
    var bumped := shares[index := shares[index] + 1];
    assert bumped[..index] == shares[..index];
    assert bumped[index..] == tail[0 := tail[0] + 1];
    assert tail[0 := tail[0] + 1][1..] == tail[1..];
    if remainder == 1 {
      assert Fill(lines[index..][1..], tail[1..], 0) == tail[1..];
      assert [tail[0] + 1] + tail[1..] == tail[0 := tail[0] + 1];
    }
  }

  lemma {:induction false} SkipKeepsOutcome(lines: seq<int>, shares: seq<int>, index: nat, remainder: int)
    requires |lines| == |shares| && index < |lines| && remainder > 0 && shares[index] >= lines[index]
    ensures Outcome(lines, shares, index, remainder) == Outcome(lines, shares, index + 1, remainder)
  {
    assert lines[index..][1..] == lines[index + 1..] && shares[index..][1..] == shares[index + 1..];
    var rest := Fill(lines[index + 1..], shares[index + 1..], remainder);
    assert Fill(lines[index..], shares[index..], remainder) == [shares[index]] + rest;
    assert shares[..index] + [shares[index]] == shares[..index + 1];
  }

  lemma {:induction false} OutcomeAtStart(lines: seq<int>, shares: seq<int>, remainder: int)
    requires |lines| == |shares|
    ensures Outcome(lines, shares, 0, remainder) == Fill(lines, shares, remainder)
  {
    assert lines[0..] == lines && shares[0..] == shares && shares[..0] == [];
  }

  lemma {:induction false} OutcomeAtEnd(lines: seq<int>, shares: seq<int>, index: nat, remainder: int)
    requires |lines| == |shares| && index <= |lines| && (remainder <= 0 || index == |lines|)
    ensures Outcome(lines, shares, index, remainder) == shares
  {
    assert Fill(lines[index..], shares[index..], remainder) == shares[index..];
    assert shares[..index] + shares[index..] == shares;
  }

  /** The source's loop: one unit at a time to the first line that still has headroom. */
  method HandOutRemainder(lineSubtotals: seq<int>, allocations: array<int>, leftOver: int)
    requires allocations.Length == |lineSubtotals|
    modifies allocations
    ensures allocations[..] == Fill(lineSubtotals, old(allocations[..]), leftOver)
  {
    var remainder := leftOver;
    var index := 0;
    ghost var shares := allocations[..];
    OutcomeAtStart(lineSubtotals, shares, leftOver);
    while remainder > 0 && index < allocations.Length
      invariant 0 <= index <= allocations.Length
      invariant shares == allocations[..]
      invariant Outcome(lineSubtotals, shares, index, remainder)
             == Fill(lineSubtotals, old(allocations[..]), leftOver)
      decreases allocations.Length - index, remainder
    {
      if allocations[index] < lineSubtotals[index] {
        TopUpKeepsOutcome(lineSubtotals, shares, index, remainder);
        allocations[index] := allocations[index] + 1;
        shares := shares[index := shares[index] + 1];
        remainder := remainder - 1;
      } else {
        SkipKeepsOutcome(lineSubtotals, shares, index, remainder);
        index := index + 1;
      }
    }
    OutcomeAtEnd(lineSubtotals, shares, index, remainder);
  }

  method AllocateDiscount(lineSubtotals: seq<int>, totalDiscount: int) returns (result: seq<int>)
    ensures result == Allocate(lineSubtotals, totalDiscount)
    ensures NonNegative(lineSubtotals) ==> ExactAllocation(lineSubtotals, totalDiscount, result)
    ensures NonNegative(lineSubtotals) && totalDiscount > 0 && Total(lineSubtotals) > 0 ==>
      Proportional(lineSubtotals, totalDiscount, result)
  {
    if lineSubtotals == [] {
      result := [];
    } else if totalDiscount <= 0 || Total(lineSubtotals) <= 0 {
      result := Zeros(|lineSubtotals|);
    } else {
      var subtotal := Total(lineSubtotals);
      var cappedTotal := Min(totalDiscount, subtotal);
      var floors := Floors(lineSubtotals, cappedTotal, subtotal);
      var allocations := new int[|floors|](i requires 0 <= i < |floors| => floors[i]);
      assert allocations[..] == floors;
      HandOutRemainder(lineSubtotals, allocations, cappedTotal - Total(floors));
      result := allocations[..];
    }
    if NonNegative(lineSubtotals) {
      AllocateIsExact(lineSubtotals, totalDiscount);
      if totalDiscount > 0 && Total(lineSubtotals) > 0 {
        AllocateIsProportional(lineSubtotals, totalDiscount);
      }
    }
  }
}
