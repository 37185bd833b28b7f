/** Money in minor units as 64-bit integers: pricing a basket, the flat tax, discounts and
    negotiated totals. */
module Money {
  import opened Measures
  import opened Wrappers

  predicate IsI64(x: int) { I64_MIN <= x <= I64_MAX }

  function Saturate(x: int): int {
    if x > I64_MAX then I64_MAX else if x < I64_MIN then I64_MIN else x
  }

  function SatAdd(a: int, b: int): int { Saturate(a + b) }
  function SatSub(a: int, b: int): int { Saturate(a - b) }
  function SatMul(a: int, b: int): int { Saturate(a * b) }

  /** Division rounding toward zero. */
  function TruncDiv(a: int, b: int): int
    requires b > 0
  {
    if a >= 0 then a / b else -(-a / b)
  }

  /** A cast to 64 bits keeps the low bits. */
  function Narrow(x: int): int {
    var low := x % 0x1_0000_0000_0000_0000;
    if low > I64_MAX then low - 0x1_0000_0000_0000_0000 else low
  }

  lemma NarrowFits(x: int)
    ensures Narrow(x) == x <==> IsI64(x)
  {
  }

  // ---- tax -----------------------------------------------------------------------

  /** 8.75 %, computed in 128 bits and cast back. */
  function FlatTax(subtotal: int): int { Narrow(TruncDiv(subtotal * 875, 10_000)) }

  /** The cast never truncates, and the tax stays between zero and the amount taxed. */
  lemma TaxIsExact(subtotal: int)
    requires IsI64(subtotal)
    ensures FlatTax(subtotal) == TruncDiv(subtotal * 875, 10_000)
    ensures subtotal >= 0 ==> FlatTax(subtotal) == subtotal * 875 / 10_000 && 0 <= FlatTax(subtotal) <= subtotal
  {
    var tax := TruncDiv(subtotal * 875, 10_000);
    if subtotal >= 0 {
      assert 0 <= tax <= subtotal;
    } else {
      assert subtotal <= tax <= 0;
    }
    NarrowFits(tax);
  }

  lemma TaxMonotone(a: int, b: int)
    requires 0 <= a <= b <= I64_MAX
    ensures FlatTax(a) <= FlatTax(b)
  {
    TaxIsExact(a);
    TaxIsExact(b);
  }

  // ---- pricing -------------------------------------------------------------------

  datatype Item = Item(sku: string, quantity: int, unitPriceHint: Option<int>)

  /** Amounts left out by the source's optional fields are `None`. */
  datatype Totals = Totals(subtotal: Option<int>, discount: Option<int>, tax: Option<int>, total: Option<int>)

  datatype Priced = Priced(lines: seq<int>, totals: Totals) | Refused(item: nat)

  function UnitPrice(i: Item): int { if i.unitPriceHint.Some? then i.unitPriceHint.value else 1_000 }

  predicate Billable(i: Item) { i.quantity > 0 && UnitPrice(i) >= 0 }

  predicate FitsI64(i: Item) { IsI64(i.quantity) && IsI64(UnitPrice(i)) }

  /** The sum over all integers, which 64 bits may not hold. */
  function ExactSubtotal(items: seq<Item>): int {
    if items == [] then 0
    else
      var last := items[|items| - 1];
      ExactSubtotal(items[..|items| - 1]) + UnitPrice(last) * last.quantity
  }

  function PricedTotals(items: seq<Item>): Totals {
    var subtotal := Min(I64_MAX, ExactSubtotal(items));
    Totals(Some(subtotal), None, Some(FlatTax(subtotal)), Some(Min(I64_MAX, subtotal + FlatTax(subtotal))))
  }

  function SumOf(lines: seq<int>): int {
    if lines == [] then 0 else SumOf(lines[..|lines| - 1]) + lines[|lines| - 1]
  }

  function LineTotal(i: Item): int { Min(I64_MAX, UnitPrice(i) * i.quantity) }

  /** Capping each line first and the sum last caps the exact sum. */
  lemma {:induction false} CappedSums(items: seq<Item>, lines: seq<int>)
    requires |lines| == |items| && forall i | 0 <= i < |items| :: Billable(items[i]) && lines[i] == LineTotal(items[i])
    ensures 0 <= SumOf(lines) <= ExactSubtotal(items)
    ensures Min(I64_MAX, SumOf(lines)) == Min(I64_MAX, ExactSubtotal(items))
  {
    if items != [] {
      var last := items[|items| - 1];
      CappedSums(items[..|items| - 1], lines[..|items| - 1]);
      LinePrice(UnitPrice(last), last.quantity);
    }
  }

  /** A priced basket adds up: the subtotal is the sum of its lines, the tax 8.75 % of that,
      and the total both together, each capped at 64 bits. */
  lemma PricedAddsUp(items: seq<Item>, lines: seq<int>)
    requires |lines| == |items| && forall i | 0 <= i < |items| :: Billable(items[i]) && lines[i] == LineTotal(items[i])
    ensures var t, subtotal := PricedTotals(items), Min(I64_MAX, SumOf(lines));
            0 <= subtotal && t == Totals(Some(subtotal), None, Some(subtotal * 875 / 10_000),
                                         Some(Min(I64_MAX, subtotal + subtotal * 875 / 10_000)))
  {
    CappedSums(items, lines);
    TaxIsExact(Min(I64_MAX, SumOf(lines)));
  }

  /** Saturating line by line comes to the exact subtotal, capped once. The first line that
      cannot be billed refuses the basket. */
  method PriceRequestItems(items: seq<Item>) returns (r: Priced)
    requires forall i <- items :: FitsI64(i)
    ensures r.Refused? <==> exists i :: 0 <= i < |items| && !Billable(items[i])
    ensures r.Refused? ==>
              r.item < |items| && !Billable(items[r.item]) && forall i | 0 <= i < r.item :: Billable(items[i])
    ensures r.Priced? ==>
              r.totals == PricedTotals(items)
              && |r.lines| == |items| && forall i | 0 <= i < |items| :: r.lines[i] == LineTotal(items[i])
    ensures r.Priced? ==>
              var t, subtotal := r.totals, Min(I64_MAX, SumOf(r.lines));
              0 <= subtotal && t == Totals(Some(subtotal), None, Some(subtotal * 875 / 10_000),
                                           Some(Min(I64_MAX, subtotal + subtotal * 875 / 10_000)))
  {
    var lines: seq<int>, subtotal := [], 0;
    for idx := 0 to |items|
      invariant |lines| == idx
      invariant forall i | 0 <= i < idx :: Billable(items[i]) && lines[i] == LineTotal(items[i])
      invariant ExactSubtotal(items[..idx]) >= 0
      invariant subtotal == Min(I64_MAX, ExactSubtotal(items[..idx]))
    {
      var req := items[idx];
      if req.quantity <= 0 { return Refused(idx); }
      var unit := UnitPrice(req);
      if unit < 0 { return Refused(idx); }
      LinePrice(unit, req.quantity);
      var line := SatMul(unit, req.quantity);
      subtotal := SatAdd(subtotal, line);
      assert items[..idx + 1][..idx] == items[..idx];
      lines := lines + [line];
    }
    assert items[..|items|] == items;
    PricedAddsUp(items, lines);
    TaxIsExact(subtotal);
    var tax := FlatTax(subtotal);
    r := Priced(lines, Totals(Some(subtotal), None, Some(tax), Some(SatAdd(subtotal, tax))));
  }

  /** What a line costs, and which lines can be billed at all. */
  lemma LineIs(i: Item)
    ensures Billable(i) <==> i.quantity > 0 && (i.unitPriceHint.Some? ==> i.unitPriceHint.value >= 0)
    ensures Billable(i) ==> 0 <= LineTotal(i) <= I64_MAX
    ensures Billable(i) && i.unitPriceHint == None ==> LineTotal(i) == Min(I64_MAX, 1_000 * i.quantity)
    ensures Billable(i) && i.unitPriceHint.Some? ==> LineTotal(i) == Min(I64_MAX, i.unitPriceHint.value * i.quantity)
  {
    if Billable(i) { LinePrice(UnitPrice(i), i.quantity); }
  }

  lemma LinePrice(unit: int, quantity: int)
    requires unit >= 0 && quantity > 0
    ensures unit * quantity >= 0
  {
  }

  // ---- discounts -----------------------------------------------------------------

  function Clamp(x: int, hi: int): int
    requires hi >= 0
  {
    if x < 0 then 0 else if x > hi then hi else x
  }

  function Taxed(amount: int): int { SatAdd(amount, FlatTax(amount)) }

  function DiscountedTotals(t: Totals, discount: int): Totals
    requires t.subtotal.Some? ==> t.subtotal.value >= 0
  {
    var subtotal := if t.subtotal.Some? then t.subtotal.value else 0;
    var d := Clamp(discount, subtotal);
    var tax := FlatTax(subtotal - d);
    t.(discount := Some(d), tax := Some(tax), total := Some(Taxed(subtotal - d)))
  }

  class TotalsCell {
    var totals: Totals

    constructor (totals: Totals)
      ensures this.totals == totals
    {
      this.totals := totals;
    }

    method ApplyDiscount(discount: int)
      requires totals.subtotal.Some? ==> 0 <= totals.subtotal.value <= I64_MAX
      modifies this
      ensures totals == DiscountedTotals(old(totals), discount)
      ensures var subtotal := if old(totals).subtotal.Some? then old(totals).subtotal.value else 0;
              var d := if discount < 0 then 0 else Min(discount, subtotal);
              var tax := (subtotal - d) * 875 / 10_000;
              totals == Totals(old(totals).subtotal, Some(d), Some(tax), Some(Min(I64_MAX, subtotal - d + tax)))
    {
      var subtotal := match totals.subtotal case Some(v) => v case None => 0;
      var d := Clamp(discount, subtotal);
      var discounted := subtotal - d;
      TaxIsExact(discounted);
      var tax := FlatTax(discounted);
      totals := totals.(discount := Some(d));
      totals := totals.(tax := Some(tax));
      totals := totals.(total := Some(SatAdd(discounted, tax)));
    }
  }

  lemma LessIsCheaper(a: int, b: int)
    requires 0 <= a <= b <= I64_MAX
    ensures 0 <= Taxed(a) <= Taxed(b)
    ensures 0 <= FlatTax(a) <= FlatTax(b)
  {
    TaxIsExact(a);
    TaxMonotone(a, b);
  }

  /** A larger discount never costs the buyer more, whatever its size or sign; the total
      stays between zero, which a discount of the subtotal reaches, and the undiscounted one. */
  lemma DiscountMonotone(t: Totals, d: int, e: int)
    requires t.subtotal.Some? && 0 <= t.subtotal.value <= I64_MAX && d <= e
    ensures var x, y := DiscountedTotals(t, d), DiscountedTotals(t, e);
            0 <= y.total.value <= x.total.value <= Taxed(t.subtotal.value)
            && y.tax.value <= x.tax.value && x.subtotal == y.subtotal == t.subtotal
            && (e >= t.subtotal.value ==> y.total.value == 0)
  {
    var s := t.subtotal.value;
    var x, y := s - Clamp(d, s), s - Clamp(e, s);
    LessIsCheaper(y, x);
    LessIsCheaper(x, s);
    if e >= s { FullDiscountIsFree(t, e); }
  }

  lemma FullDiscountIsFree(t: Totals, d: int)
    requires t.subtotal.Some? && 0 <= t.subtotal.value <= I64_MAX && d >= t.subtotal.value
    ensures DiscountedTotals(t, d).total == Some(0)
  {
    TaxIsExact(0);
  }

  // ---- negotiated totals ---------------------------------------------------------

  /** Keeping `bps` ten-thousandths of a total: widened, truncated, cast back. */
  function Negotiated(total: int, bps: nat): int { Narrow(TruncDiv(total * bps, 10_000)) }

  predicate IsFactor(bps: nat) { 1_000 <= bps <= 10_000 }

  lemma NegotiatedIsFloor(total: int, bps: nat)
    requires 0 <= total <= I64_MAX && IsFactor(bps)
    ensures 0 <= Negotiated(total, bps) <= total
    ensures Negotiated(total, bps) * 10_000 <= total * bps < (Negotiated(total, bps) + 1) * 10_000
  {
    Scaled(total, bps);
    var p := total * bps;
    assert p / 10_000 <= total;
    NarrowFits(p / 10_000);
  }

  lemma Scaled(total: int, bps: nat)
    requires total >= 0 && bps <= 10_000
    ensures 0 <= total * bps <= total * 10_000
  {
  }

  /** A series of percentage offers. */
  function NegotiatedAll(total: int, offers: seq<nat>): int {
    if offers == [] then total
    else Negotiated(NegotiatedAll(total, offers[..|offers| - 1]), offers[|offers| - 1])
  }

  /** The same series without any rounding. */
  function ExactProduct(total: int, offers: seq<nat>): real {
    if offers == [] then total as real
    else ExactProduct(total, offers[..|offers| - 1]) * offers[|offers| - 1] as real / 10_000.0
  }

  lemma ScaledError(e: real, f: real)
    requires 0.0 <= e && 0.0 <= f <= 10_000.0
    ensures 0.0 <= e * f <= e * 10_000.0
  {
    assert e * (10_000.0 - f) >= 0.0;
  }

  lemma RealProduct(a: int, bps: nat, x: real)
    ensures x * bps as real == (a * bps) as real + (x - a as real) * bps as real
  {
  }

  lemma RoundingStep(x: real, a: int, bps: nat, b: int, slack: real)
    requires 0.0 <= x - a as real <= slack && IsFactor(bps)
    requires b * 10_000 <= a * bps < (b + 1) * 10_000
    ensures 0.0 <= x * bps as real / 10_000.0 - b as real < slack + 1.0
  {
    var p, e := a * bps, x - a as real;
    RealProduct(a, bps, x);
    ScaledError(e, bps as real);
    assert (b * 10_000) as real <= p as real < ((b + 1) * 10_000) as real;
    Tenthousandth(x * bps as real, p as real, e * bps as real, b as real, slack);
  }

  lemma Tenthousandth(p: real, q: real, e: real, b: real, slack: real)
    requires p == q + e && 0.0 <= e <= slack * 10_000.0 && b * 10_000.0 <= q < (b + 1.0) * 10_000.0
    ensures 0.0 <= p / 10_000.0 - b < slack + 1.0
  {
  }

  lemma OneMoreOffer(x: real, a: int, f: nat, slack: real, y: real, b: int)
    requires 0 <= a <= I64_MAX && IsFactor(f) && 0.0 <= x - a as real <= slack
    requires b == Negotiated(a, f) && y == x * f as real / 10_000.0
    ensures 0 <= b <= a && 0.0 <= y - b as real < slack + 1.0
  {
    NegotiatedIsFloor(a, f);
    RoundingStep(x, a, f, b, slack);
  }

  /** Truncation is always in the buyer's favour, and `k` offers in a row lose less than
      `k` minor units against the exact product. */
  lemma {:induction false} RoundingLossBounded(total: int, offers: seq<nat>)
    requires 0 <= total <= I64_MAX && forall i | 0 <= i < |offers| :: IsFactor(offers[i])
    ensures 0 <= NegotiatedAll(total, offers) <= total
    ensures 0.0 <= ExactProduct(total, offers) - NegotiatedAll(total, offers) as real
    ensures var loss := ExactProduct(total, offers) - NegotiatedAll(total, offers) as real;
            if offers == [] then loss == 0.0 else loss < |offers| as real
  {
    if offers != [] {
      var before, f := offers[..|offers| - 1], offers[|offers| - 1];
      RoundingLossBounded(total, before);
      OneMoreOffer(ExactProduct(total, before), NegotiatedAll(total, before), f, |before| as real,
                   ExactProduct(total, offers), NegotiatedAll(total, offers));
    }
  }
}
