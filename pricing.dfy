/** The order's money arithmetic: subtotal, the weight-based delivery charge and the order number. */
module Pricing {
  import opened Text
  import opened Inventory

  /** Σ priceAtOrder × quantity, accumulated in item order as the route's `subtotal +=` does. */
  function LinesTotal(lines: seq<OrderLineItem>): (total: int)
    ensures (forall i :: 0 <= i < |lines| ==> lines[i].priceAtOrder >= 0 && lines[i].quantity >= 0) ==> total >= 0
    decreases |lines|
  {
    if lines == [] then 0
    else LinesTotal(lines[..|lines| - 1]) + lines[|lines| - 1].priceAtOrder * lines[|lines| - 1].quantity
  }

  /** Adding one line to an order adds exactly its own price × quantity to the total. */
  lemma LinesTotalAppend(lines: seq<OrderLineItem>, line: OrderLineItem)
    ensures LinesTotal(lines + [line]) == LinesTotal(lines) + line.priceAtOrder * line.quantity
  {
    assert (lines + [line])[..|lines|] == lines;
  }

  /** `items.reduce((sum, item) => sum + item.weightInGrams * item.quantity, 0)`. */
  function TotalWeight(lines: seq<OrderLineItem>): (grams: int)
    ensures (forall i :: 0 <= i < |lines| ==> lines[i].weightInGrams >= 0 && lines[i].quantity >= 0) ==> grams >= 0
    decreases |lines|
  {
    if lines == [] then 0
    else TotalWeight(lines[..|lines| - 1]) + lines[|lines| - 1].weightInGrams * lines[|lines| - 1].quantity
  }

  /** A shipment whose lines all have positive weight and quantity weighs something, and nothing negative. */
  lemma {:induction false} TotalWeightPositive(lines: seq<OrderLineItem>)
    requires forall i :: 0 <= i < |lines| ==> lines[i].weightInGrams > 0 && lines[i].quantity > 0
    ensures lines != [] ==> TotalWeight(lines) > 0
    ensures TotalWeight(lines) >= 0
    decreases |lines|
  {
    if lines != [] {
      var last := lines[|lines| - 1];
      TotalWeightPositive(lines[..|lines| - 1]);
      assert last.weightInGrams * last.quantity > 0 by {
        assert last.weightInGrams >= 1 && last.quantity >= 1;
      }
    }
  }

  /** `Math.ceil(grams / 1000)`: the least whole number of kilograms that holds `grams`. */
  function CeilKg(grams: int): (kg: int)
    ensures (kg - 1) * 1000 < grams <= kg * 1000
  {
    -((-grams) / 1000)
  }

  /** The ceiling is the only whole number of kilograms with that property. */
  lemma CeilKgIsLeast(grams: int, kg: int)
    requires (kg - 1) * 1000 < grams <= kg * 1000
    ensures kg == CeilKg(grams)
  {
  }

  /** Whether the delivery state is Gujarat, compared after lower-casing. */
  predicate IsGujarat(state: string)
    ensures IsGujarat(state) <==> |state| == 7 && forall i :: 0 <= i < 7 ==> LowerChar(state[i]) == "gujarat"[i]
  {
    ToLower(state) == "gujarat"
  }

  /** The per-kilogram delivery rate: 30 within Gujarat, 90 elsewhere. */
  function RatePerKg(state: string): (rate: int)
    ensures rate == 30 <==> IsGujarat(state)
    ensures rate == 90 <==> !IsGujarat(state)
  {
    if IsGujarat(state) then 30 else 90
  }

  /**
   * The delivery charge of an order's lines shipped to `state`. It is a whole
   * multiple of the rate: each started kilogram is billed in full.
   */
  function DeliveryCharge(state: string, lines: seq<OrderLineItem>): (charge: int)
    ensures charge % RatePerKg(state) == 0
    ensures (charge / RatePerKg(state) - 1) * 1000 < TotalWeight(lines) <= (charge / RatePerKg(state)) * 1000
  {
    var kg, rate := CeilKg(TotalWeight(lines)), RatePerKg(state);
    assert (kg * rate) / rate == kg && (kg * rate) % rate == 0 by {
      if rate == 30 {
        assert kg * rate == kg * 30;
      } else {
        assert kg * rate == kg * 90;
      }
    }
    kg * rate
  }

  /** The rate depends on the state's letters only, not on their case. */
  lemma RateIgnoresCase(state: string)
    ensures RatePerKg(ToUpper(state)) == RatePerKg(state)
    ensures RatePerKg(ToLower(state)) == RatePerKg(state)
  {
    LowerOfUpper(state);
    LowerIdempotent(state);
  }

  /** Heavier shipments never cost less, and Gujarat never pays more than elsewhere for the same weight. */
  lemma DeliveryChargeMonotone(state: string, other: string, grams: int, heavier: int)
    requires 0 <= grams <= heavier
    ensures CeilKg(grams) * RatePerKg(state) <= CeilKg(heavier) * RatePerKg(state)
    ensures IsGujarat(state) ==> CeilKg(grams) * RatePerKg(state) <= CeilKg(grams) * RatePerKg(other)
  {
    var k1, k2 := CeilKg(grams), CeilKg(heavier);
    assert 0 <= k1 <= k2;
    if IsGujarat(state) {
      assert k1 * 30 <= k2 * 30;
    } else {
      assert k1 * 90 <= k2 * 90;
    }
  }

  /** "Gujarat" in any of its usual spellings gets the Gujarat rate; another state does not. */
  lemma GujaratSpellings()
    ensures IsGujarat("Gujarat") && IsGujarat("GUJARAT") && IsGujarat("gujarat")
    ensures !IsGujarat("Maharashtra")
  {
    LowerTo("Gujarat", "gujarat");
    LowerTo("GUJARAT", "gujarat");
    LowerTo("gujarat", "gujarat");
    assert ToLower("Maharashtra")[0] == 'm';
  }

  /** A string whose characters lower-case one by one to `t` lower-cases to `t`. */
  lemma LowerTo(s: string, t: string)
    requires |s| == |t| && forall i :: 0 <= i < |s| ==> LowerChar(s[i]) == t[i]
    ensures ToLower(s) == t
  {
  }

  /** The worked case: 2500 g is billed as 3 kg, 90 at the Gujarat rate and 270 elsewhere. */
  lemma DeliveryChargeExamples(line: OrderLineItem)
    requires line.weightInGrams == 2500 && line.quantity == 1
    ensures DeliveryCharge("Gujarat", [line]) == 90
    ensures DeliveryCharge("Maharashtra", [line]) == 270
  {
    assert TotalWeight([line]) == 2500 by {
      assert [line][..0] == [];
    }
    assert CeilKg(2500) == 3;
    GujaratSpellings();
  }

  /** `generateOrderNumber`: "ORD", the last six characters of the millisecond timestamp, then the random suffix. */
  function OrderNumber(timestamp: string, suffix: string): (r: string)
    ensures |r| >= 3 && r[..3] == "ORD"
  {
    "ORD" + SliceLast(timestamp, 6) + suffix
  }

  /** For a timestamp of at least six digits the number splits back into its three parts. */
  lemma OrderNumberParts(timestamp: string, suffix: string)
    requires |timestamp| >= 6
    ensures var r := OrderNumber(timestamp, suffix);
      && |r| == 9 + |suffix|
      && r[3..9] == timestamp[|timestamp| - 6..]
      && r[9..] == suffix
  {
    var r := OrderNumber(timestamp, suffix);
    assert r == "ORD" + timestamp[|timestamp| - 6..] + suffix;
  }

  /** Two order numbers coincide exactly when both the timestamps' last six digits and the suffixes do. */
  lemma OrderNumberCollision(t1: string, s1: string, t2: string, s2: string)
    requires |t1| >= 6 && |t2| >= 6
    ensures OrderNumber(t1, s1) == OrderNumber(t2, s2) <==> t1[|t1| - 6..] == t2[|t2| - 6..] && s1 == s2
  {
    OrderNumberParts(t1, s1);
    OrderNumberParts(t2, s2);
    if t1[|t1| - 6..] == t2[|t2| - 6..] && s1 == s2 {
      assert OrderNumber(t1, s1) == "ORD" + t1[|t1| - 6..] + s1;
      assert OrderNumber(t2, s2) == "ORD" + t2[|t2| - 6..] + s2;
    }
  }
}
