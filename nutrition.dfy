/** The eleven-field nutrient record shared by logged meals, daily goals and
    chart rows, with exact real arithmetic in place of JavaScript numbers. */
module Nutrition {

  /** The field names, in the order the source declares them. */
  datatype Nutrient =
    Calories | Protein | Carbs | Fats | Fiber | Sodium | Sugar | Potassium | VitaminC | Calcium | Iron

  datatype Nutrients = Nutrients(
    calories: real, protein: real, carbs: real, fats: real, fiber: real,
    sodium: real, sugar: real, potassium: real, vitaminC: real, calcium: real, iron: real)

  /** `n[key]`: the field named by `k`. */
  function Get(n: Nutrients, k: Nutrient): real {
    match k
    case Calories => n.calories
    case Protein => n.protein
    case Carbs => n.carbs
    case Fats => n.fats
    case Fiber => n.fiber
    case Sodium => n.sodium
    case Sugar => n.sugar
    case Potassium => n.potassium
    case VitaminC => n.vitaminC
    case Calcium => n.calcium
    case Iron => n.iron
  }

  /** The record whose every field is `f(k)`. */
  function Build(f: Nutrient -> real): (r: Nutrients)
    ensures forall k :: Get(r, k) == f(k)
  {
    Nutrients(f(Calories), f(Protein), f(Carbs), f(Fats), f(Fiber), f(Sodium),
              f(Sugar), f(Potassium), f(VitaminC), f(Calcium), f(Iron))
  }

  /** Two records are equal when every field is. */
  lemma Extensionality(a: Nutrients, b: Nutrients)
    requires forall k :: Get(a, k) == Get(b, k)
    ensures a == b
  {
    assert Get(a, Calories) == Get(b, Calories) && Get(a, Protein) == Get(b, Protein);
    assert Get(a, Carbs) == Get(b, Carbs) && Get(a, Fats) == Get(b, Fats);
    assert Get(a, Fiber) == Get(b, Fiber) && Get(a, Sodium) == Get(b, Sodium);
    assert Get(a, Sugar) == Get(b, Sugar) && Get(a, Potassium) == Get(b, Potassium);
    assert Get(a, VitaminC) == Get(b, VitaminC) && Get(a, Calcium) == Get(b, Calcium);
    assert Get(a, Iron) == Get(b, Iron);
  }

  /** The all-zero accumulator `{ calories: 0, protein: 0, ... }`. */
  const Zero: Nutrients := Nutrients(0.0, 0.0, 0.0, 0.0, 0.0, 0.0, 0.0, 0.0, 0.0, 0.0, 0.0)

  /** One step of the reduce: `acc.calories += meal.calories; ...` for all eleven fields. */
  function Add(acc: Nutrients, n: Nutrients): (r: Nutrients)
    ensures forall k :: Get(r, k) == Get(acc, k) + Get(n, k)
  {
    Nutrients(acc.calories + n.calories, acc.protein + n.protein, acc.carbs + n.carbs,
              acc.fats + n.fats, acc.fiber + n.fiber, acc.sodium + n.sodium,
              acc.sugar + n.sugar, acc.potassium + n.potassium, acc.vitaminC + n.vitaminC,
              acc.calcium + n.calcium, acc.iron + n.iron)
  }

  /** Sum of one field over a list: the independent reference for `Total`. */
  function FieldSum(s: seq<Nutrients>, k: Nutrient): real {
    if s == [] then 0.0 else Get(s[0], k) + FieldSum(s[1..], k)
  }

  lemma {:induction false} FieldSumAppend(s: seq<Nutrients>, n: Nutrients, k: Nutrient)
    ensures FieldSum(s + [n], k) == FieldSum(s, k) + Get(n, k)
  {
    if s != [] {
      assert (s + [n])[1..] == s[1..] + [n];
      FieldSumAppend(s[1..], n, k);
    }
  }

  /** The reduce of a list of records from `Zero`, in list order: every
      field of the result is the sum of that field over the list. */
  function Total(s: seq<Nutrients>): (r: Nutrients)
    ensures forall k :: Get(r, k) == FieldSum(s, k)
  {
    if s == [] then Zero
    else
      var init, last := s[..|s| - 1], s[|s| - 1];
      assert init + [last] == s;
      assert forall k :: FieldSum(s, k) == FieldSum(init, k) + Get(last, k) by {
        forall k ensures FieldSum(s, k) == FieldSum(init, k) + Get(last, k) {
          FieldSumAppend(init, last, k);
        }
      }
      Add(Total(init), last)
  }

  /** Totals of non-negative records are non-negative. */
  lemma {:induction false} FieldSumNonNegative(s: seq<Nutrients>, k: Nutrient)
    requires forall i :: 0 <= i < |s| ==> Get(s[i], k) >= 0.0
    ensures FieldSum(s, k) >= 0.0
  {
    if s != [] {
      FieldSumNonNegative(s[1..], k);
    }
  }

  /** Every field divided by `d` (`totals.calories / divisor`, ...). */
  function Divide(n: Nutrients, d: real): (r: Nutrients)
    requires d != 0.0
    ensures forall k :: Get(r, k) * d == Get(n, k)
  {
    Nutrients(n.calories / d, n.protein / d, n.carbs / d, n.fats / d, n.fiber / d,
              n.sodium / d, n.sugar / d, n.potassium / d, n.vitaminC / d,
              n.calcium / d, n.iron / d)
  }

  /** JavaScript's `Math.round`: the nearest integer, halves rounded up. */
  function JsRound(x: real): (r: int)
    ensures x - 0.5 < r as real <= x + 0.5
  {
    (x + 0.5).Floor
  }

  /** `Math.round(x * 10) / 10`: the nearest multiple of a tenth, halves rounded up. */
  function RoundTenth(x: real): (r: real)
    ensures x - 0.05 < r <= x + 0.05
    ensures (r * 10.0).Floor as real == r * 10.0
  {
    JsRound(x * 10.0) as real / 10.0
  }

  /** The rounding of a chart row: whole units for every field, tenths for iron. */
  function RoundForChart(n: Nutrients): (r: Nutrients)
    ensures forall k :: k != Iron ==>
      Get(n, k) - 0.5 < Get(r, k) <= Get(n, k) + 0.5 && Get(r, k).Floor as real == Get(r, k)
    ensures Get(n, Iron) - 0.05 < Get(r, Iron) <= Get(n, Iron) + 0.05
    ensures (Get(r, Iron) * 10.0).Floor as real == Get(r, Iron) * 10.0
  {
    Nutrients(JsRound(n.calories) as real, JsRound(n.protein) as real, JsRound(n.carbs) as real,
              JsRound(n.fats) as real, JsRound(n.fiber) as real, JsRound(n.sodium) as real,
              JsRound(n.sugar) as real, JsRound(n.potassium) as real,
              JsRound(n.vitaminC) as real, JsRound(n.calcium) as real, RoundTenth(n.iron))
  }

  /** An exact quotient rounds to itself. */
  lemma JsRoundOfExactQuotient(sum: real, d: real, m: int)
    requires d != 0.0 && sum == m as real * d
    ensures JsRound(sum / d) == m
  {
    assert sum / d == m as real;
    JsRoundUnique(m as real, m);
  }

  /** A row of zeros stays zero when averaged and rounded. */
  lemma RoundedAverageOfZero(d: real)
    requires d != 0.0
    ensures RoundForChart(Divide(Zero, d)) == Zero
  {
    assert Divide(Zero, d) == Zero;
    assert JsRound(0.0) == 0;
  }

  /** Rounding is determined: any integer within half a unit (halves up) is the rounded value. */
  lemma JsRoundUnique(x: real, m: int)
    requires x - 0.5 < m as real <= x + 0.5
    ensures JsRound(x) == m
  {
  }
}
