/** The two helpers of app/lib/utils.ts: the rating/count fallback and the
    min/max scan over one key of a list of records. */
module Utils {
  import opened Js

  /** A JavaScript value that is a number or a string, seen two ways:
      `text` is `String(value)` and `num` is `+value`. */
  datatype JsValue = JsValue(text: string, num: JsNum)

  /** `getValidRatingOrCount`: the value itself, unnormalised, when it reads
      as a non-zero number; otherwise "100" for a count and "4.5" for a
      rating. */
  function GetValidRatingOrCount(value: JsValue, isCount: bool): (r: string)
    ensures Truthy(value.num) ==> r == value.text
    ensures !Truthy(value.num) && isCount ==> r == "100"
    ensures !Truthy(value.num) && !isCount ==> r == "4.5"
  {
    if Truthy(value.num) then value.text else if isCount then "100" else "4.5"
  }

  /** The number `+getValidRatingOrCount(value, isCount)` stands for: `+value`
      when that is a non-zero number, else 100 or 4.5. Reading the returned
      string back gives `num` itself: `String(value)` of a string is the
      string, whose `+` is `num`, and of a number is its shortest decimal
      form, which reads back as the same number; "100" and "4.5" read as
      100 and 4.5. */
  function ValidRatingOrCountNumber(num: JsNum, isCount: bool): (r: real)
    ensures r != 0.0
    ensures Truthy(num) ==> r == num.value
  {
    NumOr(num, if isCount then 100.0 else 4.5)
  }

  /** What a record holds under a key. A string carries the result of
      `parseFloat` on it (`None` for NaN). */
  datatype FieldValue =
    | Missing
    | NumberValue(n: real)
    | NaNValue
    | StringValue(text: string, parsed: Option<real>)
    | OtherValue

  /** A record with arbitrary keys, such as a tariff. */
  type Item = map<string, FieldValue>

  /** `item[key]`, with an absent key read as `undefined`. */
  function FieldOf(item: Item, key: string): FieldValue
  {
    if key in item then item[key] else Missing
  }

  /** The number a field contributes to the scan: none for null/undefined,
      NaN, unparsable strings and values of other types. */
  function Numeric(v: FieldValue): Option<real>
  {
    match v
    case NumberValue(n) => Some(n)
    case StringValue(_, parsed) => parsed
    case _ => None
  }

  predicate IsValidAt(items: seq<Item>, key: string, x: real) {
    exists i :: 0 <= i < |items| && Numeric(FieldOf(items[i], key)) == Some(x)
  }

  datatype Extreme = Extreme(min: Option<real>, max: Option<real>)

  /** One step of the scan. */
  function Step(acc: Extreme, v: Option<real>): Extreme
  {
    match v
    case None => acc
    case Some(x) =>
      Extreme(
        if acc.min.None? || x < acc.min.value then Some(x) else acc.min,
        if acc.max.None? || x > acc.max.value then Some(x) else acc.max)
  }

  /** The result of scanning `items` from left to right. */
  function Extremes(items: seq<Item>, key: string): Extreme
  {
    if items == [] then Extreme(None, None)
    else Step(Extremes(items[..|items| - 1], key), Numeric(FieldOf(items[|items| - 1], key)))
  }

  /** `getExtremeValuesByKey`. */
  method GetExtremeValuesByKey(items: seq<Item>, key: string) returns (min: Option<real>, max: Option<real>)
    ensures Extreme(min, max) == Extremes(items, key)
  {
    min, max := None, None;
    for i := 0 to |items|
      invariant Extreme(min, max) == Extremes(items[..i], key)
    {
      assert items[..i + 1][..i] == items[..i];
      var value := FieldOf(items[i], key);
      if value.Missing? {
        continue;
      }
      var num: Option<real> := match value
        case NumberValue(n) => Some(n)
        case StringValue(_, parsed) => parsed
        case _ => None;
      if num.Some? {
        if min.None? || num.value < min.value {
          min := Some(num.value);
        }
        if max.None? || num.value > max.value {
          max := Some(num.value);
        }
      }
    }
    assert items[..|items|] == items;
  }

  /** min and max are both null exactly when no item has a valid value;
      otherwise min <= max, both are valid values of some item, and every
      valid value lies between them. */
  lemma {:induction false} ExtremesSpec(items: seq<Item>, key: string)
    ensures Extremes(items, key).min.None? <==> (forall x :: !IsValidAt(items, key, x))
    ensures Extremes(items, key).max.None? <==> Extremes(items, key).min.None?
    ensures Extremes(items, key).min.Some? ==>
      && IsValidAt(items, key, Extremes(items, key).min.value)
      && IsValidAt(items, key, Extremes(items, key).max.value)
      && Extremes(items, key).min.value <= Extremes(items, key).max.value
    ensures forall x :: IsValidAt(items, key, x) ==>
      Extremes(items, key).min.Some? && Extremes(items, key).min.value <= x <= Extremes(items, key).max.value
  {
    if items != [] {
      var init := items[..|items| - 1];
      var last := items[|items| - 1];
      ExtremesSpec(init, key);
      forall x | IsValidAt(init, key, x) ensures IsValidAt(items, key, x) {
        var i :| 0 <= i < |init| && Numeric(FieldOf(init[i], key)) == Some(x);
        assert items[i] == init[i];
      }
      assert Numeric(FieldOf(last, key)).Some? ==> IsValidAt(items, key, Numeric(FieldOf(last, key)).value);
      forall x | IsValidAt(items, key, x)
        ensures IsValidAt(init, key, x) || Numeric(FieldOf(last, key)) == Some(x)
      {
        var i :| 0 <= i < |items| && Numeric(FieldOf(items[i], key)) == Some(x);
        if i < |items| - 1 {
          assert init[i] == items[i];
        }
      }
    }
  }

  /** A valid value of one arrangement of the items is a valid value of any
      other arrangement. */
  lemma ValidAtPermuted(items: seq<Item>, others: seq<Item>, key: string, x: real)
    requires multiset(items) == multiset(others)
    requires IsValidAt(items, key, x)
    ensures IsValidAt(others, key, x)
  {
    var i :| 0 <= i < |items| && Numeric(FieldOf(items[i], key)) == Some(x);
    assert items[i] in multiset(others);
    var j :| 0 <= j < |others| && others[j] == items[i];
  }

  /** The result does not depend on the order of the items. */
  lemma OrderIndependent(items: seq<Item>, others: seq<Item>, key: string)
    requires multiset(items) == multiset(others)
    ensures Extremes(items, key) == Extremes(others, key)
  {
    forall x ensures IsValidAt(items, key, x) <==> IsValidAt(others, key, x) {
      if IsValidAt(items, key, x) {
        ValidAtPermuted(items, others, key, x);
      }
      if IsValidAt(others, key, x) {
        ValidAtPermuted(others, items, key, x);
      }
    }
    ExtremesSpec(items, key);
    ExtremesSpec(others, key);
    var e, f := Extremes(items, key), Extremes(others, key);
    if e.min.Some? {
      assert IsValidAt(others, key, e.min.value) && IsValidAt(others, key, e.max.value);
      assert IsValidAt(items, key, f.min.value) && IsValidAt(items, key, f.max.value);
      assert e.min == f.min && e.max == f.max;
    }
  }
}
