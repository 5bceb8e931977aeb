/**
  JSON-like values as `json.loads` hands them to the bot, and the Python operations
  the bot applies to them: `d.get(k, default)`, `d[k]`, `x[0]`, iteration and `int(x)`.
  Each operation either yields a value or the Python exception it would raise.
 */
module Json {
  import opened Wrappers
  import PyStr

  /** A decoded JSON value.  A number is `mantissa / 10^scale`; an object keeps its
      fields in insertion order, as a Python dict does, and its keys are strings. */
  datatype Json =
    | JNull
    | JBool(b: bool)
    | JNum(mantissa: int, scale: nat)
    | JStr(s: string)
    | JArr(items: seq<Json>)
    | JObj(fields: seq<(string, Json)>)

  /** The Python exceptions these operations can raise. */
  datatype Exception = AttributeError | TypeError | ValueError | IndexError | KeyError

  /** Python's `''`, the default of most lookups in the bot. */
  const EmptyStr: Json := JStr("")

  /** The value stored under `key`, if any. */
  function Lookup(fields: seq<(string, Json)>, key: string): (r: Option<Json>)
    ensures r.Some? <==> exists i :: 0 <= i < |fields| && fields[i].0 == key
    ensures r.Some? ==> exists i :: 0 <= i < |fields| && fields[i] == (key, r.value)
    decreases |fields|
  {
    if |fields| == 0 then None
    else if fields[0].0 == key then Some(fields[0].1)
    else Lookup(fields[1..], key)
  }

  /** Entries under other keys placed in front never change what a key finds. */
  lemma {:induction false} LookupSkips(before: seq<(string, Json)>, after: seq<(string, Json)>, key: string)
    requires forall i :: 0 <= i < |before| ==> before[i].0 != key
    ensures Lookup(before + after, key) == Lookup(after, key)
    decreases |before|
  {
    if |before| > 0 {
      assert (before + after)[0] == before[0];
      assert (before + after)[1..] == before[1..] + after;
      LookupSkips(before[1..], after, key);
    } else {
      assert before + after == after;
    }
  }

  /** `x.get(key, default)`: only a dict has `get`. */
  function Get(x: Json, key: string, default: Json): (r: Result<Json, Exception>)
    ensures !x.JObj? ==> r == Failure(AttributeError)
    ensures x.JObj? && Lookup(x.fields, key).None? ==> r == Success(default)
    ensures x.JObj? && Lookup(x.fields, key).Some? ==> r == Success(Lookup(x.fields, key).value)
  {
    if !x.JObj? then Failure(AttributeError)
    else if Lookup(x.fields, key).Some? then Success(Lookup(x.fields, key).value)
    else Success(default)
  }

  /** `x[key]` with a string key. */
  function Subscript(x: Json, key: string): (r: Result<Json, Exception>)
    ensures r.Success? <==> x.JObj? && Lookup(x.fields, key).Some?
    ensures x.JObj? && Lookup(x.fields, key).None? ==> r == Failure(KeyError)
    ensures !x.JObj? ==> r == Failure(TypeError)
  {
    if !x.JObj? then Failure(TypeError)
    else if Lookup(x.fields, key).Some? then Success(Lookup(x.fields, key).value)
    else Failure(KeyError)
  }

  /** `x[0]`: the first item of a list, the first character of a string; a dict has no
      key `0` because JSON keys are strings. */
  function First(x: Json): (r: Result<Json, Exception>)
    ensures x.JArr? && |x.items| > 0 ==> r == Success(x.items[0])
    ensures (x.JArr? && |x.items| == 0) || (x.JStr? && |x.s| == 0) ==> r == Failure(IndexError)
    ensures x.JObj? ==> r == Failure(KeyError)
  {
    match x
    case JArr(items) => if |items| > 0 then Success(items[0]) else Failure(IndexError)
    case JStr(s) => if |s| > 0 then Success(JStr([s[0]])) else Failure(IndexError)
    case JObj(_) => Failure(KeyError)
    case _ => Failure(TypeError)
  }

  /** `for item in x`: the items of a list, the keys of a dict, the characters of a string. */
  function Iterate(x: Json): (r: Result<seq<Json>, Exception>)
    ensures x.JArr? ==> r == Success(x.items)
    ensures x.JObj? ==> r.Success? && |r.value| == |x.fields|
    ensures x.JObj? ==> forall i :: 0 <= i < |x.fields| ==> r.value[i] == JStr(x.fields[i].0)
    ensures r.Failure? <==> x.JNull? || x.JBool? || x.JNum?
  {
    match x
    case JArr(items) => Success(items)
    case JObj(fields) => Success(seq(|fields|, i requires 0 <= i < |fields| => JStr(fields[i].0)))
    case JStr(s) => Success(seq(|s|, i requires 0 <= i < |s| => JStr([s[i]])))
    case _ => Failure(TypeError)
  }

  /** Integer division of `a` by a positive `b`, truncating toward zero as `int()` does. */
  function TruncDiv(a: int, b: int): (q: int)
    requires b > 0
    ensures a >= 0 ==> 0 <= q * b <= a < (q + 1) * b
    ensures a < 0 ==> (q - 1) * b < a <= q * b <= 0
  {
    if a >= 0 then DivBounds(a, b); a / b
    else DivBounds(-a, b); -((-a) / b)
  }

  lemma DivBounds(a: int, b: int)
    requires a >= 0 && b > 0
    ensures 0 <= (a / b) * b <= a < (a / b + 1) * b
  {
    assert a == (a / b) * b + a % b;
    assert (a / b + 1) * b == (a / b) * b + b;
  }

  /** `int(x)`: a number is truncated toward zero, a boolean is 0 or 1, a string must
      be an optionally signed run of digits; `None`, lists and dicts raise `TypeError`. */
  function ToInt(x: Json): (r: Result<int, Exception>)
    ensures x.JNull? || x.JArr? || x.JObj? ==> r == Failure(TypeError)
    ensures x.JNum? && x.scale == 0 ==> r == Success(x.mantissa)
    ensures x.JNum? && x.mantissa >= 0 ==>
              r.Success? && 0 <= r.value * PyStr.Pow10(x.scale) <= x.mantissa < (r.value + 1) * PyStr.Pow10(x.scale)
    ensures x.JNum? && x.mantissa < 0 ==>
              r.Success? && (r.value - 1) * PyStr.Pow10(x.scale) < x.mantissa <= r.value * PyStr.Pow10(x.scale) <= 0
    ensures x.JBool? ==> r == Success(if x.b then 1 else 0)
    ensures x.JStr? && PyStr.IsDigits(x.s) ==> r == Success(PyStr.DigitsValue(x.s))
    ensures r.Failure? ==> !x.JNum? && !x.JBool?
  {
    match x
    case JBool(b) => Success(if b then 1 else 0)
    case JNum(m, k) => Success(TruncDiv(m, PyStr.Pow10(k)))
    case JStr(s) => if PyStr.ParseInt(s).Some? then Success(PyStr.ParseInt(s).value) else Failure(ValueError)
    case JNull => Failure(TypeError)
    case JArr(_) => Failure(TypeError)
    case JObj(_) => Failure(TypeError)
  }

  /** `int()` gives back the integer a number denotes when the number is whole, whatever
      its scale: truncation loses only a fractional part. */
  lemma ToIntWhole(q: int, k: nat)
    ensures ToInt(JNum(q * PyStr.Pow10(k), k)) == Success(q)
  {
    var p := PyStr.Pow10(k);
    var v := ToInt(JNum(q * p, k)).value;
    if q >= 0 {
      assert q * p >= 0;
      assert v * p <= q * p < (v + 1) * p;
    } else {
      assert q * p < 0 by { NegTimesPos(q, p); }
      assert (v - 1) * p < q * p <= v * p;
    }
    MulCancel(v, q, p);
  }

  lemma NegTimesPos(a: int, b: int)
    requires a < 0 && b > 0
    ensures a * b < 0
  {
    assert a * b == -((-a) * b);
  }

  /** Whole multiples of a positive `p` bracketing each other are equal. */
  lemma MulCancel(v: int, q: int, p: int)
    requires p > 0
    requires (v * p <= q * p < (v + 1) * p) || ((v - 1) * p < q * p <= v * p)
    ensures v == q
  {
    assert (v + 1) * p == v * p + p && (v - 1) * p == v * p - p;
    assert (q + 1) * p == q * p + p;
    if v < q {
      MulMono(q, v + 1, p);
    } else if v > q {
      MulMono(v, q + 1, p);
    }
  }

  lemma MulMono(a: int, b: int, p: int)
    requires a >= b && p > 0
    ensures a * p >= b * p
  {
    assert a * p - b * p == (a - b) * p;
  }

  /** A value may serve as a dict key only when it is hashable (not a list or dict). */
  predicate Hashable(x: Json) {
    !x.JArr? && !x.JObj?
  }
}
