/** The JSON values the routes receive in request bodies and the pages
    receive from the invoice API, with the JavaScript operations the code
    applies to them: truthiness, `??`, `||`, property access, `Number(v)`
    and `String(v)`. */
module JsValues {
  import opened JsText
  import opened JsNumber

  /** A JSON value as JavaScript sees it; `Undefined` stands for a missing
      property. Arrays are not field values anywhere in the modelled code
      and are left out. */
  datatype JsValue =
    | Undefined
    | Null
    | Bool(b: bool)
    | Number(n: Num)
    | Str(s: string)
    | Object(entries: seq<(string, JsValue)>)

  /** JavaScript truthiness: `undefined`, `null`, `false`, `0`, `NaN` and
      `""` are falsy; every object is truthy. */
  predicate Truthy(v: JsValue) {
    match v
    case Undefined | Null => false
    case Bool(b) => b
    case Number(n) => n.Truthy()
    case Str(s) => s != ""
    case Object(_) => true
  }

  predicate IsNullish(v: JsValue) {
    v.Undefined? || v.Null?
  }

  /** `a ?? b`. */
  function Coalesce(a: JsValue, b: JsValue): (r: JsValue)
    ensures !IsNullish(a) ==> r == a
    ensures IsNullish(a) ==> r == b
  {
    if IsNullish(a) then b else a
  }

  /** `a || b`. */
  function Or(a: JsValue, b: JsValue): (r: JsValue)
    ensures Truthy(a) ==> r == a
    ensures !Truthy(a) ==> r == b
  {
    if Truthy(a) then a else b
  }

  /** Position of the first entry named `key`. */
  function IndexOf(entries: seq<(string, JsValue)>, key: string): (r: nat)
    ensures r <= |entries|
    ensures r < |entries| ==> entries[r].0 == key
    ensures forall i | 0 <= i < r :: entries[i].0 != key
  {
    if entries == [] then 0
    else if entries[0].0 == key then 0
    else 1 + IndexOf(entries[1..], key)
  }

  /** `key in v`, for an object. */
  predicate Has(v: JsValue, key: string) {
    v.Object? && IndexOf(v.entries, key) < |v.entries|
  }

  /** `v[key]`: the property's value, or `undefined` when it is missing or
      `v` is not an object. */
  function Get(v: JsValue, key: string): (r: JsValue)
    ensures Has(v, key) ==> (key, r) in v.entries
    ensures !Has(v, key) ==> r == Undefined
  {
    if Has(v, key) then v.entries[IndexOf(v.entries, key)].1 else Undefined
  }

  /** `String(v)` for every value but a number; `String(n)` is the
      platform's shortest decimal that reads back as `n`, so a number is
      never turned into text by the modelled code: where the code writes
      `Number(String(n))` the model keeps `n`. */
  function StringOf(v: JsValue): (r: string)
    requires !v.Number?
  {
    match v
    case Undefined => "undefined"
    case Null => "null"
    case Bool(b) => if b then "true" else "false"
    case Str(s) => s
    case Object(_) => "[object Object]"
  }

  /** `Number(v)`: `null` and `false` are 0, `true` is 1, a string is read
      by `ParseJsNumber`, an object reads as `NaN` (its text is
      "[object Object]"), and `undefined` is `NaN`. */
  function ToNumber(v: JsValue): (r: Num)
    ensures v.Null? ==> r == Fin(0.0)
    ensures v.Undefined? || v.Object? ==> r == NaN
    ensures v.Number? ==> r == v.n
  {
    match v
    case Undefined => NaN
    case Null => Fin(0.0)
    case Bool(b) => Fin(if b then 1.0 else 0.0)
    case Number(n) => n
    case Str(s) => ParseJsNumber(s)
    case Object(_) =>
      ObjectTextIsNaN(v);
      NaN
  }

  /** The text of an object has no comma and is not a number. */
  lemma ObjectTextIsNaN(v: JsValue)
    requires v.Object?
    ensures Remove(StringOf(v), ',') == StringOf(v)
    ensures ParseJsNumber(StringOf(v)) == NaN
  {
    ObjectTextNoComma();
    ObjectTextNotNumber();
  }

  lemma ObjectTextNoComma()
    ensures Remove("[object Object]", ',') == "[object Object]"
  {
    assert ',' !in "[object Object]";
  }

  lemma ObjectTextNotNumber()
    ensures ParseJsNumber("[object Object]") == NaN
  {
    var t := "[object Object]";
    BracketedUntrimmed(t);
    assert DigitRun(t) == 0;
  }

  /** A text in square brackets has nothing to trim. */
  lemma BracketedUntrimmed(t: string)
    requires |t| > 0 && t[0] == '[' && t[|t| - 1] == ']'
    ensures Trim(t) == t
  {
    assert !IsSpace('[') && !IsSpace(']');
  }
}
