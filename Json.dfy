/** JSON-like values as JavaScript sees them after `JSON.parse`, with the
    language's truthiness, property access and numeric coercion.
    `undefined` (an absent property) is `None` of an `Option<Json>`. */
module Json {
  import opened Wrappers
  import Text

  /** Numbers are integers in this model: claims such as `exp` and `iat` are whole seconds. */
  datatype Json =
    | Null
    | Bool(b: bool)
    | Num(n: int)
    | Str(s: string)
    | Arr(items: seq<Json>)
    | Obj(fields: map<string, Json>)

  /** `!!v`: null, false, 0 and the empty string are falsy; arrays and objects are truthy. */
  predicate Truthy(v: Json) {
    match v
    case Null => false
    case Bool(b) => b
    case Num(n) => n != 0
    case Str(s) => s != ""
    case Arr(_) => true
    case Obj(_) => true
  }

  /** Truthiness of a possibly undefined value. */
  predicate TruthyOpt(v: Option<Json>) {
    v.Some? && Truthy(v.value)
  }

  /** `typeof v === 'object' && v !== null`: arrays count as objects. */
  predicate IsObject(v: Json) {
    v.Arr? || v.Obj?
  }

  /** `v[key]` on an object-typed value: own properties of an object; canonical
      indices and `length` of an array; anything else is undefined. */
  function Member(v: Json, key: string): (r: Option<Json>)
    ensures v.Obj? ==> (r.Some? <==> key in v.fields)
    ensures !IsObject(v) ==> r.None?
  {
    match v
    case Obj(fields) => if key in fields then Some(fields[key]) else None
    case Arr(items) =>
      if key == "length" then Some(Num(|items|))
      else
        (match Text.ParseIndex(key)
         case Some(i) => if i < |items| then Some(items[i]) else None
         case None => None)
    case _ => None
  }

  /** The property `key` of a (possibly absent) record of claims. */
  function Get(m: map<string, Json>, key: string): Option<Json> {
    if key in m then Some(m[key]) else None
  }

  /** A claim used where the source expects a string and tests it with `||`:
      only a non-empty string is taken; anything else counts as absent. */
  function NonEmptyText(v: Option<Json>): (r: Option<string>)
    ensures r.Some? <==> (v.Some? && v.value.Str? && v.value.s != "")
    ensures r.Some? ==> v == Some(Str(r.value))
  {
    match v
    case Some(Str(s)) => if s != "" then Some(s) else None
    case _ => None
  }

  /** `Number(s)` for a string: white space around the text is ignored, the
      empty text is 0, and an optionally signed run of decimal digits is its
      value. Every other text is NaN (`None`) here; numbers are integers in
      this model. */
  function StringToNumber(s: string): (r: Option<int>)
    ensures Text.Trim(s) == "" ==> r == Some(0)
    ensures Text.IsDecimal(Text.Trim(s)) ==> r == Some(Text.DigitsValue(Text.Trim(s)))
  {
    var t := Text.Trim(s);
    if t == "" then Some(0)
    else if t[0] == '-' && Text.IsDecimal(t[1..]) then Some(-(Text.DigitsValue(t[1..]) as int))
    else if t[0] == '+' && Text.IsDecimal(t[1..]) then Some(Text.DigitsValue(t[1..]))
    else if Text.IsDecimal(t) then Some(Text.DigitsValue(t))
    else None
  }

  /** JavaScript's numeric coercion of a defined value, `None` standing for NaN:
      null is 0, booleans 0 or 1, a string is read by `StringToNumber`, and an
      array or object is first turned into its `String(v)` text. */
  function ToNumber(v: Json): (r: Option<int>)
    ensures v.Num? ==> r == Some(v.n)
    ensures v.Str? ==> r == StringToNumber(v.s)
    ensures v.Arr? || v.Obj? ==> r == StringToNumber(Display(v))
  {
    match v
    case Null => Some(0)
    case Bool(b) => Some(if b then 1 else 0)
    case Num(n) => Some(n)
    case Str(s) => StringToNumber(s)
    case _ => StringToNumber(Display(v))
  }

  /** The text `String(n)` converts back to `n`. */
  lemma NumberOfDecimal(n: int)
    ensures StringToNumber(Text.IntToDecimal(n)) == Some(n)
  {
    var d := Text.IntToDecimal(n);
    Text.IntDecimalShape(n);
    assert d[0] == '-' || Text.IsDigit(d[0]);
    assert Text.IsDigit(d[|d| - 1]) by {
      if n < 0 {
        assert d[|d| - 1] == d[1..][|d| - 2];
      }
    }
    Text.TrimClean(d);
  }

  /** A one-element array converts as its element's text: `Number([5]) == 5`,
      `Number(["5"]) == 5`, and `Number([null]) == 0`. */
  lemma NumberOfSingleton(v: Json)
    ensures ToNumber(Arr([v])) == StringToNumber(if v.Null? then "" else Display(v))
  {
  }

  /** Numeric text and a one-element array holding a number convert to that number. */
  lemma NumericTextConverts(n: int)
    ensures ToNumber(Str(Text.IntToDecimal(n))) == Some(n)
    ensures ToNumber(Arr([Num(n)])) == Some(n)
    ensures ToNumber(Arr([Str(Text.IntToDecimal(n))])) == Some(n)
  {
    NumberOfDecimal(n);
    NumberOfSingleton(Num(n));
    NumberOfSingleton(Str(Text.IntToDecimal(n)));
  }

  /** `Number("")`, `Number(" ")` and `Number([])` are 0, while text that is not a number is NaN. */
  lemma BlankIsZero()
    ensures ToNumber(Str("")) == Some(0) && ToNumber(Str(" ")) == Some(0) && ToNumber(Arr([])) == Some(0)
    ensures ToNumber(Str("abc")) == None && ToNumber(Obj(map[])) == None
  {
    assert Text.Trim(" ") == "";
    assert Text.Trim("abc") == "abc" by { Text.TrimClean("abc"); }
    assert !Text.IsDigit('a');
    assert Text.Trim("[object Object]") == "[object Object]" by { Text.TrimClean("[object Object]"); }
    assert !Text.IsDigit('[');
  }

  /** `String(v)`, as a template literal renders a value: arrays join their
      elements with ',' (null and undefined elements as ''), objects are
      "[object Object]". */
  function Display(v: Json): (r: string)
    ensures v.Str? ==> r == v.s
    decreases v
  {
    match v
    case Null => "null"
    case Bool(b) => if b then "true" else "false"
    case Num(n) => Text.IntToDecimal(n)
    case Str(s) => s
    case Arr(items) =>
      if |items| == 0 then ""
      else Text.Join(seq(|items|, i requires 0 <= i < |items| => if items[i].Null? then "" else Display(items[i])), ',')
    case Obj(_) => "[object Object]"
  }

  /** `${v}` of a possibly undefined value. */
  function DisplayOpt(v: Option<Json>): (r: string)
    ensures v.None? ==> r == "undefined"
    ensures v.Some? ==> r == Display(v.value)
  {
    match v
    case None => "undefined"
    case Some(x) => Display(x)
  }
}
