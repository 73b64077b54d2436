/** JSON-like values as the Express controllers receive them in `req.body`,
    with `Undefined` standing for a field the client left out. */
module Values {
  import opened Text

  datatype Value =
    | Undefined
    | Null
    | Bool(b: bool)
    | Num(n: real)
    | Str(s: string)
    | Arr(items: seq<Value>)
    | Obj(fields: seq<(string, Value)>)

  /** JavaScript truthiness: `undefined`, `null`, `false`, `0` and `""` are
      falsy, every array and object is truthy. */
  predicate Truthy(v: Value) {
    match v
    case Undefined => false
    case Null => false
    case Bool(b) => b
    case Num(n) => n != 0.0
    case Str(s) => s != ""
    case Arr(_) => true
    case Obj(_) => true
  }

  /** `Number.isInteger`: a number with no fraction part. */
  predicate IsInteger(v: Value) {
    v.Num? && IsWhole(v.n)
  }

  /** JavaScript `String(v)`, the conversion a template literal applies. */
  function ToText(v: Value): string
    decreases v
  {
    match v
    case Undefined => "undefined"
    case Null => "null"
    case Bool(b) => if b then "true" else "false"
    case Num(n) => DecimalText(n)
    case Str(s) => s
    case Arr(items) =>
      Join(seq(|items|, i requires 0 <= i < |items| =>
        if items[i].Undefined? || items[i].Null? then "" else ToText(items[i])), ",")
    case Obj(_) => "[object Object]"
  }

  /** `String(v)` returns rather than throws. Parsed JSON holds no
      functions, so an object with its own `toString` key has neither a
      callable `toString` nor a `valueOf` that gives a primitive, and the
      conversion throws a TypeError. An array converts each element. */
  predicate Printable(v: Value)
    decreases v
  {
    match v
    case Arr(items) => forall i :: 0 <= i < |items| ==> Printable(items[i])
    case Obj(fields) => forall k :: 0 <= k < |fields| ==> fields[k].0 != "toString"
    case _ => true
  }

  /** The message of that TypeError in the V8 engine. */
  const ConversionError := "Cannot convert object to primitive value"

  /** The text `Array.prototype.join` uses for one element: `undefined` and
      `null` become the empty string, everything else its `String` form. */
  function ElementText(v: Value): (s: string)
    ensures !v.Undefined? && !v.Null? ==> s == ToText(v)
    ensures v.Undefined? || v.Null? ==> s == ""
  {
    if v.Undefined? || v.Null? then "" else ToText(v)
  }

  function ElementTexts(vs: seq<Value>): (ts: seq<string>)
    ensures |ts| == |vs|
    ensures forall i :: 0 <= i < |vs| ==> ts[i] == ElementText(vs[i])
  {
    seq(|vs|, i requires 0 <= i < |vs| => ElementText(vs[i]))
  }

  /** `vs.join(sep)`. */
  function JoinValues(vs: seq<Value>, sep: string): string {
    Join(ElementTexts(vs), sep)
  }

  /** An array is rendered as its elements joined by commas. */
  lemma ArrayText(items: seq<Value>)
    ensures ToText(Arr(items)) == JoinValues(items, ",")
  {
    assert ElementTexts(items) == seq(|items|, i requires 0 <= i < |items| =>
      if items[i].Undefined? || items[i].Null? then "" else ToText(items[i]));
  }

  /** A string value is rendered as itself, and a list of strings joins to
      the join of the strings. */
  lemma JoinOfStrings(ss: seq<string>, sep: string)
    ensures JoinValues(seq(|ss|, i requires 0 <= i < |ss| => Str(ss[i])), sep) == Join(ss, sep)
  {
    var vs := seq(|ss|, i requires 0 <= i < |ss| => Str(ss[i]));
    assert ElementTexts(vs) == ss;
  }
}
