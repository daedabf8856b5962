/**
 * What a pandas cell or a parsed Python literal can hold, and the floating-point
 * arithmetic the feature formulas apply to cells (IEEE rules for infinities and NaN,
 * with exact real arithmetic on finite values).
 */
module Values {
  import opened Common

  /**
   * `Num` is a finite float or int; `Inf` a signed infinity; `Missing` stands for NaN
   * and None alike (pandas treats both as missing); `List` is a list and `Tuple` a
   * tuple, which `isinstance(v, list)` tells apart; `Dict` keeps its entries in
   * insertion order.
   */
  datatype Value =
    | Num(x: real)
    | Inf(negative: bool)
    | Missing
    | Str(s: string)
    | List(items: seq<Value>)
    | Tuple(items: seq<Value>)
    | Dict(entries: seq<(Value, Value)>)

  /** A float cell: finite, infinite or NaN. */
  predicate IsNumeric(v: Value) { v.Num? || v.Inf? || v.Missing? }

  /** A float column as read from a statistics file: finite or missing. */
  predicate FiniteOrMissing(col: seq<Value>)
  {
    forall i :: 0 <= i < |col| ==> col[i].Num? || col[i].Missing?
  }

  /** A column whose every cell is a float. */
  predicate NumericColumn(col: seq<Value>)
  {
    forall i :: 0 <= i < |col| ==> IsNumeric(col[i])
  }

  /** Elementwise `==` of pandas: a missing cell equals nothing, not even another missing one. */
  predicate PyEq(a: Value, b: Value)
  {
    !a.Missing? && !b.Missing? && a == b
  }

  function Neg(a: Value): (r: Value)
    requires IsNumeric(a)
    ensures IsNumeric(r) && r.Missing? == a.Missing?
  {
    match a
    case Num(x) => Num(-x)
    case Inf(n) => Inf(!n)
    case _ => Missing
  }

  /** IEEE addition: NaN absorbs, opposite infinities give NaN. */
  function Add(a: Value, b: Value): (r: Value)
    requires IsNumeric(a) && IsNumeric(b)
    ensures IsNumeric(r)
    ensures a.Num? && b.Num? ==> r == Num(a.x + b.x)
    ensures a.Missing? || b.Missing? ==> r.Missing?
  {
    if a.Missing? || b.Missing? then Missing
    else if a.Inf? && b.Inf? then (if a.negative == b.negative then a else Missing)
    else if a.Inf? then a
    else if b.Inf? then b
    else Num(a.x + b.x)
  }

  function Sub(a: Value, b: Value): (r: Value)
    requires IsNumeric(a) && IsNumeric(b)
    ensures IsNumeric(r)
    ensures a.Num? && b.Num? ==> r == Num(a.x - b.x)
    ensures a.Missing? || b.Missing? ==> r.Missing?
  {
    Add(a, Neg(b))
  }

  /** Multiplication by a positive constant. */
  function Scale(c: real, a: Value): (r: Value)
    requires c > 0.0 && IsNumeric(a)
    ensures IsNumeric(r)
    ensures a.Num? ==> r == Num(c * a.x)
    ensures a.Missing? <==> r.Missing?
  {
    match a
    case Num(x) => Num(c * x)
    case _ => a
  }

  /**
   * IEEE division: x/0 is a signed infinity (NaN for 0/0), a finite value over an
   * infinity is 0, an infinity over an infinity is NaN.  Zero carries no sign here.
   */
  function Div(a: Value, b: Value): (r: Value)
    requires IsNumeric(a) && IsNumeric(b)
    ensures IsNumeric(r)
    ensures a.Num? && b.Num? && b.x != 0.0 ==> r == Num(a.x / b.x)
    ensures a.Missing? || b.Missing? ==> r.Missing?
  {
    if a.Missing? || b.Missing? then Missing
    else if a.Inf? && b.Inf? then Missing
    else if a.Inf? then (if b.x < 0.0 then Inf(!a.negative) else a)
    else if b.Inf? then Num(0.0)
    else if b.x != 0.0 then Num(a.x / b.x)
    else if a.x == 0.0 then Missing
    else Inf(a.x < 0.0)
  }

  /** Strict `<` on floats; any comparison with NaN is false. */
  predicate Less(a: Value, b: Value)
    requires IsNumeric(a) && IsNumeric(b)
  {
    match (a, b)
    case (Num(x), Num(y)) => x < y
    case (Inf(na), Inf(nb)) => na && !nb
    case (Inf(na), Num(_)) => na
    case (Num(_), Inf(nb)) => !nb
    case _ => false
  }

  /** `max` that skips NaN, as pandas' `max(axis=1)`; NaN when every cell is NaN. */
  function MaxSkipNa(a: Value, b: Value): (r: Value)
    requires IsNumeric(a) && IsNumeric(b)
    ensures IsNumeric(r) && (r == a || r == b)
    ensures r.Missing? <==> a.Missing? && b.Missing?
    ensures !a.Missing? ==> !Less(r, a)
    ensures !b.Missing? ==> !Less(r, b)
  {
    if a.Missing? then b else if b.Missing? then a else if Less(a, b) then b else a
  }

  /** `min` that skips NaN, as pandas' `min(axis=1)`. */
  function MinSkipNa(a: Value, b: Value): (r: Value)
    requires IsNumeric(a) && IsNumeric(b)
    ensures IsNumeric(r) && (r == a || r == b)
    ensures r.Missing? <==> a.Missing? && b.Missing?
    ensures !a.Missing? ==> !Less(a, r)
    ensures !b.Missing? ==> !Less(b, r)
  {
    if a.Missing? then b else if b.Missing? then a else if Less(b, a) then b else a
  }

  /** `sum` that skips NaN, as pandas' `sum(axis=1)`: 0 when every cell is NaN. */
  function SumSkipNa(a: Value, b: Value, c: Value): (r: Value)
    requires IsNumeric(a) && IsNumeric(b) && IsNumeric(c)
    ensures IsNumeric(r)
    ensures a.Num? && b.Num? && c.Num? ==> r == Num(a.x + b.x + c.x)
  {
    var a' := if a.Missing? then Num(0.0) else a;
    var b' := if b.Missing? then Num(0.0) else b;
    var c' := if c.Missing? then Num(0.0) else c;
    Add(Add(a', b'), c')
  }

  /** `replace([inf, -inf], nan)` followed by `fillna(0)` on one cell. */
  function Clean(v: Value): (r: Value)
    ensures !r.Inf? && !r.Missing?
    ensures !v.Inf? && !v.Missing? ==> r == v
  {
    if v.Inf? || v.Missing? then Num(0.0) else v
  }

  /** What `for x in v` visits, or None when `v` is not iterable (a TypeError). */
  function Iterate(v: Value): (r: Option<seq<Value>>)
    ensures v.List? || v.Tuple? ==> r == Some(v.items)
    ensures IsNumeric(v) ==> r.None?
  {
    match v
    case List(items) => Some(items)
    case Tuple(items) => Some(items)
    case Str(s) => Some(seq(|s|, i requires 0 <= i < |s| => Str([s[i]])))
    case Dict(entries) => Some(seq(|entries|, i requires 0 <= i < |entries| => entries[i].0))
    case _ => None
  }

  /** `d.get(key)` on a dict's entries: the first entry under `key`, else None. */
  function Get(entries: seq<(Value, Value)>, key: Value): (r: Value)
    ensures (forall i :: 0 <= i < |entries| ==> entries[i].0 != key) ==> r == Missing
    ensures entries != [] && entries[0].0 == key ==> r == entries[0].1
  {
    if entries == [] then Missing
    else if entries[0].0 == key then entries[0].1
    else Get(entries[1..], key)
  }
}
