/**
 * Dynamically typed values as they come out of a CLDF table cell or a JSON
 * document: `None`, booleans, integers, floats, strings and lists. The model
 * needs their Python truthiness and their `str()` rendering.
 */
module Datum {
  import opened Common

  /** A float keeps its numeric value and the text `str()` gives for it. */
  datatype Datum =
    | DNull
    | DBool(b: bool)
    | DInt(i: int)
    | DFloat(x: real, text: string)
    | DStr(s: string)
    | DList(items: seq<Datum>)
    | DDict(entries: seq<(string, Datum)>)

  /** Python's `bool(d)`. */
  predicate Truthy(d: Datum)
  {
    match d
    case DNull => false
    case DBool(b) => b
    case DInt(i) => i != 0
    case DFloat(x, _) => x != 0.0
    case DStr(s) => s != ""
    case DList(items) => items != []
    case DDict(entries) => entries != []
  }

  function DigitChar(n: nat): (c: char)
    requires n < 10
    ensures '0' <= c <= '9'
  {
    ['0', '1', '2', '3', '4', '5', '6', '7', '8', '9'][n]
  }

  function NatToString(n: nat): (r: string)
    ensures r != []
    ensures forall i :: 0 <= i < |r| ==> '0' <= r[i] <= '9'
  {
    if n < 10 then [DigitChar(n)] else NatToString(n / 10) + [DigitChar(n % 10)]
  }

  /** `str(i)` for an integer. */
  function IntToString(i: int): (r: string)
    ensures r != []
  {
    if i < 0 then "-" + NatToString(-i) else NatToString(i)
  }

  /** `str(d)`. Strings inside a list are shown with single quotes, as `repr` does
      for strings without quotes or backslashes. */
  function PyStr(d: Datum): (r: string)
    ensures d.DStr? ==> r == d.s
    decreases d, 0
  {
    match d
    case DNull => "None"
    case DBool(b) => if b then "True" else "False"
    case DInt(i) => IntToString(i)
    case DFloat(_, text) => text
    case DStr(s) => s
    case DList(items) =>
      "[" + Join(", ", seq(|items|, k requires 0 <= k < |items| => Repr(items[k]))) + "]"
    case DDict(entries) =>
      "{" + Join(", ", seq(|entries|, k requires 0 <= k < |entries| =>
                              "'" + entries[k].0 + "': " + Repr(entries[k].1))) + "}"
  }

  /** The number a `bool`, `int` or `float` stands for in comparisons. */
  function Number(d: Datum): Option<real>
  {
    match d
    case DBool(b) => Some(if b then 1.0 else 0.0)
    case DInt(i) => Some(i as real)
    case DFloat(x, _) => Some(x)
    case _ => None
  }

  /** Python's `a == b`: numbers compare by value across `bool`, `int` and
      `float`, lists element by element, everything else structurally. Dicts
      are compared entry by entry in order, so unlike Python two dicts with
      the same items in another order, or with values equal only as numbers
      (`True` and `1`), differ. */
  predicate PyEq(a: Datum, b: Datum)
    decreases a
  {
    if Number(a).Some? && Number(b).Some? then Number(a) == Number(b)
    else if Number(a).Some? || Number(b).Some? then false
    else match a
      case DList(xs) => b.DList? && |xs| == |b.items| &&
        forall k :: 0 <= k < |xs| ==> PyEq(xs[k], b.items[k])
      case _ => a == b
  }

  /** Python equality is reflexive, and `True == 1 == 1.0`. */
  lemma PyEqReflexive(a: Datum)
    ensures PyEq(a, a)
    ensures PyEq(DBool(true), DInt(1)) && PyEq(DInt(1), DFloat(1.0, "1.0"))
  {
    match a
    case DList(xs) =>
      forall k | 0 <= k < |xs| ensures PyEq(xs[k], xs[k]) { PyEqReflexive(xs[k]); }
    case _ =>
  }

  /** `x in items` for a list: some element equals `x`. */
  function PyIn(x: Datum, items: seq<Datum>): (r: bool)
    ensures r <==> exists i :: 0 <= i < |items| && PyEq(items[i], x)
  {
    if items == [] then false
    else if PyEq(items[0], x) then true
    else
      assert forall i :: 1 <= i < |items| ==> items[i] == items[1..][i - 1];
      PyIn(x, items[1..])
  }

  /** `repr(d)` */
  function Repr(d: Datum): string
    decreases d, 1
  {
    if d.DStr? then "'" + d.s + "'" else PyStr(d)
  }
}
