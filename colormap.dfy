/**
 * `cldfviz.colormap`: a colormap turns a parameter value into a colour. A
 * numeric range selects a continuous (matplotlib) colormap, a mapping domain a
 * categorical one that zips the domain keys with a palette.
 *
 * Palette generators and the continuous colour ramp are parameters: the model
 * knows only the colours they return.
 */
module Colormaps {
  import opened Common
  import opened Multiparameter

  /** The names offered for categorical colormaps. */
  const CategoricalNames: seq<string> := ["boynton", "tol", "base", "seq", "lb1", "lb2"]

  const Lb1: seq<string> := ["crimson", "white", "lightgray"]
  const Lb2: seq<string> := ["cornflowerblue", "white", "lightgray"]

  predicate EndsWith(s: string, suffix: string)
  {
    |suffix| <= |s| && s[|s| - |suffix|..] == suffix
  }

  /** `COLORMAPS[kind]`, given the names matplotlib knows. */
  function ColormapNames(kind: Kind, available: seq<string>): (r: seq<string>)
    ensures kind == Categorical ==> forall n :: n in r <==> n in CategoricalNames
    ensures kind == Continuous ==> forall n :: n in r <==> n in available && !EndsWith(n, "_r")
  {
    match kind
    case Categorical => CategoricalNames
    case Continuous => FilterSeq(available, (n: string) => !EndsWith(n, "_r"))
  }

  /** The palette of a categorical colormap with `n` domain keys. */
  function Palette(name: Option<string>, n: nat,
                   qualitative: (Option<string>, nat) -> seq<string>, sequential: nat -> seq<string>): seq<string>
  {
    if name == Some("seq") then sequential(n)
    else if name == Some("lb1") then Lb1
    else if name == Some("lb2") then Lb2
    else qualitative(name, n)
  }

  /** A constructed colormap. A categorical one holds `dict(zip(domain, colors))`. */
  datatype Colormap =
    | CategoricalMap(novalue: Option<string>, table: seq<(string, string)>)
    | ContinuousMap(novalue: Option<string>, lo: real, hi: real, name: Option<string>)

  /** `Colormap(domain, name, novalue)` */
  function NewColormap(domain: Domain, name: Option<string>, novalue: Option<string>,
                       qualitative: (Option<string>, nat) -> seq<string>, sequential: nat -> seq<string>): (r: Colormap)
    ensures r.novalue == novalue
    ensures r.ContinuousMap? <==> domain.Range?
  {
    match domain
    case Range(lo, hi) => ContinuousMap(novalue, lo, hi, name)
    case Mapping(entries) =>
      var keys := Keys(entries);
      CategoricalMap(novalue, DictFromPairs(Zip(keys, Palette(name, |keys|, qualitative, sequential))))
  }

  /** `colormap(value)`: `None` gives the no-value colour; a categorical lookup
      of a value without a colour raises `KeyError`. The continuous colour of a
      value is whatever `ramp` gives. */
  function Apply(cm: Colormap, value: Option<string>,
                 ramp: (real, real, Option<string>, string) -> Result<string>): (r: Result<Option<string>>)
    ensures value.None? ==> r == Ok(cm.novalue)
  {
    match value
    case None => Ok(cm.novalue)
    case Some(v) =>
      match cm
      case ContinuousMap(_, lo, hi, name) =>
        (match ramp(lo, hi, name, v)
         case Ok(c) => Ok(Some(c))
         case Err(e) => Err(e))
      case CategoricalMap(_, table) =>
        match Get(table, v)
        case Some(c) => Ok(Some(c))
        case None => Err("KeyError: " + v)
  }

  /** The i-th domain key gets the i-th palette colour, as long as the palette
      has one. */
  lemma CategoricalColor(entries: seq<(string, string)>, name: Option<string>, novalue: Option<string>,
                         qualitative: (Option<string>, nat) -> seq<string>, sequential: nat -> seq<string>,
                         ramp: (real, real, Option<string>, string) -> Result<string>, i: nat)
    requires DistinctKeys(entries)
    requires i < |entries| && i < |Palette(name, |entries|, qualitative, sequential)|
    ensures Apply(NewColormap(Mapping(entries), name, novalue, qualitative, sequential), Some(entries[i].0), ramp)
      == Ok(Some(Palette(name, |entries|, qualitative, sequential)[i]))
  {
    var keys := Keys(entries);
    var pairs := Zip(keys, Palette(name, |keys|, qualitative, sequential));
    DictFromPairsGet(pairs, entries[i].0);
    ZipDistinct(keys, Palette(name, |keys|, qualitative, sequential), entries);
    LastValueDistinct(pairs, entries[i].0);
    GetAt(pairs, i);
  }

  /** A value that is not a domain key, or whose key has no palette colour, has
      no colour: the lookup raises. */
  lemma CategoricalMissing(entries: seq<(string, string)>, name: Option<string>, novalue: Option<string>,
                           qualitative: (Option<string>, nat) -> seq<string>, sequential: nat -> seq<string>,
                           ramp: (real, real, Option<string>, string) -> Result<string>, v: string)
    requires v !in Keys(entries)[..Min(|entries|, |Palette(name, |entries|, qualitative, sequential)|)]
    ensures Apply(NewColormap(Mapping(entries), name, novalue, qualitative, sequential), Some(v), ramp).Err?
  {
    var keys := Keys(entries);
    var pairs := Zip(keys, Palette(name, |keys|, qualitative, sequential));
    DictFromPairsGet(pairs, v);
  }

  /** With `lb1` or `lb2` only the first three domain keys have a colour. */
  lemma FixedPaletteHasThreeColours(entries: seq<(string, string)>, name: Option<string>, novalue: Option<string>,
                                    qualitative: (Option<string>, nat) -> seq<string>, sequential: nat -> seq<string>,
                                    ramp: (real, real, Option<string>, string) -> Result<string>, i: nat)
    requires name == Some("lb1") || name == Some("lb2")
    requires DistinctKeys(entries) && 3 <= i < |entries|
    ensures Apply(NewColormap(Mapping(entries), name, novalue, qualitative, sequential), Some(entries[i].0), ramp).Err?
  {
    var keys := Keys(entries);
    forall j | 0 <= j < 3 ensures keys[..3][j] != entries[i].0 {
      assert entries[j].0 != entries[i].0;
    }
    CategoricalMissing(entries, name, novalue, qualitative, sequential, ramp, entries[i].0);
  }

  function Min(a: nat, b: nat): nat
  {
    if a <= b then a else b
  }

  lemma ZipDistinct(keys: seq<string>, colors: seq<string>, entries: seq<(string, string)>)
    requires keys == Keys(entries) && DistinctKeys(entries)
    ensures DistinctKeys(Zip(keys, colors))
  {
    var z := Zip(keys, colors);
    forall i, j | 0 <= i < j < |z| ensures z[i].0 != z[j].0 {
      assert z[i].0 == entries[i].0 && z[j].0 == entries[j].0;
    }
  }
}
