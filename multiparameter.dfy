/**
 * Aggregation of the values of several parameters (or of a language
 * property) per language, as `cldfviz.multiparameter` does it: languages are
 * resolved to coordinates (from the dataset or from Glottolog), value rows are
 * filtered and turned into `Value`s, each parameter's domain is inferred, and
 * `IterLanguages` groups the values per language.
 *
 * Dataset tables are plain sequences of rows. Python's `float(v)` is the
 * parameter `parse` (a number, or `None` when `v` does not parse).
 */
module Multiparameter {
  import opened Common

  // ---------------------------------------------------------------------
  // Entities
  // ---------------------------------------------------------------------

  datatype LonLat = LonLat(lon: real, lat: real)

  datatype Language = Language(id: string, name: string, lat: real, lon: real)

  /** A Glottolog languoid; its coordinates are present or absent together. */
  datatype Languoid = Languoid(id: string, name: string, coords: Option<LonLat>)

  /** A row of LanguageTable. `name` is `None` when the table has no name column;
      `glottocode` is `None` when the table has no Glottocode column and
      `Some(None)` for an empty cell; `props` holds the remaining columns. */
  datatype LanguageObject = LanguageObject(
    id: string,
    name: Option<string>,
    glottocode: Option<Option<string>>,
    lonlat: Option<LonLat>,
    props: map<string, string>)

  datatype ParameterObject = ParameterObject(id: string, name: Option<string>)

  datatype CodeRow = CodeRow(id: string, pid: string, name: string)

  datatype ValueRow = ValueRow(lid: string, pid: string, value: Option<string>, codeRef: Option<string>)

  /** A CLDF StructureDataset; absent tables are `None`. */
  datatype Dataset = Dataset(
    languageTable: Option<seq<LanguageObject>>,
    parameterTable: Option<seq<ParameterObject>>,
    codeTable: Option<seq<CodeRow>>,
    valueTable: seq<ValueRow>)

  datatype Kind = Continuous | Categorical

  /** A domain is a mapping (code id to name, or value to itself), or a numeric range. */
  datatype Domain = Mapping(entries: seq<(string, string)>) | Range(lo: real, hi: real)

  datatype Parameter = Parameter(id: string, name: string, kind: Kind, domain: Domain)

  datatype Value = Value(v: string, pid: string, lid: string, code: Option<string>, float: Option<real>)

  type Glottolog = map<string, Languoid>

  type Codes = seq<(string, seq<(string, string)>)>

  // ---------------------------------------------------------------------
  // Language
  // ---------------------------------------------------------------------

  /** The key under which a language is looked up in Glottolog. */
  function GlottologKey(obj: LanguageObject): Option<string>
  {
    match obj.glottocode
    case None => Some(obj.id)
    case Some(gc) => gc
  }

  /** `Language.from_object`: the object's own coordinates, else Glottolog's. */
  function LanguageFromObject(obj: LanguageObject, glottolog: Glottolog): (r: Option<Language>)
    ensures obj.lonlat.Some? ==> r == Some(Language(obj.id, obj.name.GetOr(obj.id), obj.lonlat.value.lat, obj.lonlat.value.lon))
    ensures r.Some? ==> r.value.id == obj.id
  {
    var key := GlottologKey(obj);
    var glang := if key.Some? && key.value in glottolog then Some(glottolog[key.value]) else None;
    var lonlat := if obj.lonlat.None? && glang.Some? && glang.value.coords.Some? then glang.value.coords else obj.lonlat;
    match lonlat
    case Some(ll) => Some(Language(obj.id, match obj.name case Some(n) => n case None => obj.id, ll.lat, ll.lon))
    case None => None
  }

  /** A language is resolved exactly when it has coordinates of its own or its
      Glottolog languoid has some; Glottolog is consulted only in the second case. */
  lemma LanguageFromObjectResolves(obj: LanguageObject, glottolog: Glottolog)
    ensures LanguageFromObject(obj, glottolog).Some? <==>
      obj.lonlat.Some? ||
      (GlottologKey(obj).Some? && GlottologKey(obj).value in glottolog && glottolog[GlottologKey(obj).value].coords.Some?)
    ensures obj.lonlat.None? && LanguageFromObject(obj, glottolog).Some? ==>
      var c := glottolog[GlottologKey(obj).value].coords.value;
      LanguageFromObject(obj, glottolog).value.lat == c.lat && LanguageFromObject(obj, glottolog).value.lon == c.lon
  {
  }

  /** `Language.from_glottolog`: only languoids with a latitude give a language. */
  function LanguageFromGlottolog(lid: string, glottolog: Glottolog): (r: Option<Language>)
    ensures r.Some? <==> lid in glottolog && glottolog[lid].coords.Some?
    ensures r.Some? ==> r.value == Language(glottolog[lid].id, glottolog[lid].name,
                                           glottolog[lid].coords.value.lat, glottolog[lid].coords.value.lon)
  {
    if lid in glottolog && glottolog[lid].coords.Some? then
      var g := glottolog[lid];
      Some(Language(g.id, g.name, g.coords.value.lat, g.coords.value.lon))
    else None
  }

  // ---------------------------------------------------------------------
  // Value
  // ---------------------------------------------------------------------

  /** A new `Value`; its `float` is computed from `v` as the constructor does. */
  function NewValue(v: string, pid: string, lid: string, code: Option<string>, parse: string -> Option<real>): (r: Value)
    ensures r.v == v && r.pid == pid && r.lid == lid && r.code == code
    ensures r.float == parse(v)
  {
    Value(v, pid, lid, code, parse(v))
  }

  /** The triple that decides equality and order. */
  function Key(x: Value): seq<string>
  {
    [x.lid, x.pid, x.v]
  }

  /** `Value.__eq__` */
  predicate Eq(a: Value, b: Value)
  {
    Key(a) == Key(b)
  }

  /** `Value.__lt__` */
  predicate Lt(a: Value, b: Value)
  {
    KeyLt(Key(a), Key(b))
  }

  /** Equality ignores `code` and `float`. */
  lemma EqIgnoresCodeAndFloat(a: Value, b: Value)
    ensures Eq(a, b) <==> a.lid == b.lid && a.pid == b.pid && a.v == b.v
  {
    if Eq(a, b) { assert Key(a)[0] == Key(b)[0] && Key(a)[1] == Key(b)[1] && Key(a)[2] == Key(b)[2]; }
  }

  /** `<` is the lexicographic order on `(lid, pid, v)`. */
  lemma {:induction false} LtIsLexicographic(a: Value, b: Value)
    ensures Lt(a, b) <==>
      StrLt(a.lid, b.lid) ||
      (a.lid == b.lid && (StrLt(a.pid, b.pid) || (a.pid == b.pid && StrLt(a.v, b.v))))
  {
    var ka, kb := Key(a), Key(b);
    StrLtIrreflexive(a.lid);
    StrLtIrreflexive(a.pid);
    StrLtIrreflexive(a.v);
    var ka1, kb1 := [a.pid, a.v], [b.pid, b.v];
    var ka2, kb2 := [a.v], [b.v];
    assert ka[1..] == ka1 && kb[1..] == kb1;
    assert ka1[1..] == ka2 && kb1[1..] == kb2;
    assert ka2[1..] == [] && kb2[1..] == [];
    assert KeyLt(ka2, kb2) == StrLt(a.v, b.v);
    assert KeyLt(ka1, kb1) == if a.pid != b.pid then StrLt(a.pid, b.pid) else KeyLt(ka2, kb2);
    assert KeyLt(ka, kb) == if a.lid != b.lid then StrLt(a.lid, b.lid) else KeyLt(ka1, kb1);
  }

  /** `<` is a strict total order whose equivalence is `==`. */
  lemma LtStrictTotalOrder(a: Value, b: Value, c: Value)
    ensures !Lt(a, a)
    ensures Lt(a, b) ==> !Lt(b, a)
    ensures Lt(a, b) && Lt(b, c) ==> Lt(a, c)
    ensures Lt(a, b) || Eq(a, b) || Lt(b, a)
  {
    KeyLtIrreflexive(Key(a));
    KeyLtAsymmetric(Key(a), Key(b));
    if Lt(a, b) && Lt(b, c) { KeyLtTransitive(Key(a), Key(b), Key(c)); }
    KeyLtTotal(Key(a), Key(b));
  }

  predicate CodeRefTruthy(row: ValueRow)
  {
    row.codeRef.Some? && row.codeRef.value != ""
  }

  /** `Value.from_row`. The code is looked up only for parameters with a code
      table; a missing code raises `KeyError`. A row with neither a value nor a
      code reference makes `float(None)` raise, which Python does not catch. */
  function ValueFromRow(row: ValueRow, codes: Codes, parse: string -> Option<real>): (r: Result<Value>)
    requires CodeRefTruthy(row) || row.value.Some?
    ensures r.Ok? ==> r.value.v == (if CodeRefTruthy(row) then row.codeRef.value else row.value.value)
    ensures r.Ok? ==> r.value.lid == row.lid && r.value.pid == row.pid && r.value.float == parse(r.value.v)
    ensures r.Ok? && row.pid !in Keys(codes) ==> r.value.code == None
    ensures row.pid !in Keys(codes) ==> r.Ok?
    ensures row.pid in Keys(codes) ==>
      (r.Ok? <==> row.codeRef.Some? && Get(Get(codes, row.pid).value, row.codeRef.value).Some?)
    ensures r.Ok? && row.pid in Keys(codes) ==>
      r.value.code == Get(Get(codes, row.pid).value, row.codeRef.value)
  {
    var v := if CodeRefTruthy(row) then row.codeRef.value else row.value.value;
    match Get(codes, row.pid)
    case None => Ok(NewValue(v, row.pid, row.lid, None, parse))
    case Some(table) =>
      if row.codeRef.Some? && Get(table, row.codeRef.value).Some? then
        Ok(NewValue(v, row.pid, row.lid, Get(table, row.codeRef.value), parse))
      else Err("KeyError: code")
  }

  // ---------------------------------------------------------------------
  // MultiParameter.__init__, step by step
  // ---------------------------------------------------------------------

  predicate HasProperty(languageProperty: Option<string>)
  {
    languageProperty.Some? && languageProperty.value != ""
  }

  /** `Parameter.from_object` */
  function ParameterFromObject(obj: ParameterObject): Parameter
  {
    Parameter(obj.id, obj.name.GetOr(obj.id), Categorical, Mapping([]))
  }

  /** `{lg.id: Language.from_object(lg) for lg in LanguageTable}` */
  function LanguagesById(objs: seq<LanguageObject>, glottolog: Glottolog): (m: map<string, Option<Language>>)
    ensures forall o :: o in objs ==> o.id in m
    ensures forall k :: k in m ==> exists o :: o in objs && o.id == k && m[k] == LanguageFromObject(o, glottolog)
  {
    if objs == [] then map[]
    else
      var init, last := objs[..|objs| - 1], objs[|objs| - 1];
      var prev := LanguagesById(init, glottolog);
      assert objs == init + [last];
      assert forall o :: o in init ==> o in objs;
      prev[last.id := LanguageFromObject(last, glottolog)]
  }

  /** `{p.id: Parameter.from_object(p) for p in ParameterTable}` */
  function ParametersById(objs: seq<ParameterObject>): (m: map<string, Parameter>)
    ensures forall k :: k in m ==> m[k].id == k
  {
    if objs == [] then map[]
    else
      var last := objs[|objs| - 1];
      ParametersById(objs[..|objs| - 1])[last.id := ParameterFromObject(last)]
  }

  /** The parameter for a requested id: from ParameterTable, else named by its id. */
  function Requested(pid: string, params: map<string, Parameter>): Parameter
  {
    if pid in params then params[pid] else Parameter(pid, pid, Categorical, Mapping([]))
  }

  /** `OrderedDict([(pid, ...) for pid in pids])` */
  function RequestedParameters(pids: seq<string>, params: map<string, Parameter>): seq<(string, Parameter)>
  {
    if pids == [] then []
    else
      var last := pids[|pids| - 1];
      Put(RequestedParameters(pids[..|pids| - 1], params), last, Requested(last, params))
  }

  /** The first occurrence of each element, in order. */
  function Dedup(xs: seq<string>): (r: seq<string>)
    ensures forall x :: x in r <==> x in xs
  {
    if xs == [] then []
    else
      var init := Dedup(xs[..|xs| - 1]);
      var last := xs[|xs| - 1];
      assert forall x :: x in xs <==> x in xs[..|xs| - 1] || x == last by {
        assert xs == xs[..|xs| - 1] + [last];
      }
      if last in init then init else init + [last]
  }

  /** The requested parameters keep the order of first request, without duplicates. */
  lemma {:induction false} RequestedParametersKeys(pids: seq<string>, params: map<string, Parameter>)
    ensures Keys(RequestedParameters(pids, params)) == Dedup(pids)
    ensures DistinctKeys(RequestedParameters(pids, params))
  {
    if pids != [] {
      var init := pids[..|pids| - 1];
      var last := pids[|pids| - 1];
      RequestedParametersKeys(init, params);
      var base := RequestedParameters(init, params);
      PutKeys(base, last, Requested(last, params));
      PutDistinct(base, last, Requested(last, params));
    }
  }

  /** Each requested id maps to its ParameterTable entry, or to a parameter
      named by the id. */
  lemma {:induction false} RequestedParametersGet(pids: seq<string>, params: map<string, Parameter>, pid: string)
    requires pid in pids
    ensures Get(RequestedParameters(pids, params), pid) == Some(Requested(pid, params))
  {
    var init := pids[..|pids| - 1];
    var last := pids[|pids| - 1];
    PutGet(RequestedParameters(init, params), last, Requested(last, params), pid);
    if pid != last {
      assert pids == init + [last];
      RequestedParametersGet(init, params, pid);
    }
  }

  /** `self.parameters` after the language property or the synthetic `language`
      parameter has been added. */
  function Parameters(pids: seq<string>, params: map<string, Parameter>, languageProperty: Option<string>): seq<(string, Parameter)>
  {
    var base := RequestedParameters(pids, params);
    if HasProperty(languageProperty) then
      Put(base, languageProperty.value, Parameter(languageProperty.value, languageProperty.value, Categorical, Mapping([])))
    else if pids == [] then
      Put(base, "language", Parameter("language", "language", Categorical, Mapping([])))
    else base
  }

  /** Requested ids in order, then the language property if it is new; with
      neither ids nor property, exactly the synthetic `language` parameter. */
  lemma ParametersKeys(pids: seq<string>, params: map<string, Parameter>, languageProperty: Option<string>)
    ensures DistinctKeys(Parameters(pids, params, languageProperty))
    ensures HasProperty(languageProperty) ==>
      Keys(Parameters(pids, params, languageProperty)) ==
        Dedup(pids) + (if languageProperty.value in pids then [] else [languageProperty.value])
    ensures !HasProperty(languageProperty) && pids != [] ==> Keys(Parameters(pids, params, languageProperty)) == Dedup(pids)
    ensures !HasProperty(languageProperty) && pids == [] ==>
      Parameters(pids, params, languageProperty) == [("language", Parameter("language", "language", Categorical, Mapping([])))]
  {
    RequestedParametersKeys(pids, params);
    var base := RequestedParameters(pids, params);
    if HasProperty(languageProperty) {
      var p := Parameter(languageProperty.value, languageProperty.value, Categorical, Mapping([]));
      PutKeys(base, languageProperty.value, p);
      PutDistinct(base, languageProperty.value, p);
    } else if pids == [] {
      assert base == [];
    }
  }

  /** The code tables of the requested parameters (`codes` in `__init__`). */
  function CodeTables(rows: seq<CodeRow>, parameters: seq<(string, Parameter)>): Codes
  {
    if rows == [] then []
    else
      var codes := CodeTables(rows[..|rows| - 1], parameters);
      var row := rows[|rows| - 1];
      if row.pid in Keys(parameters) then
        Put(codes, row.pid, Put(Get(codes, row.pid).GetOr([]), row.id, row.name))
      else codes
  }

  /** Only requested parameters get a code table. */
  lemma {:induction false} CodeTablesKeys(rows: seq<CodeRow>, parameters: seq<(string, Parameter)>)
    ensures forall pid :: pid in Keys(CodeTables(rows, parameters)) ==> pid in Keys(parameters)
    ensures DistinctKeys(CodeTables(rows, parameters))
  {
    if rows != [] {
      var codes := CodeTables(rows[..|rows| - 1], parameters);
      var row := rows[|rows| - 1];
      CodeTablesKeys(rows[..|rows| - 1], parameters);
      if row.pid in Keys(parameters) {
        var t := Put(Get(codes, row.pid).GetOr([]), row.id, row.name);
        PutKeys(codes, row.pid, t);
        PutDistinct(codes, row.pid, t);
      }
    }
  }

  /** The identity mapping over `keys`. */
  function Identity(keys: seq<string>): (r: seq<(string, string)>)
    ensures Keys(r) == keys
    ensures forall i :: 0 <= i < |r| ==> r[i].1 == r[i].0
  {
    if keys == [] then [] else
      var r := [(keys[0], keys[0])] + Identity(keys[1..]);
      assert Keys(r) == [keys[0]] + Keys(Identity(keys[1..]));
      r
  }

  /** The values of a LanguageTable column; a row without it raises `KeyError`. */
  function PropertyValues(objs: seq<LanguageObject>, prop: string): (r: Result<seq<string>>)
    ensures r.Ok? <==> forall o :: o in objs ==> prop in o.props
    ensures r.Ok? ==> |r.value| == |objs| && forall i :: 0 <= i < |objs| ==> r.value[i] == objs[i].props[prop]
  {
    if objs == [] then Ok([])
    else if prop !in objs[0].props then Err("KeyError: " + prop)
    else match PropertyValues(objs[1..], prop)
      case Err(e) => Err(e)
      case Ok(rest) =>
        assert forall o :: o in objs ==> o == objs[0] || o in objs[1..];
        Ok([objs[0].props[prop]] + rest)
  }

  /** `codes`, including the sorted identity mapping of the language property. */
  function AllCodes(ds: Dataset, parameters: seq<(string, Parameter)>, languageProperty: Option<string>): Result<Codes>
  {
    var codes := if ds.codeTable.Some? then CodeTables(ds.codeTable.value, parameters) else [];
    if HasProperty(languageProperty) then
      if ds.languageTable.None? then Err("KeyError: LanguageTable")
      else match PropertyValues(ds.languageTable.value, languageProperty.value)
        case Err(e) => Err(e)
        case Ok(vals) => Ok(Put(codes, languageProperty.value, Identity(SortedDistinct(vals))))
    else Ok(codes)
  }

  /** The state `__init__` builds: `self.languages` and `self.values`. */
  datatype Collected = Collected(languages: seq<(string, Option<Language>)>, values: seq<Value>)

  /** The language a value row is attached to: the dataset's, else Glottolog's. */
  function ResolveLanguage(lid: string, langs: map<string, Option<Language>>, glottolog: Glottolog): Option<Language>
  {
    if lid in langs && langs[lid].Some? then langs[lid] else LanguageFromGlottolog(lid, glottolog)
  }

  /** Whether a value row is kept. */
  predicate Kept(row: ValueRow, parameters: seq<(string, Parameter)>, langs: map<string, Option<Language>>, glottolog: Glottolog)
  {
    row.value.Some? && row.pid in Keys(parameters) && ResolveLanguage(row.lid, langs, glottolog).Some?
  }

  /** The row as read: without a code table no `codeReference` column is read. */
  function AsRead(row: ValueRow, codes: Codes): ValueRow
  {
    if codes == [] then row.(codeRef := None) else row
  }

  function KeptFn(parameters: seq<(string, Parameter)>, langs: map<string, Option<Language>>, glottolog: Glottolog): ValueRow -> bool
  {
    row => Kept(row, parameters, langs, glottolog)
  }

  /** One iteration of the loop over ValueTable. */
  function ValueStep(st: Collected, row: ValueRow, parameters: seq<(string, Parameter)>, codes: Codes,
                     langs: map<string, Option<Language>>, glottolog: Glottolog, parse: string -> Option<real>): Result<Collected>
  {
    if Kept(row, parameters, langs, glottolog) then
      match ValueFromRow(AsRead(row, codes), codes, parse)
      case Err(e) => Err(e)
      case Ok(v) => Ok(Collected(Put(st.languages, row.lid, ResolveLanguage(row.lid, langs, glottolog)), st.values + [v]))
    else Ok(st)
  }

  /** The loop over ValueTable, up to the given prefix. */
  function CollectValues(rows: seq<ValueRow>, parameters: seq<(string, Parameter)>, codes: Codes,
                         langs: map<string, Option<Language>>, glottolog: Glottolog, parse: string -> Option<real>): Result<Collected>
  {
    if rows == [] then Ok(Collected([], []))
    else match CollectValues(rows[..|rows| - 1], parameters, codes, langs, glottolog, parse)
      case Err(e) => Err(e)
      case Ok(st) => ValueStep(st, rows[|rows| - 1], parameters, codes, langs, glottolog, parse)
  }

  /** Kept rows are exactly those with a value, a requested parameter and a
      resolvable language; each gives one value, whose language is recorded. */
  lemma {:induction false} CollectValuesSpec(rows: seq<ValueRow>, parameters: seq<(string, Parameter)>, codes: Codes,
                                             langs: map<string, Option<Language>>, glottolog: Glottolog, parse: string -> Option<real>)
    requires CollectValues(rows, parameters, codes, langs, glottolog, parse).Ok?
    ensures var st := CollectValues(rows, parameters, codes, langs, glottolog, parse).value;
      && |st.values| == |FilterSeq(rows, KeptFn(parameters, langs, glottolog))|
      && (forall v :: v in st.values ==> v.lid in Keys(st.languages) && v.pid in Keys(parameters))
      && (forall e :: e in st.languages ==> e.1.Some?)
      && DistinctKeys(st.languages)
  {
    if rows != [] {
      var init, row := rows[..|rows| - 1], rows[|rows| - 1];
      CollectValuesSpec(init, parameters, codes, langs, glottolog, parse);
      assert rows == init + [row];
      FilterSeqAppend(init, [row], KeptFn(parameters, langs, glottolog));
      var st := CollectValues(init, parameters, codes, langs, glottolog, parse).value;
      assert CollectValues(rows, parameters, codes, langs, glottolog, parse) == ValueStep(st, row, parameters, codes, langs, glottolog, parse);
      ValueStepSpec(st, row, parameters, codes, langs, glottolog, parse);
      assert FilterSeq([row], KeptFn(parameters, langs, glottolog)) == if Kept(row, parameters, langs, glottolog) then [row] else [];
    }
  }

  /** Reading `row` gives the value `v`. */
  predicate ReadAs(row: ValueRow, codes: Codes, parse: string -> Option<real>, v: Value)
  {
    var r := AsRead(row, codes);
    (CodeRefTruthy(r) || r.value.Some?) && ValueFromRow(r, codes, parse) == Ok(v)
  }

  /** The values are those of the kept rows, in row order: the `i`-th value
      is the one read from the `i`-th kept row. */
  lemma {:induction false} CollectValuesContents(rows: seq<ValueRow>, parameters: seq<(string, Parameter)>, codes: Codes,
                                                 langs: map<string, Option<Language>>, glottolog: Glottolog, parse: string -> Option<real>)
    requires CollectValues(rows, parameters, codes, langs, glottolog, parse).Ok?
    ensures var st := CollectValues(rows, parameters, codes, langs, glottolog, parse).value;
      var kept := FilterSeq(rows, KeptFn(parameters, langs, glottolog));
      && |st.values| == |kept|
      && forall i :: 0 <= i < |kept| ==> ReadAs(kept[i], codes, parse, st.values[i])
  {
    if rows != [] {
      var init, row := rows[..|rows| - 1], rows[|rows| - 1];
      CollectValuesContents(init, parameters, codes, langs, glottolog, parse);
      assert rows == init + [row];
      FilterSeqAppend(init, [row], KeptFn(parameters, langs, glottolog));
      assert FilterSeq([row], KeptFn(parameters, langs, glottolog)) == if Kept(row, parameters, langs, glottolog) then [row] else [];
    }
  }

  /** What the loop over ValueTable keeps true of `self.languages` and `self.values`. */
  ghost predicate ValuesRecorded(st: Collected, parameters: seq<(string, Parameter)>)
  {
    && (forall v :: v in st.values ==> v.lid in Keys(st.languages) && v.pid in Keys(parameters))
    && (forall e :: e in st.languages ==> e.1.Some?)
    && DistinctKeys(st.languages)
  }

  lemma ValueStepSpec(st: Collected, row: ValueRow, parameters: seq<(string, Parameter)>, codes: Codes,
                      langs: map<string, Option<Language>>, glottolog: Glottolog, parse: string -> Option<real>)
    requires ValuesRecorded(st, parameters)
    requires ValueStep(st, row, parameters, codes, langs, glottolog, parse).Ok?
    ensures ValuesRecorded(ValueStep(st, row, parameters, codes, langs, glottolog, parse).value, parameters)
    ensures |ValueStep(st, row, parameters, codes, langs, glottolog, parse).value.values|
      == |st.values| + (if Kept(row, parameters, langs, glottolog) then 1 else 0)
  {
    if Kept(row, parameters, langs, glottolog) {
      var l := ResolveLanguage(row.lid, langs, glottolog);
      PutKeys(st.languages, row.lid, l);
      PutDistinct(st.languages, row.lid, l);
      PutSomeValues(st.languages, row.lid, l);
    }
  }

  lemma {:induction false} PutSomeValues(od: seq<(string, Option<Language>)>, k: string, l: Option<Language>)
    requires l.Some? && forall e :: e in od ==> e.1.Some?
    ensures forall e :: e in Put(od, k, l) ==> e.1.Some?
  {
    if od != [] && od[0].0 != k {
      assert forall e :: e in od[1..] ==> e in od;
      PutSomeValues(od[1..], k, l);
    }
  }

  /** One iteration of the loop over LanguageTable that adds property (or
      synthetic `language`) values. */
  function LanguageStep(st: Collected, obj: LanguageObject, langs: map<string, Option<Language>>,
                        languageProperty: Option<string>, parse: string -> Option<real>): Result<Collected>
  {
    var l := if obj.id in langs then langs[obj.id] else None;
    if HasProperty(languageProperty) then
      var prop := languageProperty.value;
      if prop !in obj.props then Err("KeyError: " + prop)
      else Ok(Collected(SetDefault(st.languages, obj.id, l),
                        st.values + [NewValue(obj.props[prop], prop, obj.id, Some(prop), parse)]))
    else
      Ok(Collected(SetDefault(st.languages, obj.id, l),
                   st.values + [NewValue("y", "language", obj.id, Some("language"), parse)]))
  }

  function AddLanguageValues(st: Collected, objs: seq<LanguageObject>, langs: map<string, Option<Language>>,
                             languageProperty: Option<string>, parse: string -> Option<real>): Result<Collected>
  {
    if objs == [] then Ok(st)
    else match AddLanguageValues(st, objs[..|objs| - 1], langs, languageProperty, parse)
      case Err(e) => Err(e)
      case Ok(st') => LanguageStep(st', objs[|objs| - 1], langs, languageProperty, parse)
  }

  /** The invariant of `self.languages` and `self.values` while they are built. */
  ghost predicate Recorded(st: Collected)
  {
    DistinctKeys(st.languages) && forall v :: v in st.values ==> v.lid in Keys(st.languages)
  }

  /** One language row adds one value and records its language, keeping the
      languages recorded before. */
  lemma LanguageStepSpec(st: Collected, obj: LanguageObject, langs: map<string, Option<Language>>,
                         languageProperty: Option<string>, parse: string -> Option<real>)
    requires Recorded(st)
    requires LanguageStep(st, obj, langs, languageProperty, parse).Ok?
    ensures var st' := LanguageStep(st, obj, langs, languageProperty, parse).value;
      && Recorded(st')
      && |st'.values| == |st.values| + 1 && st'.values[..|st.values|] == st.values
      && st'.values[|st.values|].lid == obj.id
      && obj.id in Keys(st'.languages)
      && (forall k :: k in Keys(st.languages) ==> k in Keys(st'.languages))
  {
    var l := if obj.id in langs then langs[obj.id] else None;
    SetDefaultKeys(st.languages, obj.id, l);
    var st' := LanguageStep(st, obj, langs, languageProperty, parse).value;
    var v := if HasProperty(languageProperty)
      then NewValue(obj.props[languageProperty.value], languageProperty.value, obj.id, languageProperty, parse)
      else NewValue("y", "language", obj.id, Some("language"), parse);
    assert st' == Collected(SetDefault(st.languages, obj.id, l), st.values + [v]);
    assert (st.values + [v])[..|st.values|] == st.values;
  }

  /** Every language of LanguageTable gets exactly one value, appended in table
      order; every value keeps its language recorded. */
  lemma {:induction false} AddLanguageValuesSpec(st: Collected, objs: seq<LanguageObject>, langs: map<string, Option<Language>>,
                                                 languageProperty: Option<string>, parse: string -> Option<real>)
    requires Recorded(st)
    requires AddLanguageValues(st, objs, langs, languageProperty, parse).Ok?
    ensures var st' := AddLanguageValues(st, objs, langs, languageProperty, parse).value;
      && Recorded(st')
      && |st'.values| == |st.values| + |objs|
      && st'.values[..|st.values|] == st.values
      && (forall i :: 0 <= i < |objs| ==> st'.values[|st.values| + i].lid == objs[i].id)
      && (forall o :: o in objs ==> o.id in Keys(st'.languages))
  {
    if objs != [] {
      var init, obj := objs[..|objs| - 1], objs[|objs| - 1];
      AddLanguageValuesSpec(st, init, langs, languageProperty, parse);
      var s1 := AddLanguageValues(st, init, langs, languageProperty, parse).value;
      LanguageStepSpec(s1, obj, langs, languageProperty, parse);
      assert AddLanguageValues(st, objs, langs, languageProperty, parse) == LanguageStep(s1, obj, langs, languageProperty, parse);
      var s2 := LanguageStep(s1, obj, langs, languageProperty, parse).value;
      assert objs == init + [obj];
      LanguagesAddedStep(st, s1, s2, init, obj);
    }
  }

  /** `st'` is `st` with one value per language object appended, in order,
      and every object's language recorded. */
  ghost predicate LanguagesAdded(st: Collected, st': Collected, objs: seq<LanguageObject>)
  {
    && Recorded(st')
    && |st'.values| == |st.values| + |objs|
    && st'.values[..|st.values|] == st.values
    && (forall i :: 0 <= i < |objs| ==> st'.values[|st.values| + i].lid == objs[i].id)
    && (forall o :: o in objs ==> o.id in Keys(st'.languages))
  }

  lemma LanguagesAddedStep(st: Collected, s1: Collected, s2: Collected, init: seq<LanguageObject>, obj: LanguageObject)
    requires LanguagesAdded(st, s1, init)
    requires Recorded(s2) && |s2.values| == |s1.values| + 1 && s2.values[..|s1.values|] == s1.values
    requires s2.values[|s1.values|].lid == obj.id && obj.id in Keys(s2.languages)
    requires forall k :: k in Keys(s1.languages) ==> k in Keys(s2.languages)
    ensures LanguagesAdded(st, s2, init + [obj])
  {
    var objs := init + [obj];
    assert s2.values[..|st.values|] == s1.values[..|s1.values|][..|st.values|];
    forall i | 0 <= i < |objs| ensures s2.values[|st.values| + i].lid == objs[i].id {
      if i < |init| { assert s2.values[|st.values| + i] == s1.values[|st.values| + i]; }
    }
    forall o | o in objs ensures o.id in Keys(s2.languages) {
      if o != obj { assert o in init; }
    }
  }

  /** `min(v.float for v in vals)` */
  function MinFloat(vals: seq<Value>): (m: real)
    requires vals != [] && forall v :: v in vals ==> v.float.Some?
    ensures forall v :: v in vals ==> m <= v.float.value
    ensures exists v :: v in vals && v.float.value == m
  {
    if |vals| == 1 then vals[0].float.value
    else
      assert forall v :: v in vals[1..] ==> v in vals;
      var m := MinFloat(vals[1..]);
      assert forall v :: v in vals ==> v == vals[0] || v in vals[1..];
      if vals[0].float.value <= m then vals[0].float.value else m
  }

  /** `max(v.float for v in vals)` */
  function MaxFloat(vals: seq<Value>): (m: real)
    requires vals != [] && forall v :: v in vals ==> v.float.Some?
    ensures forall v :: v in vals ==> v.float.value <= m
    ensures exists v :: v in vals && v.float.value == m
  {
    if |vals| == 1 then vals[0].float.value
    else
      assert forall v :: v in vals[1..] ==> v in vals;
      var m := MaxFloat(vals[1..]);
      assert forall v :: v in vals ==> v == vals[0] || v in vals[1..];
      if vals[0].float.value >= m then vals[0].float.value else m
  }

  function ValueStrings(vals: seq<Value>): (r: seq<string>)
    ensures |r| == |vals| && forall i :: 0 <= i < |vals| ==> r[i] == vals[i].v
  {
    if vals == [] then [] else [vals[0].v] + ValueStrings(vals[1..])
  }

  /** The values of one parameter. */
  function ValuesOf(values: seq<Value>, pid: string): seq<Value>
  {
    FilterSeq(values, (v: Value) => v.pid == pid)
  }

  /** Domain inference for one parameter (the loop body over `self.parameters`). */
  function InferDomain(p: Parameter, codes: Codes, values: seq<Value>): (r: Result<Parameter>)
    ensures r.Ok? ==> r.value.id == p.id && r.value.name == p.name
  {
    match Get(codes, p.id)
    case Some(table) => Ok(p.(domain := Mapping(table)))
    case None =>
      var vals := ValuesOf(values, p.id);
      if forall v :: v in vals ==> v.float.Some? then
        if vals == [] then Err("ValueError: min() arg is an empty sequence")
        else Ok(p.(kind := Continuous, domain := Range(MinFloat(vals), MaxFloat(vals))))
      else Ok(p.(domain := Mapping(Identity(SortedDistinct(ValueStrings(vals))))))
  }

  /** A parameter with a code table takes it as its domain. */
  lemma InferDomainCoded(p: Parameter, codes: Codes, values: seq<Value>)
    requires p.id in Keys(codes)
    ensures InferDomain(p, codes, values) == Ok(p.(domain := Mapping(Get(codes, p.id).value)))
  {
  }

  /** Without a code table, a parameter whose values all parse as numbers is
      continuous over the closed range from their minimum to their maximum;
      with no value at all, inference fails (`min` of nothing). */
  lemma InferDomainNumeric(p: Parameter, codes: Codes, values: seq<Value>)
    requires p.id !in Keys(codes)
    requires forall v :: v in ValuesOf(values, p.id) ==> v.float.Some?
    ensures var vals, r := ValuesOf(values, p.id), InferDomain(p, codes, values);
      if vals == [] then r.Err?
      else (r.Ok? && r.value.kind == Continuous && r.value.domain.Range?
        && (forall v :: v in vals ==> r.value.domain.lo <= v.float.value <= r.value.domain.hi)
        && (exists v :: v in vals && v.float.value == r.value.domain.lo)
        && (exists v :: v in vals && v.float.value == r.value.domain.hi))
  {
  }

  /** Otherwise the domain maps each distinct value to itself, in ascending
      order, and the kind is unchanged. */
  lemma InferDomainCategorical(p: Parameter, codes: Codes, values: seq<Value>)
    requires p.id !in Keys(codes)
    requires exists v :: v in ValuesOf(values, p.id) && v.float.None?
    ensures var vals, r := ValuesOf(values, p.id), InferDomain(p, codes, values);
      r.Ok? && r.value.kind == p.kind && r.value.domain.Mapping?
      && StrictlySorted(Keys(r.value.domain.entries))
      && (forall k :: k in Keys(r.value.domain.entries) <==> exists v :: v in vals && v.v == k)
      && (forall i :: 0 <= i < |r.value.domain.entries| ==> r.value.domain.entries[i].1 == r.value.domain.entries[i].0)
  {
    var vals := ValuesOf(values, p.id);
    var strs := ValueStrings(vals);
    SortedDistinctSorted(strs);
    forall k ensures k in strs <==> exists v :: v in vals && v.v == k {
      if k in strs {
        var i :| 0 <= i < |vals| && strs[i] == k;
        assert vals[i] in vals;
      }
      if exists v :: v in vals && v.v == k {
        var v :| v in vals && v.v == k;
        var i :| 0 <= i < |vals| && vals[i] == v;
        assert strs[i] == k;
      }
    }
  }

  /** The loop over `self.parameters.values()` that sets each domain; the first
      failure aborts it. */
  function InferDomains(parameters: seq<(string, Parameter)>, codes: Codes, values: seq<Value>): Result<seq<(string, Parameter)>>
  {
    if parameters == [] then Ok([])
    else
      match InferDomains(parameters[..|parameters| - 1], codes, values)
      case Err(e) => Err(e)
      case Ok(ps) =>
        match InferDomain(parameters[|parameters| - 1].1, codes, values)
        case Err(e) => Err(e)
        case Ok(p) => Ok(ps + [(parameters[|parameters| - 1].0, p)])
  }

  /** Inference succeeds exactly when it succeeds for every parameter; the
      parameters keep their ids and order, each with its inferred domain. */
  lemma {:induction false} InferDomainsSpec(parameters: seq<(string, Parameter)>, codes: Codes, values: seq<Value>)
    ensures var r := InferDomains(parameters, codes, values);
      && (r.Ok? <==> forall i :: 0 <= i < |parameters| ==> InferDomain(parameters[i].1, codes, values).Ok?)
      && (r.Ok? ==> |r.value| == |parameters|)
      && (r.Ok? ==> forall i :: 0 <= i < |parameters| ==>
            r.value[i].0 == parameters[i].0 && InferDomain(parameters[i].1, codes, values) == Ok(r.value[i].1))
  {
    InferDomainsMap(parameters, codes, values);
    MapResultSpec(parameters, InferEntry(codes, values));
  }

  /** Inference of one parameter, keeping its id. */
  function InferEntry(codes: Codes, values: seq<Value>): ((string, Parameter)) -> Result<(string, Parameter)>
  {
    (p: (string, Parameter)) =>
      match InferDomain(p.1, codes, values)
      case Err(e) => Err(e)
      case Ok(d) => Ok((p.0, d))
  }

  lemma {:induction false} InferDomainsMap(parameters: seq<(string, Parameter)>, codes: Codes, values: seq<Value>)
    ensures InferDomains(parameters, codes, values) == MapResult(parameters, InferEntry(codes, values))
  {
    if parameters != [] {
      InferDomainsMap(parameters[..|parameters| - 1], codes, values);
    }
  }

  /** After inference the parameters have the same keys, in the same order. */
  lemma InferDomainsKeys(parameters: seq<(string, Parameter)>, codes: Codes, values: seq<Value>)
    requires InferDomains(parameters, codes, values).Ok?
    ensures Keys(InferDomains(parameters, codes, values).value) == Keys(parameters)
  {
    InferDomainsSpec(parameters, codes, values);
    var r := InferDomains(parameters, codes, values).value;
    assert forall i :: 0 <= i < |r| ==> Keys(r)[i] == Keys(parameters)[i];
  }

  /** The whole of `MultiParameter.__init__` as a value. */
  datatype State = State(parameters: seq<(string, Parameter)>, languages: seq<(string, Option<Language>)>, values: seq<Value>)

  function Build(ds: Dataset, pids: seq<string>, glottolog: Glottolog, languageProperty: Option<string>,
                 parse: string -> Option<real>): Result<State>
  {
    var langs := if ds.languageTable.Some? then LanguagesById(ds.languageTable.value, glottolog) else map[];
    var params := if ds.parameterTable.Some? then ParametersById(ds.parameterTable.value) else map[];
    var parameters := Parameters(pids, params, languageProperty);
    match AllCodes(ds, parameters, languageProperty)
    case Err(e) => Err(e)
    case Ok(codes) =>
      match CollectValues(ds.valueTable, parameters, codes, langs, glottolog, parse)
      case Err(e) => Err(e)
      case Ok(st) =>
        var withLanguages :=
          if HasProperty(languageProperty) || pids == [] then
            if ds.languageTable.None? then Err("KeyError: LanguageTable")
            else AddLanguageValues(st, ds.languageTable.value, langs, languageProperty, parse)
          else Ok(st);
        match withLanguages
        case Err(e) => Err(e)
        case Ok(st') =>
          match InferDomains(parameters, codes, st'.values)
          case Err(e) => Err(e)
          case Ok(ps) => Ok(State(ps, st'.languages, st'.values))
  }

  /** After construction every value's language is in `languages`, and
      `parameters` and `languages` have distinct keys. */
  lemma BuildValid(ds: Dataset, pids: seq<string>, glottolog: Glottolog, languageProperty: Option<string>,
                   parse: string -> Option<real>)
    requires Build(ds, pids, glottolog, languageProperty, parse).Ok?
    ensures var s := Build(ds, pids, glottolog, languageProperty, parse).value;
      DistinctKeys(s.parameters) && DistinctKeys(s.languages) &&
      forall v :: v in s.values ==> v.lid in Keys(s.languages)
  {
    var langs := if ds.languageTable.Some? then LanguagesById(ds.languageTable.value, glottolog) else map[];
    var params := if ds.parameterTable.Some? then ParametersById(ds.parameterTable.value) else map[];
    var parameters := Parameters(pids, params, languageProperty);
    ParametersKeys(pids, params, languageProperty);
    var codes := AllCodes(ds, parameters, languageProperty).value;
    CollectValuesSpec(ds.valueTable, parameters, codes, langs, glottolog, parse);
    var st := CollectValues(ds.valueTable, parameters, codes, langs, glottolog, parse).value;
    if (HasProperty(languageProperty) || pids == []) && ds.languageTable.Some? {
      AddLanguageValuesSpec(st, ds.languageTable.value, langs, languageProperty, parse);
    }
    var s := Build(ds, pids, glottolog, languageProperty, parse).value;
    InferDomainsKeys(parameters, codes, s.values);
    KeysDistinct(s.parameters, parameters);
  }

  /** Distinctness depends on the keys only. */
  lemma KeysDistinct<V, W>(a: seq<(string, V)>, b: seq<(string, W)>)
    requires Keys(a) == Keys(b) && DistinctKeys(b)
    ensures DistinctKeys(a)
  {
    forall i, j | 0 <= i < j < |a| ensures a[i].0 != a[j].0 {
      assert Keys(a)[i] == b[i].0 && Keys(a)[j] == b[j].0;
    }
  }

  // ---------------------------------------------------------------------
  // iter_languages
  // ---------------------------------------------------------------------

  function Lids(values: seq<Value>): (r: seq<string>)
    ensures |r| == |values| && forall i :: 0 <= i < |values| ==> r[i] == values[i].lid
  {
    if values == [] then [] else [values[0].lid] + Lids(values[1..])
  }

  /** The values of one language and one parameter, in sorted order: the run
      `itertools.groupby` yields for them from the sorted values. */
  function Group(sorted: seq<Value>, lid: string, pid: string): seq<Value>
  {
    FilterSeq(sorted, (v: Value) => v.lid == lid && v.pid == pid)
  }

  /** The per-parameter lists of one language, in parameter order, with `[]`
      for a parameter without values. */
  function Groups(sorted: seq<Value>, lid: string, pids: seq<string>): (r: seq<(string, seq<Value>)>)
    ensures Keys(r) == pids
    ensures forall i :: 0 <= i < |pids| ==> r[i].1 == Group(sorted, lid, pids[i])
  {
    if pids == [] then []
    else
      var r := [(pids[0], Group(sorted, lid, pids[0]))] + Groups(sorted, lid, pids[1..]);
      assert Keys(r) == [pids[0]] + Keys(Groups(sorted, lid, pids[1..]));
      r
  }

  predicate AllNonEmpty(groups: seq<(string, seq<Value>)>)
  {
    forall i :: 0 <= i < |groups| ==> groups[i].1 != []
  }

  /** One item yielded by `iter_languages`, with the language id it belongs to. */
  datatype Entry = Entry(lid: string, language: Option<Language>, groups: seq<(string, seq<Value>)>)

  /** `self.languages[lid]` */
  function LanguageOf(languages: seq<(string, Option<Language>)>, lid: string): Option<Language>
  {
    match Get(languages, lid)
    case Some(l) => l
    case None => None
  }

  /** The entries for the given language ids, dropping incomplete ones unless
      `includeMissing`. */
  function EntriesFor(lids: seq<string>, sorted: seq<Value>, pids: seq<string>,
                      languages: seq<(string, Option<Language>)>, includeMissing: bool): seq<Entry>
  {
    if lids == [] then []
    else
      var lid := lids[|lids| - 1];
      var groups := Groups(sorted, lid, pids);
      EntriesFor(lids[..|lids| - 1], sorted, pids, languages, includeMissing) +
        (if includeMissing || AllNonEmpty(groups) then [Entry(lid, LanguageOf(languages, lid), groups)] else [])
  }

  lemma EntriesForStep(lids: seq<string>, i: nat, sorted: seq<Value>, pids: seq<string>,
                       languages: seq<(string, Option<Language>)>, includeMissing: bool)
    requires i < |lids|
    ensures EntriesFor(lids[..i + 1], sorted, pids, languages, includeMissing) ==
      EntriesFor(lids[..i], sorted, pids, languages, includeMissing) +
        (if includeMissing || AllNonEmpty(Groups(sorted, lids[i], pids))
         then [Entry(lids[i], LanguageOf(languages, lids[i]), Groups(sorted, lids[i], pids))] else [])
  {
    assert lids[..i + 1][..i] == lids[..i];
  }

  /** Each entry belongs to one of the ids, holds that language's groups and
      language, and is complete unless `includeMissing`. */
  lemma {:induction false} EntriesForSound(lids: seq<string>, sorted: seq<Value>, pids: seq<string>,
                                           languages: seq<(string, Option<Language>)>, includeMissing: bool)
    ensures forall e :: e in EntriesFor(lids, sorted, pids, languages, includeMissing) ==>
      && e.lid in lids
      && e.groups == Groups(sorted, e.lid, pids)
      && e.language == LanguageOf(languages, e.lid)
      && (includeMissing || AllNonEmpty(e.groups))
  {
    if lids != [] {
      var init := lids[..|lids| - 1];
      EntriesForSound(init, sorted, pids, languages, includeMissing);
      assert lids == init + [lids[|lids| - 1]];
    }
  }

  /** Every id whose groups are complete (or every id, with `includeMissing`)
      has an entry. */
  lemma {:induction false} EntriesForComplete(lids: seq<string>, sorted: seq<Value>, pids: seq<string>,
                                              languages: seq<(string, Option<Language>)>, includeMissing: bool, lid: string)
    requires lid in lids
    requires includeMissing || AllNonEmpty(Groups(sorted, lid, pids))
    ensures exists e :: e in EntriesFor(lids, sorted, pids, languages, includeMissing) && e.lid == lid
  {
    var init, last := lids[..|lids| - 1], lids[|lids| - 1];
    var es := EntriesFor(lids, sorted, pids, languages, includeMissing);
    if lid == last {
      assert es[|es| - 1].lid == lid;
    } else {
      assert lids == init + [last];
      EntriesForComplete(init, sorted, pids, languages, includeMissing, lid);
      var e :| e in EntriesFor(init, sorted, pids, languages, includeMissing) && e.lid == lid;
      assert e in es;
    }
  }

  ghost predicate AscendingLids(es: seq<Entry>)
  {
    forall i, j :: 0 <= i < j < |es| ==> StrLt(es[i].lid, es[j].lid)
  }

  /** Entries built from a strictly ascending id sequence are strictly ascending. */
  lemma {:induction false} EntriesForAscending(lids: seq<string>, sorted: seq<Value>, pids: seq<string>,
                                               languages: seq<(string, Option<Language>)>, includeMissing: bool)
    requires StrictlySorted(lids)
    ensures AscendingLids(EntriesFor(lids, sorted, pids, languages, includeMissing))
  {
    if lids != [] {
      var init, lid := lids[..|lids| - 1], lids[|lids| - 1];
      assert StrictlySorted(init);
      EntriesForAscending(init, sorted, pids, languages, includeMissing);
      EntriesForSound(init, sorted, pids, languages, includeMissing);
      var es0 := EntriesFor(init, sorted, pids, languages, includeMissing);
      assert AscendingLids(es0);
      forall e | e in es0 ensures StrLt(e.lid, lid) {
        var k :| 0 <= k < |init| && init[k] == e.lid;
        assert lids[k] == e.lid;
      }
      var es := EntriesFor(lids, sorted, pids, languages, includeMissing);
      forall i, j | 0 <= i < j < |es| ensures StrLt(es[i].lid, es[j].lid) {
        assert es[i] == es0[i];
        if j < |es0| {
          assert es[j] == es0[j];
          assert StrLt(es0[i].lid, es0[j].lid);
        } else {
          assert es[i] in es0 && es[j].lid == lid;
          assert StrLt(es[i].lid, lid);
        }
      }
    }
  }

  /** A group, taken from the sorted values, is sorted and holds exactly the
      values of its language and parameter, counted with multiplicity. */
  lemma GroupSpec(values: seq<Value>, lid: string, pid: string)
    ensures SortedBy(Group(SortBy(values, Key), lid, pid), Key)
    ensures multiset(Group(SortBy(values, Key), lid, pid)) ==
            multiset(FilterSeq(values, (v: Value) => v.lid == lid && v.pid == pid))
  {
    var p := (v: Value) => v.lid == lid && v.pid == pid;
    SortBySorted(values, Key);
    FilterSorted(SortBy(values, Key), p);
    forall x ensures multiset(FilterSeq(SortBy(values, Key), p))[x] == multiset(FilterSeq(values, p))[x] {
      FilterCount(SortBy(values, Key), p, x);
      FilterCount(values, p, x);
    }
  }

  lemma {:induction false} FilterSorted(s: seq<Value>, p: Value -> bool)
    requires SortedBy(s, Key)
    ensures SortedBy(FilterSeq(s, p), Key)
  {
    if s != [] {
      assert SortedBy(s[1..], Key);
      FilterSorted(s[1..], p);
      var t := FilterSeq(s[1..], p);
      forall j | 0 <= j < |t| ensures KeyLe(Key(s[0]), Key(t[j])) {
        assert t[j] in s[1..];
        var k :| 0 <= k < |s[1..]| && s[1..][k] == t[j];
        assert s[k + 1] == t[j];
      }
    }
  }

  /** Filtering keeps every occurrence of a selected element and none of the others. */
  lemma {:induction false} FilterCount(s: seq<Value>, p: Value -> bool, x: Value)
    ensures multiset(FilterSeq(s, p))[x] == if p(x) then multiset(s)[x] else 0
  {
    if s != [] {
      FilterCount(s[1..], p, x);
      assert s == [s[0]] + s[1..];
    }
  }

  /** The entries with language ids in `lids` belong to recorded languages. */
  lemma LidsRecorded(values: seq<Value>, languages: seq<(string, Option<Language>)>, lid: string)
    requires forall v :: v in values ==> v.lid in Keys(languages)
    requires lid in SortedDistinct(Lids(values))
    ensures lid in Keys(languages)
  {
    var k :| 0 <= k < |values| && Lids(values)[k] == lid;
    assert values[k] in values;
  }

  // ---------------------------------------------------------------------
  // The MultiParameter object
  // ---------------------------------------------------------------------

  class MultiParameter {
    var parameters: seq<(string, Parameter)>
    var languages: seq<(string, Option<Language>)>
    var values: seq<Value>
    var includeMissing: bool

    ghost predicate Valid()
      reads this
    {
      DistinctKeys(parameters) && DistinctKeys(languages) &&
      forall v :: v in values ==> v.lid in Keys(languages)
    }

    constructor FromState(s: State, includeMissing: bool)
      requires DistinctKeys(s.parameters) && DistinctKeys(s.languages)
      requires forall v :: v in s.values ==> v.lid in Keys(s.languages)
      ensures Valid()
      ensures parameters == s.parameters && languages == s.languages && values == s.values
      ensures this.includeMissing == includeMissing
    {
      parameters := s.parameters;
      languages := s.languages;
      values := s.values;
      this.includeMissing := includeMissing;
    }

    /** `MultiParameter(ds, pids, include_missing, glottolog, language_property)`;
        `Err` where the Python constructor raises. */
    static method Create(ds: Dataset, pids: seq<string>, includeMissing: bool, glottolog: Glottolog,
                         languageProperty: Option<string>, parse: string -> Option<real>)
      returns (r: Result<MultiParameter>)
      ensures r.Ok? <==> Build(ds, pids, glottolog, languageProperty, parse).Ok?
      ensures r.Ok? ==> fresh(r.value) && r.value.Valid() && r.value.includeMissing == includeMissing
      ensures r.Ok? ==> var s := Build(ds, pids, glottolog, languageProperty, parse).value;
        r.value.parameters == s.parameters && r.value.languages == s.languages && r.value.values == s.values
    {
      var st := BuildState(ds, pids, glottolog, languageProperty, parse);
      if st.Err? {
        return Err(st.reason);
      }
      BuildValid(ds, pids, glottolog, languageProperty, parse);
      var mp := new MultiParameter.FromState(st.value, includeMissing);
      return Ok(mp);
    }

    /** `iter_languages`: one entry per language with values, in ascending id
        order (see `IterationEntries` for what each entry holds). */
    method IterLanguages() returns (out: seq<Entry>)
      requires Valid()
      ensures out == Iteration(values, parameters, languages, includeMissing)
    {
      var langs, missing := languages, includeMissing;
      var sorted := SortBy(values, Key);
      var lids := SortedDistinct(Lids(values));
      var pids := Keys(parameters);
      out := [];
      var i := 0;
      while i < |lids|
        invariant 0 <= i <= |lids|
        invariant out == EntriesFor(lids[..i], sorted, pids, langs, missing)
      {
        var lid := lids[i];
        var groups := Groups(sorted, lid, pids);
        EntriesForStep(lids, i, sorted, pids, langs, missing);
        ghost var before := out;
        if missing || AllNonEmpty(groups) {
          out := out + [Entry(lid, LanguageOf(langs, lid), groups)];
        }
        assert out == before + (if missing || AllNonEmpty(groups) then [Entry(lid, LanguageOf(langs, lid), groups)] else []);
        i := i + 1;
      }
      assert lids[..i] == lids;
    }
  }

  /** The steps of `MultiParameter.__init__`, each loop in its own method. */
  method BuildState(ds: Dataset, pids: seq<string>, glottolog: Glottolog,
                    languageProperty: Option<string>, parse: string -> Option<real>)
    returns (r: Result<State>)
    ensures r == Build(ds, pids, glottolog, languageProperty, parse)
  {
    var langs := if ds.languageTable.Some? then LanguagesById(ds.languageTable.value, glottolog) else map[];
    var params := if ds.parameterTable.Some? then ParametersById(ds.parameterTable.value) else map[];
    var parameters := ResolveParameters(pids, params, languageProperty);
    var codes := AllCodes(ds, parameters, languageProperty);
    if codes.Err? {
      return Err(codes.reason);
    }
    var st := CollectValueRows(ds.valueTable, parameters, codes.value, langs, glottolog, parse);
    if st.Err? {
      return Err(st.reason);
    }
    var collected := st.value;
    if HasProperty(languageProperty) || pids == [] {
      if ds.languageTable.None? {
        return Err("KeyError: LanguageTable");
      }
      var st' := AddLanguageRows(collected, ds.languageTable.value, langs, languageProperty, parse);
      if st'.Err? {
        return Err(st'.reason);
      }
      collected := st'.value;
    }
    var ps := SetDomains(parameters, codes.value, collected.values);
    if ps.Err? {
      return Err(ps.reason);
    }
    return Ok(State(ps.value, collected.languages, collected.values));
  }

  /** What `iter_languages` yields for the given state. */
  function Iteration(values: seq<Value>, parameters: seq<(string, Parameter)>,
                     languages: seq<(string, Option<Language>)>, includeMissing: bool): seq<Entry>
  {
    EntriesFor(SortedDistinct(Lids(values)), SortBy(values, Key), Keys(parameters), languages, includeMissing)
  }

  /** The entries come in strictly ascending language id order. */
  lemma IterationAscending(values: seq<Value>, parameters: seq<(string, Parameter)>,
                           languages: seq<(string, Option<Language>)>, includeMissing: bool)
    ensures AscendingLids(Iteration(values, parameters, languages, includeMissing))
  {
    SortedDistinctSorted(Lids(values));
    EntriesForAscending(SortedDistinct(Lids(values)), SortBy(values, Key), Keys(parameters), languages, includeMissing);
    assert Iteration(values, parameters, languages, includeMissing) ==
      EntriesFor(SortedDistinct(Lids(values)), SortBy(values, Key), Keys(parameters), languages, includeMissing);
  }

  /** Each entry holds the recorded language of its id and, for every parameter
      in order, the values of that language and parameter in sorted order; an
      entry lacking some parameter's values appears only with `includeMissing`. */
  lemma IterationEntries(values: seq<Value>, parameters: seq<(string, Parameter)>,
                         languages: seq<(string, Option<Language>)>, includeMissing: bool)
    requires forall v :: v in values ==> v.lid in Keys(languages)
    ensures forall e :: e in Iteration(values, parameters, languages, includeMissing) ==>
      && e.lid in Keys(languages)
      && e.language == Get(languages, e.lid).value
      && Keys(e.groups) == Keys(parameters)
      && (forall i :: 0 <= i < |parameters| ==> e.groups[i].1 == Group(SortBy(values, Key), e.lid, parameters[i].0))
      && (includeMissing || AllNonEmpty(e.groups))
  {
    var sorted := SortBy(values, Key);
    var lids := SortedDistinct(Lids(values));
    var pids := Keys(parameters);
    EntriesForSound(lids, sorted, pids, languages, includeMissing);
    forall e | e in Iteration(values, parameters, languages, includeMissing)
      ensures e.lid in Keys(languages) && e.language == Get(languages, e.lid).value
    {
      LidsRecorded(values, languages, e.lid);
    }
  }

  /** Every language with values whose entry is complete (or any, with
      `includeMissing`) is yielded. */
  lemma IterationComplete(values: seq<Value>, parameters: seq<(string, Parameter)>,
                          languages: seq<(string, Option<Language>)>, includeMissing: bool, v: Value)
    requires v in values
    requires includeMissing || AllNonEmpty(Groups(SortBy(values, Key), v.lid, Keys(parameters)))
    ensures exists e :: e in Iteration(values, parameters, languages, includeMissing) && e.lid == v.lid
  {
    var k :| 0 <= k < |values| && values[k] == v;
    assert Lids(values)[k] == v.lid;
    EntriesForComplete(SortedDistinct(Lids(values)), SortBy(values, Key), Keys(parameters), languages, includeMissing, v.lid);
  }

  // ---------------------------------------------------------------------
  // Loops of __init__, proved against the step functions above
  // ---------------------------------------------------------------------

  /** The requested parameters, then the language property or `language`. */
  method ResolveParameters(pids: seq<string>, params: map<string, Parameter>, languageProperty: Option<string>)
    returns (ps: seq<(string, Parameter)>)
    ensures ps == Parameters(pids, params, languageProperty)
    ensures forall pid :: pid in pids && !(HasProperty(languageProperty) && pid == languageProperty.value) ==>
      Get(ps, pid) == Some(Requested(pid, params))
  {
    ps := [];
    var i := 0;
    while i < |pids|
      invariant 0 <= i <= |pids|
      invariant ps == RequestedParameters(pids[..i], params)
    {
      assert pids[..i + 1][..i] == pids[..i];
      ps := Put(ps, pids[i], Requested(pids[i], params));
      i := i + 1;
    }
    assert pids[..i] == pids;
    var requested := ps;
    if HasProperty(languageProperty) {
      ps := Put(ps, languageProperty.value, Parameter(languageProperty.value, languageProperty.value, Categorical, Mapping([])));
    } else if pids == [] {
      ps := Put(ps, "language", Parameter("language", "language", Categorical, Mapping([])));
    }
    forall pid | pid in pids && !(HasProperty(languageProperty) && pid == languageProperty.value)
      ensures Get(ps, pid) == Some(Requested(pid, params))
    {
      RequestedParametersGet(pids, params, pid);
      if HasProperty(languageProperty) {
        PutGet(requested, languageProperty.value, Parameter(languageProperty.value, languageProperty.value, Categorical, Mapping([])), pid);
      }
    }
  }

  /** The loop over ValueTable. */
  method CollectValueRows(rows: seq<ValueRow>, parameters: seq<(string, Parameter)>, codes: Codes,
                          langs: map<string, Option<Language>>, glottolog: Glottolog, parse: string -> Option<real>)
    returns (r: Result<Collected>)
    ensures r == CollectValues(rows, parameters, codes, langs, glottolog, parse)
    ensures r.Ok? ==> |r.value.values| == |FilterSeq(rows, row => Kept(row, parameters, langs, glottolog))|
    ensures r.Ok? ==> forall v :: v in r.value.values ==> v.lid in Keys(r.value.languages) && v.pid in Keys(parameters)
  {
    var languages: seq<(string, Option<Language>)> := [];
    var values: seq<Value> := [];
    var i := 0;
    while i < |rows|
      invariant 0 <= i <= |rows|
      invariant CollectValues(rows[..i], parameters, codes, langs, glottolog, parse) == Ok(Collected(languages, values))
    {
      assert rows[..i + 1][..i] == rows[..i];
      var row := rows[i];
      if row.value.Some? && row.pid in Keys(parameters) {
        var lang := ResolveLanguage(row.lid, langs, glottolog);
        if lang.Some? {
          var v := ValueFromRow(AsRead(row, codes), codes, parse);
          if v.Err? {
            r := Err(v.reason);
            CollectValuesErr(rows, i + 1, parameters, codes, langs, glottolog, parse);
            return;
          }
          languages := Put(languages, row.lid, lang);
          values := values + [v.value];
        }
      }
      i := i + 1;
    }
    assert rows[..i] == rows;
    r := Ok(Collected(languages, values));
    CollectValuesSpec(rows, parameters, codes, langs, glottolog, parse);
  }

  /** The loop over LanguageTable for a language property or the synthetic parameter. */
  method AddLanguageRows(st: Collected, objs: seq<LanguageObject>, langs: map<string, Option<Language>>,
                         languageProperty: Option<string>, parse: string -> Option<real>)
    returns (r: Result<Collected>)
    ensures r == AddLanguageValues(st, objs, langs, languageProperty, parse)
    ensures r.Ok? ==> |r.value.values| == |st.values| + |objs|
  {
    var cur := st;
    var i := 0;
    while i < |objs|
      invariant 0 <= i <= |objs|
      invariant AddLanguageValues(st, objs[..i], langs, languageProperty, parse) == Ok(cur)
      invariant |cur.values| == |st.values| + i
    {
      assert objs[..i + 1][..i] == objs[..i];
      var obj := objs[i];
      var l := if obj.id in langs then langs[obj.id] else None;
      if HasProperty(languageProperty) {
        if languageProperty.value !in obj.props {
          r := Err("KeyError: " + languageProperty.value);
          AddLanguageValuesErr(st, objs, i + 1, langs, languageProperty, parse);
          return;
        }
        cur := Collected(SetDefault(cur.languages, obj.id, l),
                         cur.values + [NewValue(obj.props[languageProperty.value], languageProperty.value, obj.id,
                                                Some(languageProperty.value), parse)]);
      } else {
        cur := Collected(SetDefault(cur.languages, obj.id, l),
                         cur.values + [NewValue("y", "language", obj.id, Some("language"), parse)]);
      }
      i := i + 1;
    }
    assert objs[..i] == objs;
    return Ok(cur);
  }

  /** The loop that infers every parameter's domain, in parameter order. */
  method SetDomains(parameters: seq<(string, Parameter)>, codes: Codes, values: seq<Value>)
    returns (r: Result<seq<(string, Parameter)>>)
    ensures r == InferDomains(parameters, codes, values)
    ensures r.Ok? ==> Keys(r.value) == Keys(parameters)
  {
    var ps: seq<(string, Parameter)> := [];
    var i := 0;
    while i < |parameters|
      invariant 0 <= i <= |parameters|
      invariant InferDomains(parameters[..i], codes, values) == Ok(ps)
    {
      assert parameters[..i + 1][..i] == parameters[..i];
      var p := InferDomain(parameters[i].1, codes, values);
      if p.Err? {
        r := Err(p.reason);
        InferDomainsErr(parameters, i + 1, codes, values);
        return;
      }
      ps := ps + [(parameters[i].0, p.value)];
      i := i + 1;
    }
    assert parameters[..i] == parameters;
    r := Ok(ps);
    InferDomainsKeys(parameters, codes, values);
  }

  // A failure ends each loop: the rest of the input is not looked at.

  lemma {:induction false} CollectValuesErr(rows: seq<ValueRow>, n: nat, parameters: seq<(string, Parameter)>, codes: Codes,
                                            langs: map<string, Option<Language>>, glottolog: Glottolog, parse: string -> Option<real>)
    requires n <= |rows| && CollectValues(rows[..n], parameters, codes, langs, glottolog, parse).Err?
    ensures CollectValues(rows, parameters, codes, langs, glottolog, parse) == CollectValues(rows[..n], parameters, codes, langs, glottolog, parse)
  {
    if n == |rows| {
      assert rows[..n] == rows;
    } else {
      assert rows[..|rows| - 1][..n] == rows[..n];
      CollectValuesErr(rows[..|rows| - 1], n, parameters, codes, langs, glottolog, parse);
    }
  }

  lemma {:induction false} AddLanguageValuesErr(st: Collected, objs: seq<LanguageObject>, n: nat, langs: map<string, Option<Language>>,
                                                languageProperty: Option<string>, parse: string -> Option<real>)
    requires n <= |objs| && AddLanguageValues(st, objs[..n], langs, languageProperty, parse).Err?
    ensures AddLanguageValues(st, objs, langs, languageProperty, parse) == AddLanguageValues(st, objs[..n], langs, languageProperty, parse)
  {
    if n == |objs| {
      assert objs[..n] == objs;
    } else {
      assert objs[..|objs| - 1][..n] == objs[..n];
      AddLanguageValuesErr(st, objs[..|objs| - 1], n, langs, languageProperty, parse);
    }
  }

  lemma {:induction false} InferDomainsErr(parameters: seq<(string, Parameter)>, n: nat, codes: Codes, values: seq<Value>)
    requires n <= |parameters| && InferDomains(parameters[..n], codes, values).Err?
    ensures InferDomains(parameters, codes, values) == InferDomains(parameters[..n], codes, values)
  {
    if n == |parameters| {
      assert parameters[..n] == parameters;
    } else {
      assert parameters[..|parameters| - 1][..n] == parameters[..n];
      InferDomainsErr(parameters[..|parameters| - 1], n, codes, values);
    }
  }
}
