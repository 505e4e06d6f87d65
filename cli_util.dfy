/**
 * `cldfviz.cli_util`: option handling shared by the commands. Language filters
 * given as a JSON object select LanguageTable rows; the colormap option list is
 * defaulted and checked against the parameters; `--tree` is resolved as a
 * Glottocode, a Newick file or an inline Newick string, or a tree is picked
 * from a TreeTable and optionally relabelled with Glottocodes.
 *
 * Regular expression search, the Glottocode pattern, the file system, Newick
 * parsing and Glottolog are parameters of the model.
 */
module CliUtil {
  import opened Common
  import opened Datum
  import opened Multiparameter
  import opened Colormaps
  import opened Trees

  // ---------------------------------------------------------------------
  // join_quoted
  // ---------------------------------------------------------------------

  function Quote(s: string): string
  {
    "\"" + s + "\""
  }

  function QuoteAll(items: seq<string>): (r: seq<string>)
    ensures |r| == |items|
    ensures forall i :: 0 <= i < |items| ==> r[i] == Quote(items[i])
  {
    seq(|items|, i requires 0 <= i < |items| => Quote(items[i]))
  }

  /** `join_quoted(items)` */
  function JoinQuoted(items: seq<string>): string
  {
    Join(", ", QuoteAll(items))
  }

  lemma {:induction false} QuoteAllLength(items: seq<string>)
    ensures TotalLength(QuoteAll(items)) == TotalLength(items) + 2 * |items|
  {
    if items != [] {
      QuoteAllLength(items[1..]);
      assert QuoteAll(items)[1..] == QuoteAll(items[1..]);
    }
  }

  /** No items give the empty string; otherwise every item is wrapped in double
      quotes and neighbours are separated by `", "`. */
  lemma JoinQuotedSpec(items: seq<string>)
    ensures items == [] ==> JoinQuoted(items) == ""
    ensures items != [] ==> |JoinQuoted(items)| == TotalLength(items) + 2 * |items| + 2 * (|items| - 1)
    ensures items != [] ==> JoinQuoted(items)[0] == '"' && JoinQuoted(items)[|JoinQuoted(items)| - 1] == '"'
    ensures |items| == 1 ==> JoinQuoted(items) == "\"" + items[0] + "\""
  {
    if items != [] {
      JoinLength(", ", QuoteAll(items));
      QuoteAllLength(items);
      JoinEnds(QuoteAll(items));
    }
  }

  lemma {:induction false} JoinEnds(parts: seq<string>)
    requires parts != [] && forall i :: 0 <= i < |parts| ==> |parts[i]| >= 2 && parts[i][0] == '"' && parts[i][|parts[i]| - 1] == '"'
    ensures |Join(", ", parts)| >= 2
    ensures Join(", ", parts)[0] == '"' && Join(", ", parts)[|Join(", ", parts)| - 1] == '"'
    decreases |parts|
  {
    if |parts| > 1 {
      JoinEnds(parts[1..]);
    }
  }

  /** Adding an item appends it, quoted, after a separator. */
  lemma JoinQuotedAppend(items: seq<string>, x: string)
    requires items != []
    ensures JoinQuoted(items + [x]) == JoinQuoted(items) + ", " + Quote(x)
  {
    assert QuoteAll(items + [x]) == QuoteAll(items) + [Quote(x)];
    JoinSnoc(", ", QuoteAll(items), Quote(x));
  }

  lemma {:induction false} JoinSnoc(sep: string, parts: seq<string>, x: string)
    requires parts != []
    ensures Join(sep, parts + [x]) == Join(sep, parts) + sep + x
    decreases |parts|
  {
    if |parts| > 1 {
      assert (parts + [x])[1..] == parts[1..] + [x];
      JoinSnoc(sep, parts[1..], x);
    } else {
      assert parts + [x] == [parts[0], x];
      assert [parts[0], x][1..] == [x];
    }
  }

  // ---------------------------------------------------------------------
  // Language filters
  // ---------------------------------------------------------------------

  /** The parsed `--language-filters` JSON object, in its key order. */
  type Criteria = seq<(string, Datum)>

  /** A LanguageTable row: its id and the values of its columns. */
  datatype LanguageRow = LanguageRow(id: string, data: map<string, Datum>)

  /** One criterion against one language. A column the row lacks raises
      `KeyError`; a string criterion is a membership test against a list value
      and a regular expression search against anything else (a falsy value is
      searched as `''`, a truthy non-string raises `TypeError`); any other
      criterion is equality. */
  function Criterion(data: map<string, Datum>, k: string, v: Datum,
                     search: (string, string) -> Result<bool>): (r: Result<bool>)
    ensures k !in data ==> r.Err?
    ensures k in data && v.DStr? && data[k].DList? ==> r == Ok(PyIn(v, data[k].items))
    ensures k in data && v.DStr? && !data[k].DList? && !Truthy(data[k]) ==> r == search(v.s, "")
    ensures k in data && v.DStr? && data[k].DStr? && data[k].s != "" ==> r == search(v.s, data[k].s)
    ensures k in data && !v.DStr? ==> r == Ok(PyEq(data[k], v))
  {
    if k !in data then Err("KeyError: " + k)
    else
      var val := data[k];
      if v.DStr? then
        if val.DList? then Ok(PyIn(v, val.items))
        else if !Truthy(val) then search(v.s, "")
        else if val.DStr? then search(v.s, val.s)
        else Err("TypeError: expected string or bytes-like object")
      else Ok(PyEq(val, v))
  }

  function CriterionTest(data: map<string, Datum>, search: (string, string) -> Result<bool>): ((string, Datum)) -> Result<bool>
  {
    (c: (string, Datum)) => Criterion(data, c.0, c.1, search)
  }

  /** `language_filter(lg)`: the criteria in order, stopping at the first that
      fails. */
  function Matches(data: map<string, Datum>, criteria: Criteria, search: (string, string) -> Result<bool>): Result<bool>
  {
    AllHold(criteria, CriterionTest(data, search))
  }

  /** A language matches iff it meets every criterion. It is rejected iff some
      criterion fails after all earlier ones held; criteria after a failing one
      are never evaluated. */
  lemma MatchesSpec(data: map<string, Datum>, criteria: Criteria, search: (string, string) -> Result<bool>)
    ensures Matches(data, criteria, search) == Ok(true) <==>
      forall i :: 0 <= i < |criteria| ==> Criterion(data, criteria[i].0, criteria[i].1, search) == Ok(true)
    ensures Matches(data, criteria, search) == Ok(false) <==>
      exists i :: FirstFailure(criteria, CriterionTest(data, search), i)
  {
    AllHoldSpec(criteria, CriterionTest(data, search));
  }

  /** `get_language_filter(args)`: no filter without `--language-filters`. */
  function LanguageFilter(filters: Option<Criteria>, search: (string, string) -> Result<bool>):
    (r: Option<map<string, Datum> -> Result<bool>>)
    ensures filters.None? <==> r.None?
    ensures filters.Some? ==> forall data :: r.value(data) == Matches(data, filters.value, search)
  {
    match filters
    case None => None
    case Some(criteria) => Some((data: map<string, Datum>) => Matches(data, criteria, search))
  }

  /** The filter applied to a LanguageTable row. */
  function Selector(criteria: Criteria, search: (string, string) -> Result<bool>): LanguageRow -> Result<bool>
  {
    (row: LanguageRow) => Matches(row.data, criteria, search)
  }

  function Ids(rows: seq<LanguageRow>): (r: seq<string>)
    ensures |r| == |rows|
    ensures forall i :: 0 <= i < |rows| ==> r[i] == rows[i].id
  {
    seq(|rows|, i requires 0 <= i < |rows| => rows[i].id)
  }

  /** Filtering succeeds iff no language raises, and then yields exactly the
      selected languages in table order. */
  lemma FilteredSpec(rows: seq<LanguageRow>, criteria: Criteria, search: (string, string) -> Result<bool>)
    ensures FilterOk(rows, Selector(criteria, search)).Ok? <==>
      forall i :: 0 <= i < |rows| ==> Matches(rows[i].data, criteria, search).Ok?
    ensures FilterOk(rows, Selector(criteria, search)).Ok? ==>
      forall row :: row in FilterOk(rows, Selector(criteria, search)).value <==>
        row in rows && Matches(row.data, criteria, search) == Ok(true)
  {
    FilterOkSpec(rows, Selector(criteria, search));
  }

  /** `get_filtered_languages(args, ds)`: `None` without a filter; with one, the
      dataset needs a LanguageTable, and the result is the ids of the selected
      languages in table order. */
  method GetFilteredLanguages(filters: Option<Criteria>, table: Option<seq<LanguageRow>>,
                              search: (string, string) -> Result<bool>) returns (r: Result<Option<seq<string>>>)
    ensures filters.None? ==> r == Ok(None)
    ensures filters.Some? && table.None? ==> r.Err?
    ensures filters.Some? && table.Some? ==>
      (r.Ok? <==> FilterOk(table.value, Selector(filters.value, search)).Ok?) &&
      (r.Ok? ==> r.value == Some(Ids(FilterOk(table.value, Selector(filters.value, search)).value)))
  {
    var languageFilter := LanguageFilter(filters, search);
    if languageFilter.None? {
      return Ok(None);
    }
    if table.None? {
      return Err("ValueError: Language filters only work on datasets with a LanguageTable");
    }
    var rows := table.value;
    ghost var sel := Selector(filters.value, search);
    ghost var kept: seq<LanguageRow> := [];
    var res := [];
    var i := 0;
    while i < |rows|
      invariant 0 <= i <= |rows|
      invariant FilterOk(rows[..i], sel) == Ok(kept)
      invariant res == Ids(kept)
    {
      FilterOkStep(rows, i, sel);
      var keep := languageFilter.value(rows[i].data);
      if keep.Err? {
        FilterOkSticky(rows, i + 1, sel);
        return Err(keep.reason);
      }
      if keep.value {
        kept := kept + [rows[i]];
        res := res + [rows[i].id];
      }
      i := i + 1;
    }
    assert rows[..i] == rows;
    return Ok(Some(res));
  }

  // ---------------------------------------------------------------------
  // add_listvalued
  // ---------------------------------------------------------------------

  /** The keyword arguments `add_listvalued` passes on: the default value is the
      empty list unless one was given. */
  function ListValuedOptions(kw: seq<(string, Datum)>): (r: seq<(string, Datum)>)
  {
    SetDefault(kw, "default", DList([]))
  }

  lemma ListValuedDefault(kw: seq<(string, Datum)>)
    ensures Get(ListValuedOptions(kw), "default") == if "default" in Keys(kw) then Get(kw, "default") else Some(DList([]))
    ensures Keys(ListValuedOptions(kw)) == if "default" in Keys(kw) then Keys(kw) else Keys(kw) + ["default"]
    ensures forall k :: k != "default" ==> Get(ListValuedOptions(kw), k) == Get(kw, k)
  {
    SetDefaultKeys(kw, "default", DList([]));
    if "default" !in Keys(kw) {
      GetAppend(kw, "default", DList([]));
    }
  }

  // ---------------------------------------------------------------------
  // Colormap options of get_multiparameter
  // ---------------------------------------------------------------------

  function Nones(n: nat): (r: seq<Option<string>>)
    ensures |r| == n && forall i :: 0 <= i < n ==> r[i].None?
  {
    seq(n, _ => None)
  }

  /** The outcome of defaulting the colormap options. */
  datatype ColormapOptions = ColormapOptions(result: Result<()>, colormaps: seq<Option<string>>,
                                             languagePropertiesColormaps: seq<Option<string>>)

  /** What `get_multiparameter` does to `args.colormaps` (and, for commands with
      language properties, `args.language_properties_colormaps`), given the ids
      of the constructed parameters. */
  function DefaultColormaps(parameters: seq<string>, languageProperties: Option<seq<string>>,
                            colormaps: seq<Option<string>>, lpColormaps: seq<Option<string>>,
                            parameterIds: seq<string>): ColormapOptions
  {
    var cms := if parameters != [] && colormaps == [] then Nones(|parameters|) else colormaps;
    if languageProperties.None? then
      ColormapOptions(LengthCheck(cms, parameterIds), cms, lpColormaps)
    else
      var lps := languageProperties.value;
      var lpcms := if lps != [] && lpColormaps == [] then Nones(|lps|) else lpColormaps;
      if "__language__" in parameterIds && |parameterIds| != 1 then
        ColormapOptions(Err("AssertionError"), cms, lpcms)
      else
        var cms' := (if "__language__" in parameterIds && cms == [] then [None] else cms) + lpcms;
        ColormapOptions(LengthCheck(cms', parameterIds), cms', lpcms)
  }

  function LengthCheck(cms: seq<Option<string>>, parameterIds: seq<string>): (r: Result<()>)
    ensures r.Ok? <==> |cms| == |parameterIds|
  {
    if |cms| == |parameterIds| then Ok(()) else Err("AssertionError: " + JoinQuoted(parameterIds))
  }

  /** On success there is exactly one colormap option per parameter. */
  lemma DefaultColormapsLength(parameters: seq<string>, languageProperties: Option<seq<string>>,
                               colormaps: seq<Option<string>>, lpColormaps: seq<Option<string>>, parameterIds: seq<string>)
    ensures var o := DefaultColormaps(parameters, languageProperties, colormaps, lpColormaps, parameterIds);
      o.result.Ok? ==> |o.colormaps| == |parameterIds|
  {
  }

  /** Parameters without colormap options get one `None` each; given options are
      kept. Language property colormaps follow the parameter colormaps. */
  lemma DefaultColormapsContents(parameters: seq<string>, languageProperties: Option<seq<string>>,
                                 colormaps: seq<Option<string>>, lpColormaps: seq<Option<string>>, parameterIds: seq<string>)
    requires "__language__" !in parameterIds
    ensures var o := DefaultColormaps(parameters, languageProperties, colormaps, lpColormaps, parameterIds);
      var base := if parameters != [] && colormaps == [] then Nones(|parameters|) else colormaps;
      && (languageProperties.None? ==> o.colormaps == base)
      && (languageProperties.Some? ==> o.colormaps == base + o.languagePropertiesColormaps)
      && (languageProperties.Some? && languageProperties.value != [] && lpColormaps == [] ==>
            o.languagePropertiesColormaps == Nones(|languageProperties.value|))
  {
  }

  /** The `__language__` parameter must be the only one. */
  lemma DefaultColormapsLanguageAlone(parameters: seq<string>, lps: seq<string>,
                                      colormaps: seq<Option<string>>, lpColormaps: seq<Option<string>>, parameterIds: seq<string>)
    requires "__language__" in parameterIds
    ensures DefaultColormaps(parameters, Some(lps), colormaps, lpColormaps, parameterIds).result.Ok? ==>
      parameterIds == ["__language__"]
  {
    var o := DefaultColormaps(parameters, Some(lps), colormaps, lpColormaps, parameterIds);
    if o.result.Ok? {
      assert |parameterIds| == 1;
      assert parameterIds[0] == "__language__";
    }
  }

  /** The parsed command line options `get_multiparameter` reads and rewrites. */
  class Args {
    const parameters: seq<string>
    const languageProperties: Option<seq<string>>
    var colormaps: seq<Option<string>>
    var languagePropertiesColormaps: seq<Option<string>>

    constructor (parameters: seq<string>, languageProperties: Option<seq<string>>,
                 colormaps: seq<Option<string>>, languagePropertiesColormaps: seq<Option<string>>)
      ensures this.parameters == parameters && this.languageProperties == languageProperties
      ensures this.colormaps == colormaps && this.languagePropertiesColormaps == languagePropertiesColormaps
    {
      this.parameters := parameters;
      this.languageProperties := languageProperties;
      this.colormaps := colormaps;
      this.languagePropertiesColormaps := languagePropertiesColormaps;
    }

    /** Lines 211-223: default and extend the colormap options in place, then
        check that there is one per parameter. */
    method Default(parameterIds: seq<string>) returns (r: Result<()>)
      modifies this
      ensures DefaultColormaps(parameters, languageProperties, old(colormaps), old(languagePropertiesColormaps), parameterIds)
        == ColormapOptions(r, colormaps, languagePropertiesColormaps)
    {
      if parameters != [] && colormaps == [] {
        colormaps := Nones(|parameters|);
      }
      if languageProperties.Some? {
        if languageProperties.value != [] && languagePropertiesColormaps == [] {
          languagePropertiesColormaps := Nones(|languageProperties.value|);
        }
        if "__language__" in parameterIds {
          if |parameterIds| != 1 {
            return Err("AssertionError");
          }
          if colormaps == [] {
            colormaps := [None];
          }
        }
        colormaps := colormaps + languagePropertiesColormaps;
      }
      r := LengthCheck(colormaps, parameterIds);
    }
  }

  /** `{pid: Colormap(...) for pid, cm in zip(data.parameters, args.colormaps)}` */
  function ColormapsFor(parameters: seq<(string, Parameter)>, colormaps: seq<Option<string>>, novalue: Option<string>,
                        qualitative: (Option<string>, nat) -> seq<string>, sequential: nat -> seq<string>): (r: seq<(string, Colormap)>)
    ensures |r| == if |parameters| <= |colormaps| then |parameters| else |colormaps|
  {
    var z := Zip(parameters, colormaps);
    seq(|z|, i requires 0 <= i < |z| => (z[i].0.0, NewColormap(z[i].0.1.domain, z[i].1, novalue, qualitative, sequential)))
  }

  /** With one option per parameter, every parameter gets its colormap, of the
      kind its domain calls for and with the missing-value colour. */
  lemma ColormapsForSpec(parameters: seq<(string, Parameter)>, colormaps: seq<Option<string>>, novalue: Option<string>,
                         qualitative: (Option<string>, nat) -> seq<string>, sequential: nat -> seq<string>)
    requires |colormaps| == |parameters|
    ensures var r := ColormapsFor(parameters, colormaps, novalue, qualitative, sequential);
      && Keys(r) == Keys(parameters)
      && (forall i :: 0 <= i < |r| ==> r[i].1.novalue == novalue)
      && (forall i :: 0 <= i < |r| ==> (r[i].1.ContinuousMap? <==> parameters[i].1.domain.Range?))
      && (forall i :: 0 <= i < |r| && parameters[i].1.domain.Mapping? ==>
            r[i].1 == NewColormap(parameters[i].1.domain, colormaps[i], novalue, qualitative, sequential))
  {
  }

  /** The number of colormaps that specify shapes. */
  function CountTrue(flags: seq<bool>): (n: nat)
    ensures n <= |flags|
  {
    if flags == [] then 0 else (if flags[0] then 1 else 0) + CountTrue(flags[1..])
  }

  /** Lines 234-239: at most one colormap may specify shapes, and only when
      there are at most two parameters. */
  function ShapeCheck(withShapes: seq<bool>, nparams: nat): Result<()>
  {
    var n := CountTrue(withShapes);
    if n == 0 then Ok(())
    else if n > 1 then Err("Only one colormap can specify shapes.")
    else if nparams > 2 then Err("Shapes can only be specified for one of two parameters.")
    else Ok(())
  }

  lemma {:induction false} CountTrueZero(flags: seq<bool>)
    ensures CountTrue(flags) == 0 <==> forall i :: 0 <= i < |flags| ==> !flags[i]
  {
    if flags != [] {
      CountTrueZero(flags[1..]);
      assert forall i :: 1 <= i < |flags| ==> flags[i] == flags[1..][i - 1];
    }
  }

  lemma {:induction false} CountTrueAtMostOne(flags: seq<bool>)
    ensures CountTrue(flags) <= 1 <==> forall i, j :: 0 <= i < |flags| && 0 <= j < |flags| && flags[i] && flags[j] ==> i == j
  {
    if flags != [] {
      var tail := flags[1..];
      CountTrueAtMostOne(tail);
      CountTrueZero(tail);
      assert forall i :: 1 <= i < |flags| ==> flags[i] == tail[i - 1];
      if CountTrue(flags) > 1 {
        if flags[0] {
          var k :| 0 <= k < |tail| && tail[k];
          assert flags[k + 1];
        } else {
          var i, j :| 0 <= i < |tail| && 0 <= j < |tail| && tail[i] && tail[j] && i != j;
          assert flags[i + 1] && flags[j + 1];
        }
      }
    }
  }

  /** The shape check passes iff no two colormaps specify shapes and a
      colormap that does comes with at most two parameters. */
  lemma ShapeCheckSpec(withShapes: seq<bool>, nparams: nat)
    ensures ShapeCheck(withShapes, nparams).Ok? <==>
      (forall i, j :: 0 <= i < |withShapes| && 0 <= j < |withShapes| && withShapes[i] && withShapes[j] ==> i == j) &&
      (nparams > 2 ==> forall i :: 0 <= i < |withShapes| ==> !withShapes[i])
  {
    CountTrueZero(withShapes);
    CountTrueAtMostOne(withShapes);
  }

  // ---------------------------------------------------------------------
  // get_tree
  // ---------------------------------------------------------------------

  /** A TreeTable row: id, tree type and the parsed tree. */
  datatype TreeEntry = TreeEntry(id: string, treeType: string, tree: Node)

  /** The TreeTable loop condition: the requested tree, or without a request a
      summary tree. */
  predicate TreeMatches(e: TreeEntry, treeId: Option<string>)
  {
    if treeId.Some? && treeId.value != "" then e.id == treeId.value else e.treeType == "summary"
  }

  /** The index the `for ... break` loop stops at. */
  function FirstMatch(entries: seq<TreeEntry>, treeId: Option<string>): (r: Option<nat>)
    ensures r.Some? ==> r.value < |entries| && TreeMatches(entries[r.value], treeId)
    ensures r.Some? ==> forall j :: 0 <= j < r.value ==> !TreeMatches(entries[j], treeId)
    ensures r.None? ==> forall j :: 0 <= j < |entries| ==> !TreeMatches(entries[j], treeId)
  {
    if entries == [] then None
    else if TreeMatches(entries[0], treeId) then Some(0)
    else
      match FirstMatch(entries[1..], treeId)
      case None => None
      case Some(k) => Some(k + 1)
  }

  /** `{r['id']: r['glottocode'] for r in ...}` */
  function NameMap(rows: seq<(string, Option<string>)>): (m: map<string, Option<string>>)
    ensures forall id :: id in m <==> id in Keys(rows)
  {
    if rows == [] then map[]
    else
      var init := rows[..|rows| - 1];
      assert Keys(rows) == Keys(init) + [rows[|rows| - 1].0];
      NameMap(init)[rows[|rows| - 1].0 := rows[|rows| - 1].1]
  }

  /** A later row with the same id wins. */
  lemma {:induction false} NameMapLast(rows: seq<(string, Option<string>)>, id: string)
    requires id in Keys(rows)
    ensures NameMap(rows)[id] == LastValue(rows, id).value
  {
    var init := rows[..|rows| - 1];
    if rows[|rows| - 1].0 != id {
      assert Keys(rows) == Keys(init) + [rows[|rows| - 1].0];
      NameMapLast(init, id);
    }
  }

  /** `name_map.get(n.name)` */
  function Lookup(m: map<string, Option<string>>, name: Option<string>): Option<string>
  {
    if name.Some? && name.value in m then m[name.value] else None
  }

  /** `nwk.visit(rename)`: every node, inner ones included, is renamed. */
  function Relabel(n: Node, m: map<string, Option<string>>): Node
    decreases n, 1
  {
    Node(Lookup(m, n.name), RelabelAll(n.children, m))
  }

  function RelabelAll(ns: seq<Node>, m: map<string, Option<string>>): (r: seq<Node>)
    ensures |r| == |ns|
    decreases ns, 0
  {
    if ns == [] then [] else [Relabel(ns[0], m)] + RelabelAll(ns[1..], m)
  }

  /** The node names in pre-order. */
  function Names(n: Node): seq<Option<string>>
    decreases n, 1
  {
    [n.name] + NamesAll(n.children)
  }

  function NamesAll(ns: seq<Node>): seq<Option<string>>
    decreases ns, 0
  {
    if ns == [] then [] else Names(ns[0]) + NamesAll(ns[1..])
  }

  function LookupAll(m: map<string, Option<string>>, names: seq<Option<string>>): (r: seq<Option<string>>)
    ensures |r| == |names|
    ensures forall i :: 0 <= i < |names| ==> r[i] == Lookup(m, names[i])
  {
    seq(|names|, i requires 0 <= i < |names| => Lookup(m, names[i]))
  }

  /** Relabelling renames node by node: the i-th node of the result carries
      the label of the i-th node of the input, and the shape is kept. */
  lemma {:induction false} RelabelNames(n: Node, m: map<string, Option<string>>)
    ensures Names(Relabel(n, m)) == LookupAll(m, Names(n))
    ensures LeafCount(Relabel(n, m)) == LeafCount(n)
    decreases n, 1
  {
    RelabelAllNames(n.children, m);
    assert LookupAll(m, [n.name] + NamesAll(n.children)) == [Lookup(m, n.name)] + LookupAll(m, NamesAll(n.children));
  }

  lemma {:induction false} RelabelAllNames(ns: seq<Node>, m: map<string, Option<string>>)
    ensures NamesAll(RelabelAll(ns, m)) == LookupAll(m, NamesAll(ns))
    ensures LeafCountAll(RelabelAll(ns, m)) == LeafCountAll(ns)
    decreases ns, 0
  {
    if ns != [] {
      RelabelNames(ns[0], m);
      RelabelAllNames(ns[1..], m);
      assert RelabelAll(ns, m)[0] == Relabel(ns[0], m);
      assert RelabelAll(ns, m)[1..] == RelabelAll(ns[1..], m);
      assert LookupAll(m, Names(ns[0]) + NamesAll(ns[1..])) == LookupAll(m, Names(ns[0])) + LookupAll(m, NamesAll(ns[1..]));
    }
  }

  /** The external services `get_tree` relies on. */
  datatype TreeSources = TreeSources(
    isGlottocode: string -> bool,
    fileExists: string -> bool,
    glottolog: Option<string -> Result<Node>>,
    readFile: string -> Result<Node>,
    loads: string -> Result<Node>)

  /** `get_tree(args, glottolog)`, returning the tree. */
  function GetTree(tree: Option<string>, treeId: Option<string>, glottocodesAsLabels: bool, src: TreeSources,
                   table: Option<seq<TreeEntry>>, languages: seq<(string, Option<string>)>): Result<Node>
  {
    if tree.Some? && tree.value != "" then
      var t := tree.value;
      if src.isGlottocode(t) then
        if src.glottolog.None? then Err("AssertionError") else src.glottolog.value(t)
      else if src.fileExists(t) then src.readFile(t)
      else src.loads(t)
    else if table.None? then Err("no tree dataset")
    else
      match FirstMatch(table.value, treeId)
      case None => Err("ValueError: No matching tree found")
      case Some(k) =>
        var nwk := table.value[k].tree;
        Ok(if glottocodesAsLabels then Relabel(nwk, NameMap(languages)) else nwk)
  }

  /** A `--tree` that looks like a Glottocode is taken from Glottolog even if a
      file of that name exists; an existing file is read rather than parsed as
      Newick. */
  lemma GetTreeOrder(t: string, treeId: Option<string>, flag: bool, src: TreeSources,
                     table: Option<seq<TreeEntry>>, languages: seq<(string, Option<string>)>)
    requires t != ""
    ensures src.isGlottocode(t) && src.glottolog.Some? ==> GetTree(Some(t), treeId, flag, src, table, languages) == src.glottolog.value(t)
    ensures src.isGlottocode(t) && src.glottolog.None? ==> GetTree(Some(t), treeId, flag, src, table, languages).Err?
    ensures !src.isGlottocode(t) && src.fileExists(t) ==> GetTree(Some(t), treeId, flag, src, table, languages) == src.readFile(t)
    ensures !src.isGlottocode(t) && !src.fileExists(t) ==> GetTree(Some(t), treeId, flag, src, table, languages) == src.loads(t)
  {
  }

  /** Entry `i` is the first match. */
  predicate ChosenTree(entries: seq<TreeEntry>, treeId: Option<string>, i: int)
  {
    0 <= i < |entries| && TreeMatches(entries[i], treeId) && forall j :: 0 <= j < i ==> !TreeMatches(entries[j], treeId)
  }

  /** The tree is the entry's, relabelled node by node when requested. */
  predicate FromEntry(t: Node, e: TreeEntry, flag: bool, languages: seq<(string, Option<string>)>)
  {
    (!flag ==> t == e.tree) && (flag ==> Names(t) == LookupAll(NameMap(languages), Names(e.tree)))
  }

  /** Without `--tree` the first matching TreeTable tree is used, relabelled
      node by node when requested; without a match there is no tree. */
  lemma GetTreeFromTable(treeId: Option<string>, flag: bool, src: TreeSources,
                         entries: seq<TreeEntry>, languages: seq<(string, Option<string>)>)
    ensures var r := GetTree(None, treeId, flag, src, Some(entries), languages);
      && (r.Ok? <==> exists i :: 0 <= i < |entries| && TreeMatches(entries[i], treeId))
      && (r.Ok? ==> exists i :: ChosenTree(entries, treeId, i) && FromEntry(r.value, entries[i], flag, languages))
  {
    var r := GetTree(None, treeId, flag, src, Some(entries), languages);
    match FirstMatch(entries, treeId)
    case None =>
    case Some(k) =>
      RelabelNames(entries[k].tree, NameMap(languages));
  }
}
