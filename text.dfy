/**
 * `cldfviz.text`: rendering CLDF Markdown. Every CLDF link of a document is
 * replaced by a template rendered for the object it points to; a reference
 * list link `[](Source?cited_only#cldf:__all__)` is filled in by a second
 * pass, with the sources cited in the output of the first pass.
 *
 * The template engine (finding and rendering a template), the lookup of the
 * object a link points to and the recognition of Markdown links in a text are
 * outside the model: the engine is a parameter, the object and the resolved
 * component travel with the link, and the URLs of the links in a text are
 * given by a parameter function.
 */
module Text {
  import opened Common
  import opened Datum

  // ---------------------------------------------------------------------
  // Interlinear examples
  // ---------------------------------------------------------------------

  /** `g or ""` for a gloss word. */
  function Gloss(g: Option<string>): string
  {
    if g.Some? then g.value else ""
  }

  function Spaces(n: nat): (r: string)
    ensures |r| == n && forall i :: 0 <= i < n ==> r[i] == ' '
  {
    seq(n, _ => ' ')
  }

  function Max(a: nat, b: nat): nat
  {
    if a < b then b else a
  }

  /** An object word and its gloss, the shorter one padded with trailing
      spaces to the length of the longer. */
  function PadPair(o: string, g: Option<string>): (r: (string, string))
    ensures |r.0| == |r.1| == Max(|o|, |Gloss(g)|)
    ensures r.0[..|o|] == o && r.1[..|Gloss(g)|] == Gloss(g)
    ensures forall i :: |o| <= i < |r.0| ==> r.0[i] == ' '
    ensures forall i :: |Gloss(g)| <= i < |r.1| ==> r.1[i] == ' '
  {
    var gl := Gloss(g);
    if |o| < |gl| then (o + Spaces(|gl| - |o|), gl) else (o, gl + Spaces(|o| - |gl|))
  }

  /** The padded object words, pairing words up to the shorter list. */
  function PaddedObj(obj: seq<string>, gloss: seq<Option<string>>): (r: seq<string>)
    ensures |r| == |Zip(obj, gloss)|
  {
    seq(|Zip(obj, gloss)|, i requires 0 <= i < |Zip(obj, gloss)| => PadPair(obj[i], gloss[i]).0)
  }

  /** The padded gloss words. */
  function PaddedGloss(obj: seq<string>, gloss: seq<Option<string>>): (r: seq<string>)
    ensures |r| == |Zip(obj, gloss)|
  {
    seq(|Zip(obj, gloss)|, i requires 0 <= i < |Zip(obj, gloss)| => PadPair(obj[i], gloss[i]).1)
  }

  /** `pad_ex(obj, gloss)`: the two lines of an interlinear example, words
      separated by two spaces, both stripped. */
  method PadEx(obj: seq<string>, gloss: seq<Option<string>>) returns (o: string, g: string)
    ensures o == Strip(Join("  ", PaddedObj(obj, gloss)))
    ensures g == Strip(Join("  ", PaddedGloss(obj, gloss)))
  {
    var outObj: seq<string> := [];
    var outGloss: seq<string> := [];
    var n := |Zip(obj, gloss)|;
    for i := 0 to n
      invariant outObj == PaddedObj(obj, gloss)[..i]
      invariant outGloss == PaddedGloss(obj, gloss)[..i]
    {
      var w := obj[i];
      var gl := Gloss(gloss[i]);
      var diff := |w| - |gl|;
      if diff < 0 {
        w := w + Spaces(-diff);
      } else {
        gl := gl + Spaces(diff);
      }
      outObj := outObj + [w];
      outGloss := outGloss + [gl];
    }
    assert outObj == PaddedObj(obj, gloss);
    assert outGloss == PaddedGloss(obj, gloss);
    o := Strip(Join("  ", outObj));
    g := Strip(Join("  ", outGloss));
  }

  /** Joining two lists of words of equal lengths gives lines of equal length. */
  lemma {:induction false} JoinSameShape(sep: string, a: seq<string>, b: seq<string>)
    requires |a| == |b| && forall i :: 0 <= i < |a| ==> |a[i]| == |b[i]|
    ensures |Join(sep, a)| == |Join(sep, b)|
    decreases |a|
  {
    if |a| > 1 {
      JoinSameShape(sep, a[1..], b[1..]);
    }
  }

  /** Before stripping, the object line and the gloss line are equally long and
      every word starts in the same column in both: each object word is
      followed by spaces only, so is each gloss word, and a pair is as wide as
      its longer word. */
  lemma PadExAligned(obj: seq<string>, gloss: seq<Option<string>>, k: nat)
    requires k <= |Zip(obj, gloss)|
    ensures |PaddedObj(obj, gloss)| == |PaddedGloss(obj, gloss)| == |Zip(obj, gloss)|
    ensures |Join("  ", PaddedObj(obj, gloss)[..k])| == |Join("  ", PaddedGloss(obj, gloss)[..k])|
    ensures forall i :: 0 <= i < |Zip(obj, gloss)| ==>
      |PaddedObj(obj, gloss)[i]| == Max(|obj[i]|, |Gloss(gloss[i])|) &&
      PaddedObj(obj, gloss)[i][..|obj[i]|] == obj[i] &&
      PaddedGloss(obj, gloss)[i][..|Gloss(gloss[i])|] == Gloss(gloss[i])
  {
    JoinSameShape("  ", PaddedObj(obj, gloss)[..k], PaddedGloss(obj, gloss)[..k]);
  }

  // ---------------------------------------------------------------------
  // render(doc, cldf_dict, ...)
  // ---------------------------------------------------------------------

  /** What `render` accepts for `cldf_dict`: a single dataset or datasets by prefix. */
  datatype CldfArg = OneDataset(ds: Datum) | DatasetsByPrefix(m: map<Option<string>, Datum>)

  /** A single dataset is used for links without a prefix. */
  function DatasetMapping(arg: CldfArg): (r: map<Option<string>, Datum>)
    ensures arg.OneDataset? ==> r.Keys == {None} && r[None] == arg.ds
    ensures arg.DatasetsByPrefix? ==> r == arg.m
  {
    match arg
    case OneDataset(ds) => map[None := ds]
    case DatasetsByPrefix(m) => m
  }

  /** The functions handed to templates: the caller's, if any, with `pad_ex`
      added (or replacing one of that name). */
  function TemplateGlobals<F>(funcDict: Option<seq<(string, F)>>, padEx: F): (r: seq<(string, F)>)
    ensures Get(r, "pad_ex") == Some(padEx)
    ensures forall k :: k != "pad_ex" ==> Get(r, k) == (if funcDict.Some? then Get(funcDict.value, k) else None)
  {
    var d := if funcDict.Some? then funcDict.value else [];
    PutGet(d, "pad_ex", padEx, "pad_ex");
    assert forall k :: Get(Put(d, "pad_ex", padEx), k) == if k == "pad_ex" then Some(padEx) else Get(d, k) by {
      forall k { PutGet(d, "pad_ex", padEx, k); }
    }
    Put(d, "pad_ex", padEx)
  }

  // ---------------------------------------------------------------------
  // Links and template contexts
  // ---------------------------------------------------------------------

  /** A CLDF Markdown link: the dataset prefix, whether it points to all
      objects (`__all__`), the first value of each query parameter, the CLDF
      component it points to in its dataset (if any), its table or file name,
      the object(s) it points to, and its Markdown text. */
  datatype Link = Link(prefix: Option<string>, all: bool, query: seq<(string, string)>,
                       component: Option<string>, tableOrFname: string, obj: Datum, markdown: string)

  /** A template context: variables by name. */
  type Context = seq<(string, Datum)>

  /** The template engine: the rendering of a template name with a context, or
      an error when there is no such template. */
  type Engine = (Datum, Context) -> Result<string>

  /** The values `'0'`, `'false'` and `'False'` switch a `with_*` option off. */
  predicate IsOff(v: string)
  {
    v == "0" || v == "false" || v == "False"
  }

  /** The context value of a query parameter. */
  function QueryValue(k: string, v: string): (r: Datum)
    ensures v == "" ==> r == DBool(true)
    ensures v != "" && StartsWith(k, "with_") && IsOff(v) ==> r == DBool(false)
    ensures v != "" && !(StartsWith(k, "with_") && IsOff(v)) ==> r == DStr(v)
  {
    if v == "" then DBool(true)
    else if StartsWith(k, "with_") && IsOff(v) then DBool(false)
    else DStr(v)
  }

  /** The value the comprehension gives before the `with_*` loop. */
  function FirstValue(v: string): Datum
  {
    if v == "" then DBool(true) else DStr(v)
  }

  /** The query parameters as context variables. */
  function QueryContext(query: seq<(string, string)>): (r: Context)
    ensures Keys(r) == Keys(query)
    ensures forall j :: 0 <= j < |r| ==> r[j] == (query[j].0, QueryValue(query[j].0, query[j].1))
  {
    seq(|query|, j requires 0 <= j < |query| => (query[j].0, QueryValue(query[j].0, query[j].1)))
  }

  lemma {:induction false} QueryContextGet(query: seq<(string, string)>, k: string)
    ensures Get(QueryContext(query), k) == if k in Keys(query) then Some(QueryValue(k, Get(query, k).value)) else None
  {
    if query != [] {
      QueryContextGet(query[1..], k);
      assert QueryContext(query)[1..] == QueryContext(query[1..]);
    }
  }

  /** `get_tmpl_context(ml)`: the link's query parameters (an empty value is
      `True`, a `with_*` value `0`/`false`/`False` is `False`), the object as
      `ctx` and the link's dataset as `cldf`. */
  method GetTmplContext(query: seq<(string, string)>, obj: Datum, dataset: Datum) returns (r: Context)
    ensures Get(r, "ctx") == Some(obj) && Get(r, "cldf") == Some(dataset)
    ensures forall k :: k != "ctx" && k != "cldf" ==> Get(r, k) == Get(QueryContext(query), k)
    ensures r == TmplContext(query, obj, dataset)
  {
    var ctx := seq(|query|, j requires 0 <= j < |query| => (query[j].0, FirstValue(query[j].1)));
    for i := 0 to |ctx|
      invariant |ctx| == |query|
      invariant forall j :: 0 <= j < i ==> ctx[j] == QueryContext(query)[j]
      invariant forall j :: i <= j < |ctx| ==> ctx[j] == (query[j].0, FirstValue(query[j].1))
    {
      if StartsWith(ctx[i].0, "with_") && ctx[i].1 in [DStr("0"), DStr("false"), DStr("False")] {
        ctx := ctx[i := (ctx[i].0, DBool(false))];
      }
    }
    assert ctx == QueryContext(query);
    r := Put(Put(ctx, "ctx", obj), "cldf", dataset);
    TmplContextGet(query, obj, dataset);
  }

  /** The context `get_tmpl_context` builds. */
  function TmplContext(query: seq<(string, string)>, obj: Datum, dataset: Datum): Context
  {
    Put(Put(QueryContext(query), "ctx", obj), "cldf", dataset)
  }

  lemma TmplContextGet(query: seq<(string, string)>, obj: Datum, dataset: Datum)
    ensures Get(TmplContext(query, obj, dataset), "ctx") == Some(obj)
    ensures Get(TmplContext(query, obj, dataset), "cldf") == Some(dataset)
    ensures forall k :: k != "ctx" && k != "cldf" ==> Get(TmplContext(query, obj, dataset), k) == Get(QueryContext(query), k)
  {
    var c1 := Put(QueryContext(query), "ctx", obj);
    forall k ensures Get(TmplContext(query, obj, dataset), k) ==
      if k == "cldf" then Some(dataset) else if k == "ctx" then Some(obj) else Get(QueryContext(query), k)
    {
      PutGet(c1, "cldf", dataset, k);
      PutGet(QueryContext(query), "ctx", obj, k);
    }
  }

  /** A query parameter is a switch: given without a value it is on, and a
      `with_*` switch given as `0`, `false` or `False` is off. */
  lemma ContextSwitches(query: seq<(string, string)>, obj: Datum, dataset: Datum, k: string)
    requires k in Keys(query) && k != "ctx" && k != "cldf"
    ensures Get(query, k).value == "" ==> Get(TmplContext(query, obj, dataset), k) == Some(DBool(true))
    ensures StartsWith(k, "with_") && IsOff(Get(query, k).value) ==>
      Get(TmplContext(query, obj, dataset), k) == Some(DBool(false))
    ensures Get(query, k).value != "" && !StartsWith(k, "with_") ==>
      Get(TmplContext(query, obj, dataset), k) == Some(DStr(Get(query, k).value))
  {
    TmplContextGet(query, obj, dataset);
    QueryContextGet(query, k);
  }

  /** `ctx` without `key` (what remains after `ctx.pop(key)`). */
  function Remove(ctx: Context, key: string): (r: Context)
    ensures key !in Keys(r)
    ensures forall k :: k != key ==> Get(r, k) == Get(ctx, k)
  {
    if ctx == [] then []
    else if ctx[0].0 == key then Remove(ctx[1..], key)
    else [ctx[0]] + Remove(ctx[1..], key)
  }

  /** The template `render_template` uses: an explicit `__template__`, or
      `{component}_{index|detail}.{fmt}`. */
  function TemplateName(component: string, ctx: Context, index: bool, fmt: string): Datum
  {
    Get(ctx, "__template__").GetOr(DStr(component + (if index then "_index." else "_detail.") + fmt))
  }

  /** `render_template(component, ctx, index, fmt)` */
  function RenderTemplate(component: string, ctx: Context, index: bool, fmt: string, engine: Engine): Result<string>
  {
    engine(TemplateName(component, ctx, index, fmt), Remove(ctx, "__template__"))
  }

  /** An explicit template wins and is not passed on to the template; the
      default name is derived from the component, the kind of link and the
      output format. */
  lemma RenderTemplateSpec(component: string, ctx: Context, index: bool, fmt: string, engine: Engine)
    ensures "__template__" in Keys(ctx) ==>
      RenderTemplate(component, ctx, index, fmt, engine) == engine(Get(ctx, "__template__").value, Remove(ctx, "__template__"))
    ensures "__template__" !in Keys(ctx) && index ==>
      RenderTemplate(component, ctx, index, fmt, engine) == engine(DStr(component + "_index." + fmt), ctx)
    ensures "__template__" !in Keys(ctx) && !index ==>
      RenderTemplate(component, ctx, index, fmt, engine) == engine(DStr(component + "_detail." + fmt), ctx)
  {
    if "__template__" !in Keys(ctx) {
      RemoveAbsent(ctx, "__template__");
    }
  }

  lemma {:induction false} RemoveAbsent(ctx: Context, key: string)
    requires key !in Keys(ctx)
    ensures Remove(ctx, key) == ctx
  {
    if ctx != [] {
      assert Keys(ctx) == [ctx[0].0] + Keys(ctx[1..]);
      RemoveAbsent(ctx[1..], key);
    }
  }

  // ---------------------------------------------------------------------
  // render_link and the two passes
  // ---------------------------------------------------------------------

  /** `self.cited` is truthy: a non-empty set. */
  predicate CitedTruthy(cited: Option<set<string>>)
  {
    cited.Some? && cited.value != {}
  }

  /** `ref_link`: an `__all__` link with `cited_only` pointing to the sources.
      The component is looked up (and a missing prefix raises) only when the
      first two conditions hold. */
  function RefLink(ml: Link, datasets: map<Option<string>, Datum>): (r: Result<bool>)
    ensures r.Err? <==> ml.all && "cited_only" in Keys(ml.query) && ml.prefix !in datasets
    ensures r == Ok(true) <==> ml.all && "cited_only" in Keys(ml.query) && ml.prefix in datasets && ml.component == Some("Source")
  {
    if !ml.all || "cited_only" !in Keys(ml.query) then Ok(false)
    else if ml.prefix !in datasets then Err("KeyError")
    else Ok(ml.component == Some("Source"))
  }

  /** A source, represented by its id, is among the cited ones. */
  function IsCited(cited: set<string>): Datum -> bool
  {
    (s: Datum) => PyStr(s) in cited
  }

  /** The sources of a reference list that were cited; a source is represented
      by its id. */
  function CitedSources(obj: Datum, cited: set<string>): (r: Result<Datum>)
    ensures obj.DList? ==> (r.Ok? && r.value.DList? &&
      forall s :: s in r.value.items <==> s in obj.items && PyStr(s) in cited)
    ensures !obj.DList? ==> r.Err?
  {
    if obj.DList? then Ok(DList(FilterSeq(obj.items, IsCited(cited))))
    else Err("TypeError: object is not iterable")
  }

  /** The reference list of the second pass: the `Source_index` template with
      the cited sources and anchors. */
  function RefList(ml: Link, datasets: map<Option<string>, Datum>, cited: set<string>, engine: Engine): Result<string>
    requires ml.prefix in datasets
  {
    match CitedSources(ml.obj, cited)
    case Err(e) => Err(e)
    case Ok(sources) => RenderTemplate("Source", RefListContext(ml, datasets[ml.prefix], sources), true, "md", engine)
  }

  /** The context of the reference list: the link's context with the cited
      sources as `ctx` and `with_anchor` set. */
  function RefListContext(ml: Link, dataset: Datum, sources: Datum): Context
  {
    Put(Put(TmplContext(ml.query, ml.obj, dataset), "ctx", sources), "with_anchor", DBool(true))
  }

  lemma RefListContextGet(ml: Link, dataset: Datum, sources: Datum)
    ensures Get(RefListContext(ml, dataset, sources), "with_anchor") == Some(DBool(true))
    ensures Get(RefListContext(ml, dataset, sources), "ctx") == Some(sources)
    ensures Get(RefListContext(ml, dataset, sources), "cldf") == Some(dataset)
    ensures "__template__" !in Keys(ml.query) ==> "__template__" !in Keys(RefListContext(ml, dataset, sources))
  {
    var c0 := TmplContext(ml.query, ml.obj, dataset);
    var c1 := Put(c0, "ctx", sources);
    PutGet(c1, "with_anchor", DBool(true), "with_anchor");
    PutGet(c1, "with_anchor", DBool(true), "ctx");
    PutGet(c0, "ctx", sources, "ctx");
    PutGet(c1, "with_anchor", DBool(true), "cldf");
    PutGet(c0, "ctx", sources, "cldf");
    PutGet(c1, "with_anchor", DBool(true), "__template__");
    PutGet(c0, "ctx", sources, "__template__");
    TmplContextGet(ml.query, ml.obj, dataset);
    QueryContextGet(ml.query, "__template__");
  }

  /** The template rendering of an ordinary link, as in the first pass. */
  function Rendered(ml: Link, datasets: map<Option<string>, Datum>, engine: Engine): (r: Result<string>)
    ensures ml.prefix !in datasets ==> r.Err?
  {
    if ml.prefix !in datasets then Err("KeyError")
    else
      var component := if ml.component.Some? && ml.component.value != "" then ml.component.value else ml.tableOrFname;
      RenderTemplate(component, TmplContext(ml.query, ml.obj, datasets[ml.prefix]), ml.all, "md", engine)
  }

  /** `render_link(ml)` as written: in the second pass every link other than
      the reference list is returned unchanged. */
  function LinkOutputAsWritten(ml: Link, datasets: map<Option<string>, Datum>, cited: Option<set<string>>, engine: Engine): Result<string>
  {
    match RefLink(ml, datasets)
    case Err(e) => Err(e)
    case Ok(ref) =>
      if CitedTruthy(cited) then
        (if ref then RefList(ml, datasets, cited.value, engine) else Ok(ml.markdown))
      else if ref then Ok(ml.markdown)
      else Rendered(ml, datasets, engine)
  }

  /** `render_link(ml)` with the second pass rendering every other link as
      the first pass does. */
  function LinkOutput(ml: Link, datasets: map<Option<string>, Datum>, cited: Option<set<string>>, engine: Engine): (r: Result<string>)
    ensures RefLink(ml, datasets) == Ok(false) ==> r == Rendered(ml, datasets, engine)
    ensures RefLink(ml, datasets) == Ok(true) && !CitedTruthy(cited) ==> r == Ok(ml.markdown)
    ensures RefLink(ml, datasets).Err? ==> r.Err?
  {
    match RefLink(ml, datasets)
    case Err(e) => Err(e)
    case Ok(ref) =>
      if ref && CitedTruthy(cited) then RefList(ml, datasets, cited.value, engine)
      else if ref then Ok(ml.markdown)
      else Rendered(ml, datasets, engine)
  }

  /** Whether rendering `ml` asks for a second pass. */
  predicate SetsFlag(ml: Link, datasets: map<Option<string>, Datum>, cited: Option<set<string>>)
  {
    !CitedTruthy(cited) && RefLink(ml, datasets) == Ok(true)
  }

  /** A document: plain Markdown between CLDF links. */
  datatype Piece = Plain(text: string) | CldfLink(ml: Link)

  /** One pass over a document: its output (or the first error a link raises)
      and whether a link asked for a second pass. */
  function Pass(doc: seq<Piece>, datasets: map<Option<string>, Datum>, cited: Option<set<string>>, engine: Engine): (Result<string>, bool)
  {
    if doc == [] then (Ok(""), false)
    else
      var (out, flag) := Pass(doc[..|doc| - 1], datasets, cited, engine);
      if out.Err? then (out, flag)
      else match doc[|doc| - 1]
        case Plain(t) => (Ok(out.value + t), flag)
        case CldfLink(ml) =>
          match LinkOutput(ml, datasets, cited, engine)
          case Err(e) => (Err(e), flag)
          case Ok(s) => (Ok(out.value + s), flag || SetsFlag(ml, datasets, cited))
  }

  /** The ids cited in a text: the part after the first `-` of every link URL
      that starts with `#source-`. */
  function CitedIds(urls: seq<string>): set<string>
  {
    set u | u in urls && StartsWith(u, "#source-") :: Partition(u, "-").2
  }

  lemma SourceUrlId(id: string)
    ensures Partition("#source-" + id, "-").2 == id
  {
    forall j | 0 <= j < |"#source"| ensures !OccursAt("#source" + "-", "-", j) {
      assert ("#source" + "-")[j..j + 1] == ["#source"[j]];
    }
    PartitionConcat("#source", "-", id);
    assert "#source" + "-" + id == "#source-" + id;
  }

  /** A source is cited iff the text links to its anchor `#source-<id>`. */
  lemma CitedIdsSpec(urls: seq<string>, id: string)
    ensures id in CitedIds(urls) <==> "#source-" + id in urls
  {
    SourceUrlId(id);
    if id in CitedIds(urls) {
      var u :| u in urls && StartsWith(u, "#source-") && Partition(u, "-").2 == id;
      assert u == "#source-" + u[8..];
      SourceUrlId(u[8..]);
    }
  }

  /** `render()`: the first pass; if it met a reference list, a second pass
      with the sources cited in the first pass's output. */
  function TwoPass(doc: seq<Piece>, datasets: map<Option<string>, Datum>, engine: Engine,
                   urls: string -> seq<string>): Result<string>
  {
    var (first, flag) := Pass(doc, datasets, None, engine);
    if first.Err? || !flag then first
    else Pass(doc, datasets, Some(CitedIds(urls(first.value))), engine).0
  }

  /** A link is a reference list at index `i`. */
  predicate RefLinkAt(doc: seq<Piece>, datasets: map<Option<string>, Datum>, i: int)
  {
    0 <= i < |doc| && doc[i].CldfLink? && RefLink(doc[i].ml, datasets) == Ok(true)
  }

  /** A pass that completes asks for a second one iff the document contains a
      reference list and no source is known to be cited yet. */
  lemma {:induction false} PassFlag(doc: seq<Piece>, datasets: map<Option<string>, Datum>, cited: Option<set<string>>, engine: Engine)
    requires Pass(doc, datasets, cited, engine).0.Ok?
    ensures Pass(doc, datasets, cited, engine).1 <==> !CitedTruthy(cited) && exists i :: RefLinkAt(doc, datasets, i)
  {
    if doc != [] {
      var init := doc[..|doc| - 1];
      var last := doc[|doc| - 1];
      assert Pass(init, datasets, cited, engine).0.Ok?;
      PassFlag(init, datasets, cited, engine);
      assert forall i :: 0 <= i < |init| ==> init[i] == doc[i];
      var lastRef := RefLinkAt(doc, datasets, |doc| - 1);
      assert Pass(doc, datasets, cited, engine).1 ==
        (Pass(init, datasets, cited, engine).1 || (!CitedTruthy(cited) && lastRef));
      if exists i :: RefLinkAt(init, datasets, i) {
        var i :| RefLinkAt(init, datasets, i);
        assert RefLinkAt(doc, datasets, i);
      }
      if exists i :: RefLinkAt(doc, datasets, i) {
        var i :| RefLinkAt(doc, datasets, i);
        if i < |init| {
          assert RefLinkAt(init, datasets, i);
        }
      }
    }
  }

  /** A document without a reference list is rendered in one pass, in which
      every link is rendered by its template. */
  lemma SinglePass(doc: seq<Piece>, datasets: map<Option<string>, Datum>, engine: Engine, urls: string -> seq<string>)
    requires forall i :: !RefLinkAt(doc, datasets, i)
    ensures TwoPass(doc, datasets, engine, urls) == Pass(doc, datasets, None, engine).0
  {
    if Pass(doc, datasets, None, engine).0.Ok? {
      PassFlag(doc, datasets, None, engine);
    }
  }

  /** In the second pass, every link other than the reference list comes out
      as in the first pass. */
  lemma SecondPassKeepsLinks(ml: Link, datasets: map<Option<string>, Datum>, cited: set<string>, engine: Engine)
    requires RefLink(ml, datasets) != Ok(true)
    ensures LinkOutput(ml, datasets, Some(cited), engine) == LinkOutput(ml, datasets, None, engine)
  {
  }

  /** The reference list in the second pass is the `Source_index.md` template
      rendered with only the cited sources, with anchors switched on (see
      RefListContextGet). */
  lemma SecondPassRefList(ml: Link, datasets: map<Option<string>, Datum>, cited: set<string>, engine: Engine)
    requires RefLink(ml, datasets) == Ok(true) && cited != {}
    requires "__template__" !in Keys(ml.query) && ml.obj.DList?
    ensures LinkOutput(ml, datasets, Some(cited), engine) ==
      engine(DStr("Source_index.md"),
             RefListContext(ml, datasets[ml.prefix], DList(FilterSeq(ml.obj.items, IsCited(cited)))))
  {
    var sources := DList(FilterSeq(ml.obj.items, IsCited(cited)));
    var ctx := RefListContext(ml, datasets[ml.prefix], sources);
    assert LinkOutput(ml, datasets, Some(cited), engine) == RefList(ml, datasets, cited, engine);
    assert RefList(ml, datasets, cited, engine) == RenderTemplate("Source", ctx, true, "md", engine);
    assert "__template__" !in Keys(ctx) by {
      RefListContextGet(ml, datasets[ml.prefix], sources);
    }
    assert RenderTemplate("Source", ctx, true, "md", engine) == engine(DStr("Source_index.md"), ctx) by {
      RenderTemplateSpec("Source", ctx, true, "md", engine);
      SourceIndexName();
    }
  }

  lemma SourceIndexName()
    ensures "Source" + "_index." + "md" == "Source_index.md"
  {
    var a := "Source" + "_index." + "md";
    assert forall i :: 0 <= i < |a| ==> a[i] == "Source_index.md"[i];
  }

  /** A plain source link, the datasets it renders against, and an engine
      that renders every template to the same text. */
  const PlainLink := Link(None, false, [], Some("Source"), "sources.bib", DStr("Peterson2017"), "[P](sources.bib#cldf:Peterson2017)")
  const PlainDatasets: map<Option<string>, Datum> := map[None := DNull]
  const ConstantEngine: Engine := (name: Datum, ctx: Context) => Ok("rendered")

  lemma PlainLinkOutputs()
    ensures RefLink(PlainLink, PlainDatasets) == Ok(false)
    ensures LinkOutputAsWritten(PlainLink, PlainDatasets, None, ConstantEngine) == Ok("rendered")
    ensures LinkOutputAsWritten(PlainLink, PlainDatasets, Some({"Peterson2017"}), ConstantEngine) == Ok(PlainLink.markdown)
  {
    assert RefLink(PlainLink, PlainDatasets) == Ok(false);
    assert Rendered(PlainLink, PlainDatasets, ConstantEngine) == Ok("rendered");
    assert CitedTruthy(Some({"Peterson2017"}));
  }

  /** As written, the second pass leaves a link that is not a reference list
      as raw markdown although the first pass rendered it. */
  lemma SecondPassDropsRendering()
    ensures exists ml: Link, datasets: map<Option<string>, Datum>, cited: set<string>, engine: Engine ::
      RefLink(ml, datasets) == Ok(false) && cited != {} &&
      LinkOutputAsWritten(ml, datasets, None, engine) == Ok("rendered") &&
      LinkOutputAsWritten(ml, datasets, Some(cited), engine) == Ok(ml.markdown) &&
      ml.markdown != "rendered"
  {
    PlainLinkOutputs();
    assert PlainLink.markdown != "rendered";
    assert {"Peterson2017"} != {};
  }

  // ---------------------------------------------------------------------
  // The renderer
  // ---------------------------------------------------------------------

  /** `TemplateRenderer`: renders one document against datasets by prefix. */
  class TemplateRenderer {
    const doc: seq<Piece>
    const datasets: map<Option<string>, Datum>
    const engine: Engine
    var withPartialLocalReflist: bool
    var cited: Option<set<string>>

    constructor(doc: seq<Piece>, datasets: map<Option<string>, Datum>, engine: Engine)
      ensures this.doc == doc && this.datasets == datasets && this.engine == engine
      ensures !withPartialLocalReflist && cited.None?
    {
      this.doc := doc;
      this.datasets := datasets;
      this.engine := engine;
      withPartialLocalReflist := false;
      cited := None;
    }

    /** `render_link(ml)`: a reference list met before any source is known to
        be cited asks for a second pass. */
    method RenderLink(ml: Link) returns (r: Result<string>)
      modifies this
      ensures r == LinkOutput(ml, datasets, cited, engine)
      ensures cited == old(cited)
      ensures withPartialLocalReflist == (old(withPartialLocalReflist) || (r.Ok? && SetsFlag(ml, datasets, cited)))
    {
      var ref := RefLink(ml, datasets);
      if ref.Err? {
        return Err(ref.reason);
      }
      if CitedTruthy(cited) {
        if ref.value {
          r := RefList(ml, datasets, cited.value, engine);
          return;
        }
      } else if ref.value {
        withPartialLocalReflist := true;
        return Ok(ml.markdown);
      }
      r := Rendered(ml, datasets, engine);
    }

    /** One `super().render()` pass over the document. */
    method RenderPass() returns (r: Result<string>)
      modifies this
      ensures r == Pass(doc, datasets, cited, engine).0
      ensures cited == old(cited)
      ensures withPartialLocalReflist == (old(withPartialLocalReflist) || Pass(doc, datasets, cited, engine).1)
    {
      var out := "";
      ghost var start := withPartialLocalReflist;
      for i := 0 to |doc|
        invariant cited == old(cited)
        invariant Pass(doc[..i], datasets, cited, engine).0 == Ok(out)
        invariant withPartialLocalReflist == (start || Pass(doc[..i], datasets, cited, engine).1)
      {
        assert doc[..i + 1][..i] == doc[..i];
        match doc[i]
        case Plain(t) =>
          out := out + t;
        case CldfLink(ml) =>
          var s := RenderLink(ml);
          if s.Err? {
            PassSticky(doc, i + 1, datasets, cited, engine);
            return s;
          }
          out := out + s.value;
      }
      assert doc[..|doc|] == doc;
      r := Ok(out);
    }

    /** `render()`: the two passes. */
    method Render(urls: string -> seq<string>) returns (r: Result<string>)
      requires !withPartialLocalReflist && cited.None?
      modifies this
      ensures r == TwoPass(doc, datasets, engine, urls)
    {
      r := RenderPass();
      if r.Ok? && withPartialLocalReflist {
        cited := Some(CitedIds(urls(r.value)));
        r := RenderPass();
      }
    }
  }

  /** Once a pass has failed, its error stands. */
  lemma {:induction false} PassSticky(doc: seq<Piece>, k: nat, datasets: map<Option<string>, Datum>, cited: Option<set<string>>, engine: Engine)
    requires k <= |doc| && Pass(doc[..k], datasets, cited, engine).0.Err?
    ensures Pass(doc, datasets, cited, engine) == Pass(doc[..k], datasets, cited, engine)
    decreases |doc| - k
  {
    if k < |doc| {
      assert doc[..k + 1][..k] == doc[..k];
      PassSticky(doc, k + 1, datasets, cited, engine);
    } else {
      assert doc[..k] == doc;
    }
  }

  /** `render(doc, cldf_dict, ...)`: a bare dataset is wrapped as the dataset
      without prefix, and the document rendered in two passes. */
  method Render(doc: seq<Piece>, cldf: CldfArg, engine: Engine, urls: string -> seq<string>) returns (r: Result<string>)
    ensures r == TwoPass(doc, DatasetMapping(cldf), engine, urls)
  {
    var proc := new TemplateRenderer(doc, DatasetMapping(cldf), engine);
    r := proc.Render(urls);
  }
}
