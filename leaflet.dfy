/**
 * `cldfviz.map.leaflet.MapLeaflet`: a Leaflet web map. Each language becomes
 * a GeoJSON point feature with an SVG marker and popup properties; the legend
 * is an HTML table with one block per parameter.
 *
 * The marker drawing (`svg.icon`, `svg.pie`, `svg.data_url`), the choice of a
 * shape marker (`get_shape_and_color` with `SVG_SHAPE_MAP`), the colour
 * weighting (`weighted_colors`), the colormaps, and the rounding of legend
 * numbers are parameters. Writing the HTML page is not modelled.
 */
module Leaflet {
  import opened Common
  import opened Datum
  import MP = Multiparameter
  import HtmlMap

  /** The central longitude of a Pacific-centred map. */
  const PacificCentered: int := 154

  /** What the map needs from the command line and the drawing library. */
  datatype Config = Config(
    pacificCentered: bool,
    markersize: int,
    valueTemplate: (string, string) -> string,
    shape: seq<(real, string)> -> Option<(string, string)>,
    dataUrl: Icon -> string)

  // ---------------------------------------------------------------------
  // Coordinates
  // ---------------------------------------------------------------------

  /** Lines 124-129: longitude and latitude of a language. On a Pacific-centred
      map, longitudes at or west of `PacificCentered - 180` move east by 360
      degrees, so that every longitude lies east of that meridian. */
  function LonLat(lang: MP.Language, pacificCentered: bool): (r: (real, real))
    ensures r.1 == lang.lat
    ensures !pacificCentered ==> r.0 == lang.lon
    ensures r.0 == lang.lon || r.0 == lang.lon + 360.0
    ensures pacificCentered && -180.0 <= lang.lon <= 180.0 ==>
      (PacificCentered - 180) as real < r.0 <= (PacificCentered + 180) as real
  {
    var lon := if pacificCentered && lang.lon <= (PacificCentered - 180) as real then lang.lon + 360.0 else lang.lon;
    (lon, lang.lat)
  }

  /** The Leaflet map and the HTML map of the `htmlmap` command centre the
      Pacific at the same meridian. */
  lemma LonLatAgreesWithHtmlMap(lang: MP.Language)
    ensures LonLat(lang, true).0 == HtmlMap.PacificLon(lang.lon)
  {
  }

  // ---------------------------------------------------------------------
  // Marker icons
  // ---------------------------------------------------------------------

  /** A marker colour: a bare colour string or an explicit `(weight, colour)`. */
  datatype ColorSpec = Bare(color: string) | Weighted(weight: real, color: string)

  /** The colours `_icon` is given: plain colours, or pairs whose second
      components are the colours of a shape marker. */
  datatype IconInput = Plain(colors: seq<ColorSpec>) | Paired(pairs: seq<(ColorSpec, string)>)

  /** A marker: a shape icon with its code, or a pie with slice weights and colours. */
  datatype Icon = ShapeIcon(code: string) | PieIcon(weights: seq<real>, colors: seq<string>)

  /** Line 139: bare colours get the weight `1 / len(colors)`, weighted ones keep theirs. */
  function Weigh(colors: seq<ColorSpec>): seq<(real, string)>
  {
    seq(|colors|, i requires 0 <= i < |colors| =>
      if colors[i].Bare? then (1.0 / (|colors| as real), colors[i].color) else (colors[i].weight, colors[i].color))
  }

  function SumWeights(ws: seq<(real, string)>): real
  {
    if ws == [] then 0.0 else SumWeights(ws[..|ws| - 1]) + ws[|ws| - 1].0
  }

  lemma {:induction false} SumEqualWeights(ws: seq<(real, string)>, w: real)
    requires forall i :: 0 <= i < |ws| ==> ws[i].0 == w
    ensures SumWeights(ws) == (|ws| as real) * w
  {
    if ws != [] {
      SumEqualWeights(ws[..|ws| - 1], w);
    }
  }

  /** Weighing keeps the colours in order and every explicit weight; bare
      colours share the pie equally, so colours that are all bare add up to a
      whole pie. */
  lemma WeighSpec(colors: seq<ColorSpec>)
    ensures |Weigh(colors)| == |colors|
    ensures forall i :: 0 <= i < |colors| ==> Weigh(colors)[i].1 == colors[i].color
    ensures forall i :: 0 <= i < |colors| && colors[i].Weighted? ==> Weigh(colors)[i].0 == colors[i].weight
    ensures colors != [] && (forall i :: 0 <= i < |colors| ==> colors[i].Bare?) ==> SumWeights(Weigh(colors)) == 1.0
  {
    if colors != [] && forall i :: 0 <= i < |colors| ==> colors[i].Bare? {
      var n := |colors| as real;
      SumEqualWeights(Weigh(colors), 1.0 / n);
    }
  }

  /** Lines 132-138: pairs are split into their colours and the shape colours. */
  function Split(input: IconInput): (seq<ColorSpec>, seq<string>)
  {
    match input
    case Plain(cs) => (cs, [])
    case Paired(ps) =>
      (seq(|ps|, i requires 0 <= i < |ps| => ps[i].0), seq(|ps|, i requires 0 <= i < |ps| => ps[i].1))
  }

  /** Lines 131-145: the marker for a list of colours. An empty list has no first
      element to inspect (an `IndexError`). When a shape applies, the icon is
      the shape code followed by the first shape colour (or the shape's own
      colour) without `#`; otherwise it is a pie of the weighed colours. */
  function MakeIcon(input: IconInput, shape: seq<(real, string)> -> Option<(string, string)>): (r: Result<Icon>)
    ensures r.Err? <==> Split(input).0 == []
  {
    var (colors, scolors) := Split(input);
    if colors == [] then Err("IndexError")
    else
      var weighted := Weigh(colors);
      match shape(weighted)
      case Some(res) =>
        Ok(ShapeIcon(res.0 + RemoveAll(if scolors != [] then scolors[0] else res.1, "#")))
      case None =>
        Ok(PieIcon(seq(|weighted|, i requires 0 <= i < |weighted| => weighted[i].0),
                   seq(|weighted|, i requires 0 <= i < |weighted| => weighted[i].1)))
  }

  /** A pie has one slice per colour, in order, with the colours' weights; a
      pie of bare colours is divided into equal slices that make a whole. */
  lemma PieSpec(input: IconInput, shape: seq<(real, string)> -> Option<(string, string)>)
    requires MakeIcon(input, shape).Ok? && MakeIcon(input, shape).value.PieIcon?
    ensures |MakeIcon(input, shape).value.colors| == |MakeIcon(input, shape).value.weights| == |Split(input).0|
    ensures forall i :: 0 <= i < |Split(input).0| ==> MakeIcon(input, shape).value.colors[i] == Split(input).0[i].color
    ensures (forall i :: 0 <= i < |Split(input).0| ==> Split(input).0[i].Bare?) ==>
      SumWeights(Weigh(Split(input).0)) == 1.0
  {
    WeighSpec(Split(input).0);
  }

  /** With pairs, a shape icon takes the colour of the first pair. */
  lemma ShapeColorOfPairs(ps: seq<(ColorSpec, string)>, shape: seq<(real, string)> -> Option<(string, string)>)
    requires ps != []
    requires shape(Weigh(Split(Paired(ps)).0)).Some?
    ensures MakeIcon(Paired(ps), shape) ==
      Ok(ShapeIcon(shape(Weigh(Split(Paired(ps)).0)).value.0 + RemoveAll(ps[0].1, "#")))
  {
  }

  // ---------------------------------------------------------------------
  // Feature properties
  // ---------------------------------------------------------------------

  /** `LeafletMarkerSpec`: a per-language override of the marker properties. */
  datatype MarkerSpec = MarkerSpec(
    icon: string, name: Option<string>, values: Option<string>, tooltip: Option<string>,
    tooltipClass: Option<string>, markersize: Option<int>, css: Option<string>)

  function StrField(s: Option<string>): Option<Datum>
  {
    if s.Some? then Some(DStr(s.value)) else None
  }

  /** `attr.asdict(spec)`, in field order, with `None` for unset fields. */
  function SpecFields(spec: MarkerSpec): seq<(string, Option<Datum>)>
  {
    [("icon", Some(DStr(spec.icon))), ("name", StrField(spec.name)), ("values", StrField(spec.values)),
     ("tooltip", StrField(spec.tooltip)), ("tooltip_class", StrField(spec.tooltipClass)),
     ("markersize", if spec.markersize.Some? then Some(DInt(spec.markersize.value)) else None),
     ("css", StrField(spec.css))]
  }

  /** Line 163: `props.update` with the set fields other than `css`. */
  function Override(props: seq<(string, Datum)>, fields: seq<(string, Option<Datum>)>): seq<(string, Datum)>
  {
    if fields == [] then props
    else
      var acc := Override(props, fields[..|fields| - 1]);
      var (k, v) := fields[|fields| - 1];
      if v.Some? && k != "css" then Put(acc, k, v.value) else acc
  }

  /** The value the last set field other than `css` gives to `k`, if any. */
  function LastSet(fields: seq<(string, Option<Datum>)>, k: string): Option<Datum>
  {
    if fields == [] then None
    else
      var (k', v) := fields[|fields| - 1];
      if k' == k && k != "css" && v.Some? then v else LastSet(fields[..|fields| - 1], k)
  }

  lemma {:induction false} OverrideGet(props: seq<(string, Datum)>, fields: seq<(string, Option<Datum>)>, k: string)
    ensures Get(Override(props, fields), k) == if LastSet(fields, k).Some? then LastSet(fields, k) else Get(props, k)
  {
    if fields != [] {
      var (k', v) := fields[|fields| - 1];
      OverrideGet(props, fields[..|fields| - 1], k);
      if v.Some? && k' != "css" {
        PutGet(Override(props, fields[..|fields| - 1]), k', v.value, k);
      }
    }
  }

  /** Lines 149-158: the properties of a language without an override. */
  function BaseProps(lang: MP.Language, values: string, iconUrl: string, markersize: int): seq<(string, Datum)>
  {
    [("name", DStr(lang.name)), ("tooltip", DStr(lang.name)), ("values", DStr(values)),
     ("icon", DStr(iconUrl)), ("markersize", DInt(markersize)), ("tooltip_class", DStr("tt"))]
  }

  /** Lines 149-163: the feature properties, with the spec's set fields applied. */
  function Props(lang: MP.Language, values: string, iconUrl: string, markersize: int, spec: Option<MarkerSpec>): seq<(string, Datum)>
  {
    var base := BaseProps(lang, values, iconUrl, markersize);
    if spec.Some? then Override(base, SpecFields(spec.value)) else base
  }

  /** The spec's value for a property, if it sets one. */
  function SpecValue(spec: MarkerSpec, k: string): Option<Datum>
  {
    if k == "icon" then Some(DStr(spec.icon))
    else if k == "name" then StrField(spec.name)
    else if k == "values" then StrField(spec.values)
    else if k == "tooltip" then StrField(spec.tooltip)
    else if k == "tooltip_class" then StrField(spec.tooltipClass)
    else if k == "markersize" then (if spec.markersize.Some? then Some(DInt(spec.markersize.value)) else None)
    else None
  }

  lemma LastSetAppend(fields: seq<(string, Option<Datum>)>, f: (string, Option<Datum>), k: string)
    ensures LastSet(fields + [f], k) == if f.0 == k && k != "css" && f.1.Some? then f.1 else LastSet(fields, k)
  {
    assert (fields + [f])[..|fields|] == fields;
  }

  lemma LastSetSpecFields(spec: MarkerSpec, k: string)
    ensures LastSet(SpecFields(spec), k) == SpecValue(spec, k)
  {
    var fs := SpecFields(spec);
    var p0: seq<(string, Option<Datum>)> := [];
    var p1 := p0 + [fs[0]];
    var p2 := p1 + [fs[1]];
    var p3 := p2 + [fs[2]];
    var p4 := p3 + [fs[3]];
    var p5 := p4 + [fs[4]];
    var p6 := p5 + [fs[5]];
    assert fs == p6 + [fs[6]];
    LastSetAppend(p0, fs[0], k);
    LastSetAppend(p1, fs[1], k);
    LastSetAppend(p2, fs[2], k);
    LastSetAppend(p3, fs[3], k);
    LastSetAppend(p4, fs[4], k);
    LastSetAppend(p5, fs[5], k);
    LastSetAppend(p6, fs[6], k);
  }

  /** A property is the spec's value where the spec sets it, and the default
      otherwise; unset fields and `css` never reach the properties. */
  lemma PropsSpec(lang: MP.Language, values: string, iconUrl: string, markersize: int, spec: Option<MarkerSpec>, k: string)
    ensures Get(Props(lang, values, iconUrl, markersize, spec), k) ==
      if spec.Some? && SpecValue(spec.value, k).Some? then SpecValue(spec.value, k)
      else Get(BaseProps(lang, values, iconUrl, markersize), k)
    ensures "css" !in Keys(Props(lang, values, iconUrl, markersize, spec))
  {
    PropsGet(lang, values, iconUrl, markersize, spec, k);
    PropsGet(lang, values, iconUrl, markersize, spec, "css");
    BasePropsNoCss(lang, values, iconUrl, markersize);
  }

  lemma BasePropsNoCss(lang: MP.Language, values: string, iconUrl: string, markersize: int)
    ensures Get(BaseProps(lang, values, iconUrl, markersize), "css") == None
  {
    assert Keys(BaseProps(lang, values, iconUrl, markersize)) == ["name", "tooltip", "values", "icon", "markersize", "tooltip_class"];
  }

  lemma PropsGet(lang: MP.Language, values: string, iconUrl: string, markersize: int, spec: Option<MarkerSpec>, k: string)
    ensures Get(Props(lang, values, iconUrl, markersize, spec), k) ==
      if spec.Some? && SpecValue(spec.value, k).Some? then SpecValue(spec.value, k)
      else Get(BaseProps(lang, values, iconUrl, markersize), k)
  {
    if spec.Some? {
      OverrideGet(BaseProps(lang, values, iconUrl, markersize), SpecFields(spec.value), k);
      LastSetSpecFields(spec.value, k);
    }
  }

  /** Lines 152-154: the template applied to each parameter with values and its
      first value. */
  function ValueParts(template: (string, string) -> string, values: seq<(string, seq<MP.Value>)>): seq<string>
  {
    if values == [] then []
    else
      var (pid, vals) := values[|values| - 1];
      ValueParts(template, values[..|values| - 1]) + (if vals != [] then [template(pid, vals[0].v)] else [])
  }

  /** The values property: the parts joined by " / ". */
  function ValuesProp(template: (string, string) -> string, values: seq<(string, seq<MP.Value>)>): string
  {
    Join(" / ", ValueParts(template, values))
  }

  function CountNonEmpty(values: seq<(string, seq<MP.Value>)>): nat
  {
    if values == [] then 0
    else CountNonEmpty(values[..|values| - 1]) + (if values[|values| - 1].1 != [] then 1 else 0)
  }

  /** One part per parameter with values; when every parameter has values (as
      for the languages `iter_languages` yields), the i-th part formats the
      i-th parameter and its first value. */
  lemma {:induction false} ValuePartsSpec(template: (string, string) -> string, values: seq<(string, seq<MP.Value>)>)
    ensures |ValueParts(template, values)| == CountNonEmpty(values) <= |values|
    ensures MP.AllNonEmpty(values) ==> CountNonEmpty(values) == |values|
    ensures MP.AllNonEmpty(values) ==>
      forall i :: 0 <= i < |values| ==> ValueParts(template, values)[i] == template(values[i].0, values[i].1[0].v)
  {
    if values != [] {
      var init := values[..|values| - 1];
      ValuePartsSpec(template, init);
      if MP.AllNonEmpty(values) {
        assert MP.AllNonEmpty(init) by {
          forall i | 0 <= i < |init| ensures init[i].1 != [] {
            assert init[i] == values[i];
          }
        }
        assert values[|values| - 1].1 != [];
        var parts := ValueParts(template, values);
        forall i | 0 <= i < |values|
          ensures parts[i] == template(values[i].0, values[i].1[0].v)
        {
          if i < |init| {
            assert parts[i] == ValueParts(template, init)[i];
            assert init[i] == values[i];
          }
        }
      }
    }
  }

  // ---------------------------------------------------------------------
  // The legend as an element tree
  // ---------------------------------------------------------------------

  /** An HTML element or a text node. */
  datatype Html = Elem(tag: string, attrs: seq<(string, string)>, children: seq<Html>) | Text(text: string)

  function Td(children: seq<Html>, attrs: seq<(string, string)>): Html
  {
    Elem("td", attrs, children)
  }

  function Tr(children: seq<Html>): Html
  {
    Elem("tr", [], children)
  }

  function Min(a: int, b: int): int
  {
    if a <= b then a else b
  }

  /** Lines 173-176: a marker image for plain colours. */
  function Marker(colors: seq<string>, cfg: Config): Html
    requires colors != []
  {
    var icon := MakeIcon(Plain(seq(|colors|, i requires 0 <= i < |colors| => Bare(colors[i]))), cfg.shape);
    Elem("img", [("src", cfg.dataUrl(icon.value)), ("width", IntToString(Min(20, cfg.markersize * 2)))], [])
  }

  /** Black at parameter `i`, white elsewhere; with a value colour, that colour at `i`. */
  function Highlight(n: nat, i: nat, color: string): seq<string>
  {
    seq(n, j requires 0 <= j < n => if j == i then color else "#ffffff")
  }

  function Separator(): Html
  {
    Tr([Elem("th", [("colspan", "2")], [Elem("hr", [], [])])])
  }

  /** Lines 182-186: the parameter's marker (black at its position) and its name. */
  function Header(params: seq<(string, MP.Parameter)>, i: nat, cfg: Config): Html
    requires i < |params|
  {
    Tr([Elem("th", [], [Marker(Highlight(|params|, i, "#000000"), cfg)]),
        Elem("th", [("style", "text-align: left;")], [Text(params[i].1.name)])])
  }

  /** Lines 194-199: the label of cell `j` of a colour bar. */
  function LabelCell(j: nat, lo: real, hi: real, show: real -> string): Html
  {
    if j == 0 then Td([Text(show(lo))], [])
    else if j == 10 then Td([Text(show(hi))], [("style", "text-align: right;")])
    else Td([Text(" ")], [])
  }

  /** Line 203: the value at cell `j` of a colour bar. */
  function BarValue(j: nat, lo: real, hi: real): real
  {
    lo + (j as real) * (hi - lo) / 10.0
  }

  /** Lines 200-203: the colour of cell `j` of a colour bar. */
  function ColorCell(pid: string, j: nat, lo: real, hi: real, continuous: (string, real) -> string): Html
  {
    Td([Text(" ")], [("style", "height: 20px; width: 1em; background-color: " + continuous(pid, BarValue(j, lo, hi)) + ";")])
  }

  function BarRow(labels: seq<Html>, colors: seq<Html>): Html
  {
    Tr([Td([Elem("table", [], [Tr(labels), Tr(colors)])], [("colspan", "2")])])
  }

  /** Lines 210-215: the row for one categorical value. */
  function ValueRow(params: seq<(string, MP.Parameter)>, i: nat, entry: (string, string), cfg: Config,
                    categorical: (string, string) -> string): Html
    requires i < |params|
  {
    Tr([Td([Marker(Highlight(|params|, i, categorical(params[i].0, entry.0)), cfg)], []),
        Td([Text(entry.1)], [])])
  }

  /** Lines 180-215: the rows of parameter `i`. */
  function ParamRows(params: seq<(string, MP.Parameter)>, i: nat, cfg: Config, categorical: (string, string) -> string,
                     continuous: (string, real) -> string, show: real -> string): seq<Html>
    requires i < |params|
  {
    var pid := params[i].0;
    var dom := params[i].1.domain;
    (if i != 0 then [Separator()] else []) + [Header(params, i, cfg)] +
    match dom
    case Range(lo, hi) =>
      [BarRow(seq(11, j requires 0 <= j < 11 => LabelCell(j, lo, hi, show)),
              seq(11, j requires 0 <= j < 11 => ColorCell(pid, j, lo, hi, continuous)))]
    case Mapping(entries) =>
      seq(|entries|, k requires 0 <= k < |entries| => ValueRow(params, i, entries[k], cfg, categorical))
  }

  /** The rows of the first `n` parameters. */
  function LegendRows(params: seq<(string, MP.Parameter)>, n: nat, cfg: Config, categorical: (string, string) -> string,
                      continuous: (string, real) -> string, show: real -> string): seq<Html>
    requires n <= |params|
  {
    if n == 0 then []
    else LegendRows(params, n - 1, cfg, categorical, continuous, show) + ParamRows(params, n - 1, cfg, categorical, continuous, show)
  }

  /** The number of rows parameter `i` contributes. */
  function RowCount(params: seq<(string, MP.Parameter)>, i: nat): nat
    requires i < |params|
  {
    (if i != 0 then 1 else 0) + 1 + (match params[i].1.domain case Range(_, _) => 1 case Mapping(entries) => |entries|)
  }

  function RowCounts(params: seq<(string, MP.Parameter)>, n: nat): nat
    requires n <= |params|
  {
    if n == 0 then 0 else RowCounts(params, n - 1) + RowCount(params, n - 1)
  }

  /** Each parameter contributes a separator (except the first), a header, and
      then one colour-bar row for a range or one row per categorical value. */
  lemma {:induction false} LegendRowsCount(params: seq<(string, MP.Parameter)>, n: nat, cfg: Config,
                                           categorical: (string, string) -> string,
                                           continuous: (string, real) -> string, show: real -> string)
    requires n <= |params|
    ensures |LegendRows(params, n, cfg, categorical, continuous, show)| == RowCounts(params, n)
  {
    if n > 0 {
      LegendRowsCount(params, n - 1, cfg, categorical, continuous, show);
    }
  }

  /** A colour bar has 11 cells per row: the first is labelled with the minimum
      and coloured for it, the last is labelled with the maximum and coloured
      for it, and the cells in between are unlabelled. */
  lemma BarSpec(pid: string, lo: real, hi: real, continuous: (string, real) -> string, show: real -> string)
    ensures LabelCell(0, lo, hi, show).children == [Text(show(lo))]
    ensures LabelCell(10, lo, hi, show).children == [Text(show(hi))]
    ensures forall j :: 0 < j < 10 ==> LabelCell(j, lo, hi, show).children == [Text(" ")]
    ensures BarValue(0, lo, hi) == lo && BarValue(10, lo, hi) == hi
    ensures forall j: nat :: j < 10 ==> BarValue(j, lo, hi) <= BarValue(j + 1, lo, hi) || hi < lo
  {
    forall j: nat | j < 10
      ensures BarValue(j, lo, hi) <= BarValue(j + 1, lo, hi) || hi < lo
    {
      assert BarValue(j + 1, lo, hi) - BarValue(j, lo, hi) == (hi - lo) / 10.0;
    }
  }

  /** A parameter's header marker is black exactly at the parameter's position. */
  lemma HighlightSpec(n: nat, i: nat, color: string)
    ensures |Highlight(n, i, color)| == n
    ensures forall j :: 0 <= j < n ==> (Highlight(n, i, color)[j] == color <==> j == i || color == "#ffffff")
  {
  }

  // ---------------------------------------------------------------------
  // The map
  // ---------------------------------------------------------------------

  /** A GeoJSON point feature. */
  datatype Feature = Feature(lon: real, lat: real, id: string, props: seq<(string, Datum)>)

  /** Lines 147-170: the feature of a language with the given marker. */
  function FeatureFor(lang: MP.Language, values: seq<(string, seq<MP.Value>)>, icon: Icon, spec: Option<MarkerSpec>,
                      cfg: Config): Feature
  {
    var ll := LonLat(lang, cfg.pacificCentered);
    Feature(ll.0, ll.1, lang.id,
            Props(lang, ValuesProp(cfg.valueTemplate, values), cfg.dataUrl(icon), cfg.markersize, spec))
  }

  /** Lines 160-161: the stylesheet a spec contributes, if its `css` is a non-empty string. */
  function CssOf(spec: Option<MarkerSpec>): set<string>
  {
    if spec.Some? && spec.value.css.Some? && spec.value.css.value != "" then {spec.value.css.value} else {}
  }

  /** Lines 190-207: the colour bar of a range, as a row holding a table of a
      label row and a colour row. */
  method ColorBar(pid: string, lo: real, hi: real, continuous: (string, real) -> string, show: real -> string)
      returns (row: Html)
    ensures row == BarRow(seq(11, j requires 0 <= j < 11 => LabelCell(j, lo, hi, show)),
                          seq(11, j requires 0 <= j < 11 => ColorCell(pid, j, lo, hi, continuous)))
  {
    var labels: seq<Html> := [];
    var cells: seq<Html> := [];
    for j := 0 to 11
      invariant |labels| == |cells| == j
      invariant forall k :: 0 <= k < j ==> labels[k] == LabelCell(k, lo, hi, show)
      invariant forall k :: 0 <= k < j ==> cells[k] == ColorCell(pid, k, lo, hi, continuous)
    {
      if j == 0 {
        labels := labels + [Td([Text(show(lo))], [])];
      } else if j == 10 {
        labels := labels + [Td([Text(show(hi))], [("style", "text-align: right;")])];
      } else {
        labels := labels + [Td([Text(" ")], [])];
      }
      var x := lo + (j as real) * (hi - lo) / 10.0;
      assert x == BarValue(j, lo, hi);
      cells := cells + [Td([Text(" ")], [("style", "height: 20px; width: 1em; background-color: " + continuous(pid, x) + ";")])];
      assert cells[j] == ColorCell(pid, j, lo, hi, continuous);
    }
    assert labels == seq(11, j requires 0 <= j < 11 => LabelCell(j, lo, hi, show));
    assert cells == seq(11, j requires 0 <= j < 11 => ColorCell(pid, j, lo, hi, continuous));
    row := BarRow(labels, cells);
  }

  /** Lines 180-215: the rows of parameter `i`: a separator unless it is the
      first, its header, then its colour bar or one row per value. */
  method ParameterRows(params: seq<(string, MP.Parameter)>, i: nat, cfg: Config, categorical: (string, string) -> string,
                       continuous: (string, real) -> string, show: real -> string) returns (rows: seq<Html>)
    requires i < |params|
    ensures rows == ParamRows(params, i, cfg, categorical, continuous, show)
  {
    var pid := params[i].0;
    var parameter := params[i].1;
    rows := [];
    if i != 0 {
      rows := rows + [Separator()];
    }
    rows := rows + [Header(params, i, cfg)];
    match parameter.domain {
      case Range(lo, hi) =>
        var bar := ColorBar(pid, lo, hi, continuous, show);
        rows := rows + [bar];
      case Mapping(entries) =>
        var valueRows := ValueRows(params, i, entries, cfg, categorical);
        rows := rows + valueRows;
    }
  }

  /** Lines 210-215: one row per categorical value, in order. */
  method ValueRows(params: seq<(string, MP.Parameter)>, i: nat, entries: seq<(string, string)>, cfg: Config,
                   categorical: (string, string) -> string) returns (rows: seq<Html>)
    requires i < |params|
    ensures rows == seq(|entries|, k requires 0 <= k < |entries| => ValueRow(params, i, entries[k], cfg, categorical))
  {
    rows := [];
    for k := 0 to |entries|
      invariant |rows| == k
      invariant forall m :: 0 <= m < k ==> rows[m] == ValueRow(params, i, entries[m], cfg, categorical)
    {
      rows := rows + [ValueRow(params, i, entries[k], cfg, categorical)];
    }
  }

  class MapLeaflet {
    var features: seq<Feature>
    var legend: Html
    var css: set<string>
    const cfg: Config

    /** Lines 79-83: no features, an empty legend, no stylesheets. */
    constructor(cfg: Config)
      ensures features == [] && legend == Text("") && css == {} && this.cfg == cfg
    {
      this.cfg := cfg;
      features := [];
      legend := Text("");
      css := {};
    }

    /** Lines 147-170: appends exactly one feature for the language, with its id
        and (possibly Pacific-shifted) coordinates, and collects the spec's
        stylesheet. A marker that cannot be drawn raises before anything
        changes. */
    method AddLanguage(lang: MP.Language, values: seq<(string, seq<MP.Value>)>, colors: IconInput, spec: Option<MarkerSpec>)
        returns (r: Result<Feature>)
      modifies this
      ensures r.Err? <==> MakeIcon(colors, cfg.shape).Err?
      ensures r.Err? ==> features == old(features) && css == old(css)
      ensures r.Ok? ==> r.value == FeatureFor(lang, values, MakeIcon(colors, cfg.shape).value, spec, cfg)
      ensures r.Ok? ==> features == old(features) + [r.value] && css == old(css) + CssOf(spec)
      ensures legend == old(legend)
    {
      var icon := MakeIcon(colors, cfg.shape);
      if icon.Err? {
        return Err(icon.reason);
      }
      if spec.Some? && spec.value.css.Some? && spec.value.css.value != "" {
        css := css + {spec.value.css.value};
      }
      var feature := FeatureFor(lang, values, icon.value, spec, cfg);
      features := features + [feature];
      r := Ok(feature);
    }

    /** Lines 172-216: the legend table, one block of rows per parameter. */
    method AddLegend(params: seq<(string, MP.Parameter)>, categorical: (string, string) -> string,
                     continuous: (string, real) -> string, show: real -> string)
      modifies this
      ensures legend == Elem("table", [("class", "legend")], LegendRows(params, |params|, cfg, categorical, continuous, show))
      ensures features == old(features) && css == old(css)
    {
      var trs: seq<Html> := [];
      for i := 0 to |params|
        invariant trs == LegendRows(params, i, cfg, categorical, continuous, show)
        invariant features == old(features) && css == old(css)
      {
        var rows := ParameterRows(params, i, cfg, categorical, continuous, show);
        trs := trs + rows;
      }
      legend := Elem("table", [("class", "legend")], trs);
    }
  }
}
