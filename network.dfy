/**
 * `cldfviz.commands.network`: a CLDF ParameterNetwork as a DOT (or GraphML)
 * graph. Edges are filtered by JSON criteria and optionally restricted to one
 * connected component; the nodes are the parameters the remaining edges touch;
 * node and edge attributes are computed from a specification that may drop
 * edges; the DOT serialiser quotes every attribute value.
 *
 * Regular expression search and the connected component of a node are
 * parameters of the model; the GraphML XML tree is not modelled, only the
 * attribute type inference it is built on.
 */
module Network {
  import opened Common
  import opened Datum

  /** A ParameterTable row. */
  datatype ParamNode = ParamNode(id: string, name: Option<string>)

  /** A ParameterNetwork row: its endpoints, whether it is directed, and the
      values of its columns. */
  datatype Edge = Edge(source: string, target: string, directed: bool, data: map<string, Datum>)

  // ---------------------------------------------------------------------
  // Edge filter
  // ---------------------------------------------------------------------

  /** One `--edge-filters` criterion against one edge: a missing column raises
      `KeyError`; a list criterion is membership of the value in the list; a
      string criterion is a regular expression search in `str(value)`; any
      other criterion is equality. */
  function EdgeCriterion(data: map<string, Datum>, k: string, v: Datum,
                         search: (string, string) -> Result<bool>): (r: Result<bool>)
    ensures k !in data ==> r.Err?
    ensures k in data && v.DList? ==> r == Ok(exists i :: 0 <= i < |v.items| && PyEq(v.items[i], data[k]))
    ensures k in data && v.DStr? ==> r == search(v.s, PyStr(data[k]))
    ensures k in data && !v.DList? && !v.DStr? ==> r == Ok(PyEq(data[k], v))
  {
    if k !in data then Err("KeyError: " + k)
    else
      var val := data[k];
      if v.DList? then Ok(PyIn(val, v.items))
      else if v.DStr? then search(v.s, PyStr(val))
      else Ok(PyEq(val, v))
  }

  function EdgeTest(data: map<string, Datum>, search: (string, string) -> Result<bool>): ((string, Datum)) -> Result<bool>
  {
    (c: (string, Datum)) => EdgeCriterion(data, c.0, c.1, search)
  }

  /** `edge_filter(row)` */
  function EdgeFilter(criteria: seq<(string, Datum)>, search: (string, string) -> Result<bool>): Edge -> Result<bool>
  {
    (e: Edge) => AllHold(criteria, EdgeTest(e.data, search))
  }

  /** An edge passes iff it meets every criterion; without criteria every edge passes. */
  lemma EdgeFilterSpec(criteria: seq<(string, Datum)>, search: (string, string) -> Result<bool>, e: Edge)
    ensures EdgeFilter(criteria, search)(e) == Ok(true) <==>
      forall i :: 0 <= i < |criteria| ==> EdgeCriterion(e.data, criteria[i].0, criteria[i].1, search) == Ok(true)
    ensures criteria == [] ==> EdgeFilter(criteria, search)(e) == Ok(true)
  {
    AllHoldSpec(criteria, EdgeTest(e.data, search));
  }

  /** The edges kept by `--edge-filters`, in table order. */
  function FilteredEdges(edges: seq<Edge>, criteria: seq<(string, Datum)>, search: (string, string) -> Result<bool>): Result<seq<Edge>>
  {
    FilterOk(edges, EdgeFilter(criteria, search))
  }

  lemma FilteredEdgesSpec(edges: seq<Edge>, criteria: seq<(string, Datum)>, search: (string, string) -> Result<bool>)
    ensures FilteredEdges(edges, criteria, search).Ok? ==>
      forall e :: e in FilteredEdges(edges, criteria, search).value <==> e in edges && EdgeFilter(criteria, search)(e) == Ok(true)
    ensures FilteredEdges(edges, criteria, search).Ok? <==>
      forall i :: 0 <= i < |edges| ==> EdgeFilter(criteria, search)(edges[i]).Ok?
  {
    FilterOkSpec(edges, EdgeFilter(criteria, search));
  }

  // ---------------------------------------------------------------------
  // Component and node selection
  // ---------------------------------------------------------------------

  /** The first ParameterTable row named by `--parameter`, by name or by id. */
  function FindParameter(pnodes: seq<(string, ParamNode)>, parameter: string): (r: Option<nat>)
    ensures r.Some? ==> r.value < |pnodes| && (pnodes[r.value].1.name == Some(parameter) || pnodes[r.value].0 == parameter)
    ensures r.Some? ==> forall j :: 0 <= j < r.value ==> pnodes[j].1.name != Some(parameter) && pnodes[j].0 != parameter
    ensures r.None? ==> forall j :: 0 <= j < |pnodes| ==> pnodes[j].1.name != Some(parameter) && pnodes[j].0 != parameter
  {
    if pnodes == [] then None
    else if pnodes[0].1.name == Some(parameter) || pnodes[0].0 == parameter then Some(0)
    else
      match FindParameter(pnodes[1..], parameter)
      case None => None
      case Some(k) => Some(k + 1)
  }

  /** The edges whose source lies in `nodes`. */
  function EdgesFrom(edges: seq<Edge>, nodes: set<string>): (r: seq<Edge>)
    ensures forall e :: e in r <==> e in edges && e.source in nodes
  {
    FilterSeq(edges, (e: Edge) => e.source in nodes)
  }

  /** Lines 93-104: with `--parameter`, keep the edges of that parameter's
      connected component; a parameter that is not in the table is an error. */
  function SelectComponent(edges: seq<Edge>, pnodes: seq<(string, ParamNode)>, parameter: Option<string>,
                           component: (seq<(string, string)>, string) -> Result<set<string>>): (r: Result<seq<Edge>>)
    ensures parameter.None? || parameter.value == "" ==> r == Ok(edges)
    ensures parameter.Some? && parameter.value != "" && FindParameter(pnodes, parameter.value).None? ==> r.Err?
    ensures r.Ok? ==> forall e :: e in r.value ==> e in edges
  {
    if parameter.None? || parameter.value == "" then Ok(edges)
    else
      match FindParameter(pnodes, parameter.value)
      case None => Err("ValueError: Invalid parameter specified.")
      case Some(k) =>
        var graph := seq(|edges|, i requires 0 <= i < |edges| => (edges[i].source, edges[i].target));
        match component(graph, pnodes[k].0)
        case Err(e) => Err(e)
        case Ok(nodes) => Ok(EdgesFrom(edges, nodes))
  }

  /** The ids of the parameters some edge touches. */
  function Endpoints(edges: seq<Edge>): (r: set<string>)
    ensures forall id :: id in r <==> exists e :: e in edges && (e.source == id || e.target == id)
  {
    (set e | e in edges :: e.source) + (set e | e in edges :: e.target)
  }

  /** Lines 106-108: the parameters touched by the edges, in ParameterTable order. */
  function SelectNodes(pnodes: seq<(string, ParamNode)>, edges: seq<Edge>): (r: seq<(string, ParamNode)>)
    ensures forall p :: p in r <==> p in pnodes && exists e :: e in edges && (e.source == p.0 || e.target == p.0)
    ensures |r| <= |pnodes|
  {
    var ids := Endpoints(edges);
    FilterSeq(pnodes, (p: (string, ParamNode)) => p.0 in ids)
  }

  /** Table order is kept: the selected nodes are the table rows with the
      touched ids, in the order the table lists them. */
  lemma {:induction false} SelectNodesOrder(pnodes: seq<(string, ParamNode)>, edges: seq<Edge>, more: seq<(string, ParamNode)>)
    ensures SelectNodes(pnodes + more, edges) == SelectNodes(pnodes, edges) + SelectNodes(more, edges)
  {
    FilterSeqAppend(pnodes, more, (p: (string, ParamNode)) => p.0 in Endpoints(edges));
  }

  // ---------------------------------------------------------------------
  // Attributes
  // ---------------------------------------------------------------------

  /** An attribute specification value: a literal, or a function of the object. */
  datatype AttrSpec<!T> = Literal(v: Datum) | Computed(f: T -> Datum)

  function Eval<T>(s: AttrSpec<T>, obj: T): Datum
  {
    match s
    case Literal(v) => v
    case Computed(f) => f(obj)
  }

  /** A computed `drop` entry that asks for the object to be dropped. */
  predicate DropsAt<T>(spec: seq<(string, AttrSpec<T>)>, obj: T, i: int)
  {
    0 <= i < |spec| && spec[i].0 == "drop" && spec[i].1.Computed? && Truthy(spec[i].1.f(obj))
  }

  /** The attributes and the drop flag after processing `spec` in order; once
      dropped, nothing more is processed. */
  function Attrs<T>(spec: seq<(string, AttrSpec<T>)>, obj: T): (seq<(string, Datum)>, bool)
  {
    if spec == [] then ([], false)
    else
      var (attrs, drop) := Attrs(spec[..|spec| - 1], obj);
      var (k, s) := spec[|spec| - 1];
      if drop then (attrs, drop)
      else if s.Computed? && k == "drop" && Truthy(s.f(obj)) then (attrs, true)
      else if k != "drop" then (Put(attrs, k, Eval(s, obj)), false)
      else (attrs, false)
  }

  /** `compute_attrs(spec, obj)`: evaluates the specification, stopping at a
      computed `drop` entry that returns a truthy value. */
  method ComputeAttrs<T>(spec: seq<(string, AttrSpec<T>)>, obj: T) returns (attrs: seq<(string, Datum)>, drop: bool)
    ensures (attrs, drop) == Attrs(spec, obj)
  {
    attrs, drop := [], false;
    var i := 0;
    while i < |spec|
      invariant 0 <= i <= |spec|
      invariant Attrs(spec[..i], obj) == (attrs, false)
      invariant !drop
    {
      assert spec[..i + 1][..i] == spec[..i];
      var (k, v) := spec[i];
      if v.Computed? {
        var x := v.f(obj);
        if k == "drop" && Truthy(x) {
          drop := true;
          AttrsStopped(spec, obj, i + 1);
          return;
        }
      }
      if k != "drop" {
        attrs := Put(attrs, k, Eval(v, obj));
      }
      i := i + 1;
    }
    assert spec[..i] == spec;
  }

  /** After a drop the result no longer changes. */
  lemma {:induction false} AttrsStopped<T>(spec: seq<(string, AttrSpec<T>)>, obj: T, k: nat)
    requires k <= |spec| && Attrs(spec[..k], obj).1
    ensures Attrs(spec, obj) == Attrs(spec[..k], obj)
    decreases |spec| - k
  {
    if k < |spec| {
      assert spec[..k + 1][..k] == spec[..k];
      AttrsStopped(spec, obj, k + 1);
    } else {
      assert spec[..k] == spec;
    }
  }

  /** `drop` is never an attribute. */
  lemma {:induction false} AttrsNoDrop<T>(spec: seq<(string, AttrSpec<T>)>, obj: T)
    ensures "drop" !in Keys(Attrs(spec, obj).0)
  {
    if spec != [] {
      var init := spec[..|spec| - 1];
      AttrsNoDrop(init, obj);
      var (attrs, drop) := Attrs(init, obj);
      var (k, s) := spec[|spec| - 1];
      if !drop && k != "drop" {
        PutKeys(attrs, k, Eval(s, obj));
      }
    }
  }

  /** The object is dropped iff some computed `drop` entry returns a truthy value. */
  lemma {:induction false} AttrsDrop<T>(spec: seq<(string, AttrSpec<T>)>, obj: T)
    ensures Attrs(spec, obj).1 <==> exists i :: DropsAt(spec, obj, i)
  {
    if spec != [] {
      var init := spec[..|spec| - 1];
      AttrsDrop(init, obj);
      var (attrs, drop) := Attrs(init, obj);
      var (k, s) := spec[|spec| - 1];
      assert forall i :: 0 <= i < |init| ==> spec[i] == init[i];
      if drop {
        var i :| DropsAt(init, obj, i);
        assert DropsAt(spec, obj, i);
      } else if s.Computed? && k == "drop" && Truthy(s.f(obj)) {
        assert DropsAt(spec, obj, |spec| - 1);
      } else {
        forall i | 0 <= i < |spec| ensures !DropsAt(spec, obj, i) {
          if i < |init| {
            assert !DropsAt(init, obj, i);
          }
        }
      }
    }
  }

  /** Without a drop, every key of the specification except `drop` is an
      attribute with its evaluated value. */
  lemma {:induction false} AttrsValues<T>(spec: seq<(string, AttrSpec<T>)>, obj: T, i: nat)
    requires !Attrs(spec, obj).1
    requires i < |spec| && spec[i].0 != "drop"
    requires forall j :: i < j < |spec| ==> spec[j].0 != spec[i].0
    ensures Get(Attrs(spec, obj).0, spec[i].0) == Some(Eval(spec[i].1, obj))
  {
    var init := spec[..|spec| - 1];
    var (attrs, drop) := Attrs(init, obj);
    var (k, s) := spec[|spec| - 1];
    if drop {
      assert false;
    } else {
      if i == |spec| - 1 {
        PutGet(attrs, k, Eval(s, obj), k);
      } else {
        assert init[i] == spec[i];
        AttrsValues(init, obj, i);
        if k != "drop" {
          PutGet(attrs, k, Eval(s, obj), spec[i].0);
        }
      }
    }
  }

  /** An edge survives when its attributes do not ask for it to be dropped. */
  function Survives(spec: seq<(string, AttrSpec<Edge>)>): Edge -> bool
  {
    e => !Attrs(spec, e).1
  }

  /** Lines 124-126: edges with their attributes, without the dropped ones;
      the edges kept are the surviving edges, in their order. */
  function EdgesWithAttrs(edges: seq<Edge>, spec: seq<(string, AttrSpec<Edge>)>): (r: seq<(Edge, seq<(string, Datum)>)>)
    ensures |r| == |FilterSeq(edges, Survives(spec))|
    ensures forall i :: 0 <= i < |r| ==> r[i].0 == FilterSeq(edges, Survives(spec))[i]
    ensures forall i :: 0 <= i < |r| ==> r[i].1 == Attrs(spec, r[i].0).0 && !Attrs(spec, r[i].0).1
    ensures forall e :: e in edges && !Attrs(spec, e).1 ==> (e, Attrs(spec, e).0) in r
  {
    if edges == [] then []
    else
      var rest := EdgesWithAttrs(edges[1..], spec);
      var (attrs, drop) := Attrs(spec, edges[0]);
      if drop then rest else [(edges[0], attrs)] + rest
  }

  /** Lines 127-128: every node keeps its place; a node `drop` only cuts its
      attributes short. */
  function NodesWithAttrs(nodes: seq<(string, ParamNode)>, spec: seq<(string, AttrSpec<ParamNode>)>): (r: seq<(ParamNode, seq<(string, Datum)>)>)
    ensures |r| == |nodes|
    ensures forall i :: 0 <= i < |r| ==> r[i] == (nodes[i].1, Attrs(spec, nodes[i].1).0)
  {
    seq(|nodes|, i requires 0 <= i < |nodes| => (nodes[i].1, Attrs(spec, nodes[i].1).0))
  }

  // ---------------------------------------------------------------------
  // DOT
  // ---------------------------------------------------------------------

  function Escape(s: string): string
  {
    ReplaceChar(s, '"', "\\\"")
  }

  /** Reads an escaped string back: `\"` stands for `"`. */
  function Unescape(s: string): string
  {
    if |s| >= 2 && s[0] == '\\' && s[1] == '"' then "\"" + Unescape(s[2..])
    else if s == [] then []
    else [s[0]] + Unescape(s[1..])
  }

  /** An escaped string has no quote that is not preceded by a backslash, and
      it begins with a backslash or with the original's first character. */
  lemma {:induction false} EscapeShape(s: string)
    ensures forall i :: 0 <= i < |Escape(s)| && Escape(s)[i] == '"' ==> i > 0 && Escape(s)[i - 1] == '\\'
    ensures s != [] ==> Escape(s)[0] == (if s[0] == '"' then '\\' else s[0])
    ensures s == [] <==> Escape(s) == []
  {
    if s != [] {
      EscapeShape(s[1..]);
      var head := if s[0] == '"' then "\\\"" else [s[0]];
      assert Escape(s) == head + Escape(s[1..]);
    }
  }

  /** Escaping loses nothing. */
  lemma {:induction false} UnescapeEscape(s: string)
    ensures Unescape(Escape(s)) == s
  {
    if s != [] {
      UnescapeEscape(s[1..]);
      var rest := Escape(s[1..]);
      EscapeShape(s[1..]);
      if s[0] == '"' {
        assert Escape(s) == "\\\"" + rest;
        assert Escape(s)[2..] == rest;
      } else {
        assert Escape(s) == [s[0]] + rest;
        assert Escape(s)[1..] == rest;
        if s[0] == '\\' && rest != [] {
          assert rest[0] != '"';
        }
      }
      assert s == [s[0]] + s[1..];
    }
  }

  /** `dot_id(v)`: `str(v)` in double quotes, inner quotes escaped. */
  function DotId(v: Datum): (r: string)
    ensures |r| >= 2 && r[0] == '"' && r[|r| - 1] == '"'
    ensures Unescape(r[1..|r| - 1]) == PyStr(v)
  {
    var e := Escape(PyStr(v));
    UnescapeEscape(PyStr(v));
    assert ("\"" + e + "\"")[1..|e| + 1] == e;
    "\"" + e + "\""
  }

  function AttrPairs(attrs: seq<(string, Datum)>): (r: seq<string>)
    ensures |r| <= |attrs|
    ensures r == [] <==> forall i :: 0 <= i < |attrs| ==> attrs[i].1 == DNull
  {
    if attrs == [] then []
    else
      var rest := AttrPairs(attrs[1..]);
      assert forall i :: 1 <= i < |attrs| ==> attrs[i] == attrs[1..][i - 1];
      if attrs[0].1 == DNull then rest else ["\"" + attrs[0].0 + "\"=" + DotId(attrs[0].1)] + rest
  }

  /** `format_attrs(attrs)`: `None` values are left out; no attributes give
      the empty string, others ` [k=v;...]` in insertion order. */
  function FormatAttrs(attrs: seq<(string, Datum)>): (r: string)
    ensures r == "" <==> forall i :: 0 <= i < |attrs| ==> attrs[i].1 == DNull
    ensures r != "" ==> |r| >= 3 && r[..2] == " [" && r[|r| - 1] == ']'
  {
    var pairs := AttrPairs(attrs);
    if pairs == [] then "" else " [" + Join(";", pairs) + "]"
  }

  function NameDatum(name: Option<string>): Datum
  {
    if name.Some? then DStr(name.value) else DNull
  }

  /** The line of a node: its quoted id and its attributes, labelled with its
      name unless they say otherwise. */
  function NodeLine(item: (ParamNode, seq<(string, Datum)>)): string
  {
    "\"" + item.0.id + "\"" + FormatAttrs(SetDefault(item.1, "label", NameDatum(item.0.name)))
  }

  function EdgeAttrs(edge: Edge, attrs: seq<(string, Datum)>): seq<(string, Datum)>
  {
    if !edge.directed then SetDefault(attrs, "dir", DStr("none")) else attrs
  }

  /** The line of an edge: its quoted endpoints and its attributes. */
  function EdgeLine(item: (Edge, seq<(string, Datum)>)): string
  {
    "\"" + item.0.source + "\" -> \"" + item.0.target + "\"" + FormatAttrs(EdgeAttrs(item.0, item.1))
  }

  /** A node is labelled with its parameter name, and an undirected edge drawn
      without arrow head, unless the attributes say otherwise. */
  lemma DefaultAttrs(node: ParamNode, edge: Edge, attrs: seq<(string, Datum)>)
    ensures Get(SetDefault(attrs, "label", NameDatum(node.name)), "label") ==
      if "label" in Keys(attrs) then Get(attrs, "label") else Some(NameDatum(node.name))
    ensures !edge.directed ==> (Get(EdgeAttrs(edge, attrs), "dir") ==
      if "dir" in Keys(attrs) then Get(attrs, "dir") else Some(DStr("none")))
    ensures edge.directed ==> EdgeAttrs(edge, attrs) == attrs
  {
    SetDefaultKeys(attrs, "label", NameDatum(node.name));
    SetDefaultKeys(attrs, "dir", DStr("none"));
  }

  /** One line per item, in order. */
  function Lines<T>(items: seq<T>, line: T -> string): seq<string>
  {
    seq(|items|, i requires 0 <= i < |items| => line(items[i]))
  }

  /** `iter_lines()`: the header, one line per node, one per edge, the footer. */
  method IterLines(nodes: seq<(ParamNode, seq<(string, Datum)>)>, edges: seq<(Edge, seq<(string, Datum)>)>) returns (lines: seq<string>)
    ensures lines == ["digraph {"] + Lines(nodes, NodeLine) + Lines(edges, EdgeLine) + ["}"]
  {
    var nodeLines := FormatEach(nodes, NodeLine);
    var edgeLines := FormatEach(edges, EdgeLine);
    lines := ["digraph {"] + nodeLines + edgeLines + ["}"];
  }

  /** One loop of `iter_lines()`: a line for each item, in order. */
  method FormatEach<T>(items: seq<T>, line: T -> string) returns (lines: seq<string>)
    ensures lines == Lines(items, line)
  {
    lines := [];
    for i := 0 to |items|
      invariant |lines| == i
      invariant forall k :: 0 <= k < i ==> lines[k] == line(items[k])
    {
      lines := lines + [line(items[i])];
    }
  }

  /** `dot(nodes, edges)` */
  method Dot(nodes: seq<(ParamNode, seq<(string, Datum)>)>, edges: seq<(Edge, seq<(string, Datum)>)>) returns (r: string)
    ensures r == Join("\n", ["digraph {"] + Lines(nodes, NodeLine) + Lines(edges, EdgeLine) + ["}"])
    ensures StartsWith(r, "digraph {")
    ensures nodes == [] && edges == [] ==> r == "digraph {\n}"
  {
    var lines := IterLines(nodes, edges);
    r := Join("\n", lines);
    JoinHead("\n", lines);
    assert r[..|lines[0]|] == lines[0];
  }

  lemma JoinHead(sep: string, parts: seq<string>)
    requires |parts| >= 2
    ensures Join(sep, parts) == parts[0] + sep + Join(sep, parts[1..])
  {
  }

  // ---------------------------------------------------------------------
  // GraphML attribute types
  // ---------------------------------------------------------------------

  function TypeOf(v: Datum): Option<string>
  {
    match v
    case DBool(_) => Some("boolean")
    case DInt(_) => Some("long")
    case DFloat(_, _) => Some("double")
    case _ => None
  }

  /** `infer_type(values)` */
  function InferType(values: seq<Datum>): string
  {
    if values == [] then "string"
    else if TypeOf(values[0]).Some? then TypeOf(values[0]).value
    else InferType(values[1..])
  }

  /** `values[i]` is the first boolean, integer or float value. */
  predicate FirstTyped(values: seq<Datum>, i: int)
  {
    0 <= i < |values| && TypeOf(values[i]).Some? && forall j :: 0 <= j < i ==> TypeOf(values[j]).None?
  }

  /** The type of the first boolean, integer or float value; `string` if there
      is none. Booleans are recognised before integers. */
  lemma {:induction false} InferTypeSpec(values: seq<Datum>)
    ensures InferType(values) == "string" <==> forall i :: 0 <= i < |values| ==> TypeOf(values[i]).None?
    ensures InferType(values) != "string" ==> exists i :: FirstTyped(values, i) && TypeOf(values[i]) == Some(InferType(values))
  {
    if values != [] && TypeOf(values[0]).None? {
      var tail := values[1..];
      InferTypeSpec(tail);
      assert forall i :: 0 <= i < |tail| ==> tail[i] == values[i + 1];
      if InferType(tail) != "string" {
        var i :| FirstTyped(tail, i) && TypeOf(tail[i]) == Some(InferType(tail));
        assert FirstTyped(values, i + 1);
      }
    }
  }

  /** ASCII `str.lower()` of one character. */
  function LowerChar(c: char): char
  {
    if 'A' <= c <= 'Z' then (c as int + 32) as char else c
  }

  /** `str.lower()`: each character lowered, in place; upper-case letters
      become lower-case and nothing else changes. */
  function ToLower(s: string): (r: string)
    ensures |r| == |s|
    ensures forall i :: 0 <= i < |s| ==> r[i] == LowerChar(s[i])
    ensures forall i :: 0 <= i < |s| ==> ('A' <= s[i] <= 'Z' <==> r[i] != s[i])
  {
    if s == [] then []
    else [LowerChar(s[0])] + ToLower(s[1..])
  }

  /** The converter `infer_type` returns, applied to a value. */
  function Convert(typ: string, v: Datum): string
  {
    if typ == "boolean" then ToLower(PyStr(v)) else PyStr(v)
  }

  lemma ConvertBool(b: bool)
    ensures Convert("boolean", DBool(b)) == if b then "true" else "false"
  {
    assert ToLower("e") == "e";
    assert ToLower("ue") == "ue";
    assert ToLower("se") == "se";
    assert ToLower("rue") == "rue";
    assert ToLower("lse") == "lse";
    assert ToLower("alse") == "alse";
  }

  function CollectDict(acc: seq<(string, seq<Datum>)>, attr: seq<(string, Datum)>): seq<(string, seq<Datum>)>
    decreases |attr|
  {
    if attr == [] then acc
    else CollectDict(AppendAt(acc, attr[0].0, attr[0].1), attr[1..])
  }

  /** The values collected per key over all attribute dictionaries. */
  function ValuesByKey(attrs: seq<seq<(string, Datum)>>): seq<(string, seq<Datum>)>
  {
    if attrs == [] then [] else CollectDict(ValuesByKey(attrs[..|attrs| - 1]), attrs[|attrs| - 1])
  }

  /** The values of `k`, dictionary by dictionary. */
  function ValuesOf(attrs: seq<seq<(string, Datum)>>, k: string): seq<Datum>
  {
    if attrs == [] then []
    else ValuesOf(attrs[..|attrs| - 1], k) + EntryValues(attrs[|attrs| - 1], k)
  }

  function EntryValues(attr: seq<(string, Datum)>, k: string): seq<Datum>
  {
    if attr == [] then []
    else (if attr[0].0 == k then [attr[0].1] else []) + EntryValues(attr[1..], k)
  }

  lemma {:induction false} CollectDictGet(acc: seq<(string, seq<Datum>)>, attr: seq<(string, Datum)>, k: string)
    ensures Get(CollectDict(acc, attr), k).GetOr([]) == Get(acc, k).GetOr([]) + EntryValues(attr, k)
    ensures Get(CollectDict(acc, attr), k).Some? <==> Get(acc, k).Some? || k in Keys(attr)
    decreases |attr|
  {
    if attr != [] {
      var acc' := AppendAt(acc, attr[0].0, attr[0].1);
      AppendAtGet(acc, attr[0].0, attr[0].1, k);
      CollectDictGet(acc', attr[1..], k);
      assert Keys(attr) == [attr[0].0] + Keys(attr[1..]);
    }
  }

  /** Every key that occurs gets the list of all its values in order; no other
      key is present. */
  lemma ValuesByKeySpec(attrs: seq<seq<(string, Datum)>>, k: string)
    ensures Get(ValuesByKey(attrs), k).GetOr([]) == ValuesOf(attrs, k)
    ensures Get(ValuesByKey(attrs), k).Some? <==> exists i :: 0 <= i < |attrs| && k in Keys(attrs[i])
  {
    ValuesByKeyGet(attrs, k);
    ValuesByKeyHas(attrs, k);
  }

  lemma {:induction false} ValuesByKeyGet(attrs: seq<seq<(string, Datum)>>, k: string)
    ensures Get(ValuesByKey(attrs), k).GetOr([]) == ValuesOf(attrs, k)
  {
    if attrs != [] {
      var init := attrs[..|attrs| - 1];
      ValuesByKeyGet(init, k);
      CollectDictGet(ValuesByKey(init), attrs[|attrs| - 1], k);
    }
  }

  lemma {:induction false} ValuesByKeyHas(attrs: seq<seq<(string, Datum)>>, k: string)
    ensures Get(ValuesByKey(attrs), k).Some? <==> exists i :: 0 <= i < |attrs| && k in Keys(attrs[i])
  {
    if attrs != [] {
      var init := attrs[..|attrs| - 1];
      ValuesByKeyHas(init, k);
      CollectDictGet(ValuesByKey(init), attrs[|attrs| - 1], k);
      if exists i :: 0 <= i < |attrs| && k in Keys(attrs[i]) {
        var i :| 0 <= i < |attrs| && k in Keys(attrs[i]);
        assert i == |init| || init[i] == attrs[i];
      }
      if Get(ValuesByKey(init), k).Some? {
        var i :| 0 <= i < |init| && k in Keys(init[i]);
        assert init[i] == attrs[i];
      }
    }
  }

  /** `iter_attributes(attrs)`: each key with the type inferred from all its
      values; nothing for an empty list. */
  method IterAttributes(attrs: seq<seq<(string, Datum)>>) returns (r: seq<(string, string)>)
    ensures Keys(r) == Keys(ValuesByKey(attrs))
    ensures forall i :: 0 <= i < |r| ==> r[i].1 == InferType(ValuesByKey(attrs)[i].1)
  {
    var values: seq<(string, seq<Datum>)> := [];
    for i := 0 to |attrs|
      invariant values == ValuesByKey(attrs[..i])
    {
      assert attrs[..i + 1][..i] == attrs[..i];
      var attr := attrs[i];
      ghost var start := values;
      for j := 0 to |attr|
        invariant CollectDict(values, attr[j..]) == CollectDict(start, attr)
      {
        assert attr[j..][1..] == attr[j + 1..];
        values := AppendAt(values, attr[j].0, attr[j].1);
      }
    }
    assert attrs[..|attrs|] == attrs;
    r := [];
    for i := 0 to |values|
      invariant |r| == i
      invariant forall k :: 0 <= k < i ==> r[k] == (values[k].0, InferType(values[k].1))
    {
      r := r + [(values[i].0, InferType(values[i].1))];
    }
  }
}
