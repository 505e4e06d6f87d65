/**
 * Tree rendering helpers of `cldfviz.tree` and `cldfviz.commands.tree`: leaf
 * labels are renamed to `name--glottocode` before drawing, the figure style is
 * computed from the number of leaves, and after drawing every tip label that
 * carries a Glottocode is turned into a link to Glottolog by splitting the label
 * at the first `--` again.
 *
 * A Newick tree is a `Node` value; the SVG tip labels are an array of `Tip`
 * elements that the link post-processing rewrites in place.
 */
module Trees {
  import opened Common
  import opened Datum

  datatype Node = Node(name: Option<string>, children: seq<Node>)

  predicate IsLeaf(n: Node)
  {
    n.children == []
  }

  /** The number of leaves (`sum(1 for n in nwk.walk() if n.is_leaf)`). */
  function LeafCount(n: Node): (r: nat)
    ensures r >= 1
    decreases n, 1
  {
    if n.children == [] then 1 else LeafCountAll(n.children)
  }

  function LeafCountAll(ns: seq<Node>): (r: nat)
    ensures ns != [] ==> r >= 1
    decreases ns, 0
  {
    if ns == [] then 0 else LeafCount(ns[0]) + LeafCountAll(ns[1..])
  }

  // ---------------------------------------------------------------------
  // Renaming before drawing
  // ---------------------------------------------------------------------

  /** The label that carries a Glottocode. */
  function Label(name: string, glottocode: string): string
  {
    name + "--" + glottocode
  }

  /** The mapping from language id to `(glottocode, glottolog name)`. */
  type Gcodes = map<string, (string, string)>

  /** `rename(n)` for one node: a name in the mapping gets its Glottocode, and
      the name of a node that is not a leaf is cleared. */
  function RenamedName(n: Node, gcodes: Gcodes): Option<string>
  {
    if !IsLeaf(n) then None
    else if n.name.Some? && n.name.value in gcodes then Some(Label(n.name.value, gcodes[n.name.value].0))
    else n.name
  }

  /** `nwk.visit(rename)` */
  function Rename(n: Node, gcodes: Gcodes): Node
    decreases n, 1
  {
    Node(RenamedName(n, gcodes), RenameAll(n.children, gcodes))
  }

  function RenameAll(ns: seq<Node>, gcodes: Gcodes): (r: seq<Node>)
    ensures |r| == |ns|
    decreases ns, 0
  {
    if ns == [] then [] else [Rename(ns[0], gcodes)] + RenameAll(ns[1..], gcodes)
  }

  /** Renaming keeps the shape of the tree, so the figure height is the same
      whether it is computed before or after renaming. */
  lemma {:induction false} RenameKeepsLeaves(n: Node, gcodes: Gcodes)
    ensures LeafCount(Rename(n, gcodes)) == LeafCount(n)
    ensures IsLeaf(Rename(n, gcodes)) <==> IsLeaf(n)
    decreases n, 1
  {
    if n.children != [] {
      RenameAllKeepsLeaves(n.children, gcodes);
    }
  }

  lemma {:induction false} RenameAllKeepsLeaves(ns: seq<Node>, gcodes: Gcodes)
    ensures LeafCountAll(RenameAll(ns, gcodes)) == LeafCountAll(ns)
    decreases ns, 0
  {
    if ns != [] {
      RenameKeepsLeaves(ns[0], gcodes);
      RenameAllKeepsLeaves(ns[1..], gcodes);
      assert RenameAll(ns, gcodes)[1..] == RenameAll(ns[1..], gcodes);
    }
  }

  /** After renaming, only leaves have names: a leaf in the mapping is labelled
      with its Glottocode, any other leaf keeps its name. */
  lemma RenameNames(n: Node, gcodes: Gcodes)
    ensures !IsLeaf(n) ==> Rename(n, gcodes).name == None
    ensures IsLeaf(n) && n.name.Some? && n.name.value in gcodes ==>
      Rename(n, gcodes).name == Some(Label(n.name.value, gcodes[n.name.value].0))
    ensures IsLeaf(n) && !(n.name.Some? && n.name.value in gcodes) ==> Rename(n, gcodes).name == n.name
  {
  }

  // ---------------------------------------------------------------------
  // Figure style and legend
  // ---------------------------------------------------------------------

  /** `ntaxa * 15 + 50` */
  function Height(n: Node): (h: nat)
    ensures h >= 65
  {
    LeafCount(n) * 15 + 50
  }

  function DefaultStyle(width: Datum, height: int, scalebar: bool): (r: map<string, Datum>)
    ensures "width" in r && r["width"] == width
    ensures "height" in r && r["height"] == DInt(height)
    ensures "scalebar" in r && r["scalebar"] == DBool(scalebar)
  {
    map[
      "width" := width,
      "height" := DInt(height),
      "node_hover" := DBool(true),
      "tip_labels_align" := DBool(true),
      "tip_labels_style" := DDict([("fill", DStr("#262626")), ("font-size", DStr("11px")),
                                   ("-toyplot-anchor-shift", DStr("5px")), ("line-height", DStr("14px"))]),
      "scalebar" := DBool(scalebar)]
  }

  /** `style.update(styles)`: user styles override the defaults, which fill in
      every key the user left out. */
  function Style(defaults: map<string, Datum>, styles: map<string, Datum>): (r: map<string, Datum>)
    ensures r.Keys == defaults.Keys + styles.Keys
    ensures forall k :: k in r <==> k in defaults || k in styles
    ensures forall k :: k in styles ==> r[k] == styles[k]
    ensures forall k :: k in defaults && k !in styles ==> r[k] == defaults[k]
  {
    defaults + styles
  }

  /** The style `cldfviz.tree.render` draws with: the scalebar shows iff there is
      a branch length unit or a legend; `styles` may be absent. */
  function RenderStyle(tree: Node, width: Datum, unit: Option<string>, legend: Option<string>,
                       styles: Option<map<string, Datum>>): (r: map<string, Datum>)
    ensures "height" in r && "scalebar" in r
    ensures (styles.None? || "height" !in styles.value) ==> r["height"] == DInt(Height(tree))
    ensures (styles.None? || "scalebar" !in styles.value) ==>
      r["scalebar"] == DBool((unit.Some? && unit.value != "") || (legend.Some? && legend.value != ""))
  {
    var scalebar := (unit.Some? && unit.value != "") || (legend.Some? && legend.value != "");
    Style(DefaultStyle(width, Height(tree), scalebar), styles.GetOr(map[]))
  }

  /** The style `render_tree` draws with: the scalebar is always on. */
  function RenderTreeStyle(tree: Node, width: int, styles: map<string, Datum>): (r: map<string, Datum>)
    ensures "height" in r && "width" in r && "scalebar" in r
    ensures "height" !in styles ==> r["height"] == DInt(Height(tree))
    ensures "width" !in styles ==> r["width"] == DInt(width)
    ensures "scalebar" !in styles ==> r["scalebar"] == DBool(true)
  {
    Style(DefaultStyle(DInt(width), Height(tree), true), styles)
  }

  /** The height is that of the tree before renaming as well. */
  lemma RenderTreeStyleAfterRename(tree: Node, gcodes: Gcodes, width: int, styles: map<string, Datum>)
    ensures RenderTreeStyle(Rename(tree, gcodes), width, styles) == RenderTreeStyle(tree, width, styles)
  {
    RenameKeepsLeaves(tree, gcodes);
  }

  /** The legend of `cldfviz.commands.tree`: the title if one is given; else the
      tree name, the description (when the TreeTable has that column) and the
      branch length unit (when set). */
  function Legend(title: Option<string>, treeName: string, description: Option<Datum>, unit: Option<string>): (r: string)
    ensures title.Some? && title.value != "" ==> r == title.value
    ensures !(title.Some? && title.value != "") ==> StartsWith(r, treeName)
    ensures !(title.Some? && title.value != "") && unit.Some? && unit.value != "" ==>
      |r| >= |" with branches in " + unit.value| && r[|r| - |" with branches in " + unit.value|..] == " with branches in " + unit.value
    ensures !(title.Some? && title.value != "") && description.None? && !(unit.Some? && unit.value != "") ==> r == treeName
  {
    if title.Some? && title.value != "" then title.value
    else
      var withDescription := if description.Some? then treeName + " - " + PyStr(description.value) else treeName;
      var r := if unit.Some? && unit.value != "" then withDescription + " with branches in " + unit.value else withDescription;
      assert StartsWith(r, treeName) by {
        assert r[..|treeName|] == treeName;
      }
      r
  }

  /** Without a title and with a description column, the tree name is
      followed by ` - ` and the description; without a unit the legend ends
      there. */
  lemma LegendDescription(title: Option<string>, treeName: string, description: Option<Datum>, unit: Option<string>)
    requires !(title.Some? && title.value != "") && description.Some?
    ensures |Legend(title, treeName, description, unit)| >= |treeName|
    ensures StartsWith(Legend(title, treeName, description, unit)[|treeName|..], " - " + PyStr(description.value))
    ensures !(unit.Some? && unit.value != "") ==> Legend(title, treeName, description, unit) == treeName + " - " + PyStr(description.value)
  {
    var part := " - " + PyStr(description.value);
    var r := Legend(title, treeName, description, unit);
    assert r[..|treeName + part|] == treeName + part;
    assert r[|treeName|..][..|part|] == part;
  }

  /** A TreeTable row. */
  datatype TreeRow = TreeRow(id: string, name: string, unit: Option<string>)

  /** The trees `run` renders: all of them, or those with the requested id. */
  function TreesToRender(trees: seq<TreeRow>, treeId: Option<string>): (r: seq<TreeRow>)
    ensures forall t :: t in r <==> t in trees && (treeId.None? || treeId.value == t.id)
    ensures treeId.None? ==> r == trees
  {
    if trees == [] then []
    else (if treeId.None? || treeId.value == trees[0].id then [trees[0]] else []) + TreesToRender(trees[1..], treeId)
  }

  /** The label mapping of `run`: every LanguageTable row with a Glottocode,
      mapped to its Glottocode and the Glottolog name (or `''`). */
  function GlottocodeMap(rows: seq<(string, Option<string>)>, glangs: map<string, string>): (r: Gcodes)
  {
    if rows == [] then map[]
    else
      var m := GlottocodeMap(rows[..|rows| - 1], glangs);
      var row := rows[|rows| - 1];
      if HasGlottocode(row) then
        var gc := row.1.value;
        m[row.0 := (gc, if gc in glangs && glangs[gc] != "" then glangs[gc] else "")]
      else m
  }

  predicate HasGlottocode(row: (string, Option<string>))
  {
    row.1.Some? && row.1.value != ""
  }

  /** Exactly the rows with a Glottocode give an entry. */
  lemma {:induction false} GlottocodeMapKeys(rows: seq<(string, Option<string>)>, glangs: map<string, string>, id: string)
    ensures id in GlottocodeMap(rows, glangs) <==> exists i :: 0 <= i < |rows| && rows[i].0 == id && HasGlottocode(rows[i])
  {
    if rows != [] {
      var init := rows[..|rows| - 1];
      var last := rows[|rows| - 1];
      GlottocodeMapKeys(init, glangs, id);
      if id in GlottocodeMap(rows, glangs) {
        if !(id == last.0 && HasGlottocode(last)) {
          var i :| 0 <= i < |init| && init[i].0 == id && HasGlottocode(init[i]);
          assert rows[i] == init[i];
        }
      } else {
        forall i | 0 <= i < |rows| && rows[i].0 == id ensures !HasGlottocode(rows[i]) {
          if i < |init| {
            assert init[i] == rows[i];
          }
        }
      }
    }
  }

  /** Every entry has a non-empty Glottocode and the Glottolog name, if any, of
      that Glottocode. */
  lemma {:induction false} GlottocodeMapValues(rows: seq<(string, Option<string>)>, glangs: map<string, string>, id: string)
    requires id in GlottocodeMap(rows, glangs)
    ensures GlottocodeMap(rows, glangs)[id].0 != ""
    ensures GlottocodeMap(rows, glangs)[id].1 ==
      (if GlottocodeMap(rows, glangs)[id].0 in glangs then glangs[GlottocodeMap(rows, glangs)[id].0] else "")
  {
    var init := rows[..|rows| - 1];
    var last := rows[|rows| - 1];
    if !(id == last.0 && HasGlottocode(last)) {
      GlottocodeMapValues(init, glangs, id);
    }
  }

  // ---------------------------------------------------------------------
  // Glottolog links in the SVG
  // ---------------------------------------------------------------------

  /** An SVG tip label: a `text` element, or the `a` element a linked one becomes. */
  datatype Tip =
    | Text(attrs: map<string, string>, text: string)
    | Anchor(attrs: map<string, string>, child: Tip)

  function GlottologUrl(gcode: string): string
  {
    "https://glottolog.org/resource/languoid/id/" + gcode
  }

  /** The visible text of a linked label. */
  function LinkText(lid: string, gname: string, gcode: string): (r: string)
    ensures gname != "" ==> r == lid + " - " + gname + " [" + gcode + "]"
    ensures gname == "" ==> r == lid + " - [" + gcode + "]"
  {
    if gname != "" then lid + " - " + gname + " [" + gcode + "]" else lid + " - [" + gcode + "]"
  }

  /** The loop body of `add_glottolog_links` for one tip label. A label whose
      Glottocode part is empty is left alone; a language id missing from the
      mapping raises `KeyError`. */
  function LinkedTip(t: Tip, gcodes: Gcodes): (r: Result<Tip>)
    ensures t.Anchor? ==> r == Ok(t)
  {
    match t
    case Anchor(_, _) => Ok(t)
    case Text(attrs, text) =>
      var (lid, _, gcode) := Partition(Strip(text), "--");
      if gcode == "" then Ok(t)
      else if lid !in gcodes then Err("KeyError: " + lid)
      else Ok(Anchor(map["href" := GlottologUrl(gcode), "title" := "The glottolog name"],
                     Text(attrs["fill" := "#0000ff"], LinkText(lid, gcodes[lid].1, gcode))))
  }

  /** A label without `--` is never linked. */
  lemma UnlabelledTipUnchanged(attrs: map<string, string>, text: string, gcodes: Gcodes)
    requires Find(Strip(text), "--").None?
    ensures LinkedTip(Text(attrs, text), gcodes) == Ok(Text(attrs, text))
  {
  }

  /** Round trip: a label made by `rename` decodes to its language id and
      Glottocode, so it becomes a link to that Glottocode's page whose text
      names the language, provided the id contains no `--` (not even with the
      separator's first dash) and the label has no surrounding whitespace. */
  lemma RenameThenLink(lid: string, gcode: string, gname: string, attrs: map<string, string>, gcodes: Gcodes)
    requires gcode != "" && lid in gcodes && gcodes[lid] == (gcode, gname)
    requires forall j :: 0 <= j < |lid| ==> !OccursAt(lid + "--", "--", j)
    requires lid == [] || !IsSpace(lid[0])
    requires !IsSpace(gcode[|gcode| - 1])
    ensures LinkedTip(Text(attrs, Label(lid, gcode)), gcodes) ==
      Ok(Anchor(map["href" := GlottologUrl(gcode), "title" := "The glottolog name"],
                Text(attrs["fill" := "#0000ff"], LinkText(lid, gname, gcode))))
  {
    var lab := Label(lid, gcode);
    assert lab[0] == if lid == [] then '-' else lid[0];
    assert lab[|lab| - 1] == gcode[|gcode| - 1];
    StripTrimmed(lab);
    PartitionConcat(lid, "--", gcode);
  }

  /** The labels after `add_glottolog_links`, or the first error raised. */
  function LinkAll(ts: seq<Tip>, gcodes: Gcodes): Result<seq<Tip>>
  {
    MapResult(ts, Linker(gcodes))
  }

  function Linker(gcodes: Gcodes): Tip -> Result<Tip>
  {
    (t: Tip) => LinkedTip(t, gcodes)
  }

  /** Linking succeeds iff no label raises, and then rewrites each label on its own. */
  lemma LinkAllSpec(ts: seq<Tip>, gcodes: Gcodes)
    ensures LinkAll(ts, gcodes).Ok? <==> forall i :: 0 <= i < |ts| ==> LinkedTip(ts[i], gcodes).Ok?
    ensures LinkAll(ts, gcodes).Ok? ==> |LinkAll(ts, gcodes).value| == |ts|
    ensures LinkAll(ts, gcodes).Ok? ==>
      forall i :: 0 <= i < |ts| ==> LinkAll(ts, gcodes).value[i] == LinkedTip(ts[i], gcodes).value
  {
    MapResultSpec(ts, Linker(gcodes));
  }

  /** `add_glottolog_links`: rewrites every tip label in place; the result is
      written out only if no label raised. */
  method AddGlottologLinks(tips: array<Tip>, gcodes: Gcodes) returns (r: Result<()>)
    modifies tips
    ensures r.Ok? <==> LinkAll(old(tips[..]), gcodes).Ok?
    ensures r.Ok? ==> tips[..] == LinkAll(old(tips[..]), gcodes).value
  {
    r := MapInPlace(tips, Linker(gcodes));
  }
}
