/**
 * `cldfviz.commands.treemap`: the values of one parameter on a map linked to
 * a tree, drawn by `lingtreemaps`. The model covers the parsing of the
 * `lingtreemaps` default configuration into command-line options, the
 * selection of the parameter's values, the alignment of dataset languages with
 * tree labels, the ordering of the values and the name of the output file.
 *
 * YAML parsing is the parameter `yaml`; obtaining, pruning and renaming the
 * tree are not modelled (the model receives the tree's node labels and, after
 * pruning, its leaf names); `lingtreemaps.plot`, file writing and opening a
 * browser are left out.
 */
module Treemap {
  import opened Common
  import opened Datum

  // ---------------------------------------------------------------------
  // Options from the lingtreemaps default configuration
  // ---------------------------------------------------------------------

  /** A command-line option `--ltm-<name>` with its default and help text. */
  datatype LtmOption = LtmOption(name: string, default: Datum, help: string)

  /** Line 65: the help text of the `filename` option. */
  const FilenameHelp: string := "The filename. If unspecified, the parameter ID will be used."

  /** What a configuration line is, once stripped: a comment (with its text),
      an option declaration (with its name and the text of its default), or
      blank. */
  datatype LineKind = CommentLine(text: string) | OptionLine(name: string, default: string) | BlankLine

  /** Lines 58-63: the kind of a line. */
  function Kind(line: string): LineKind
  {
    var stripped := Strip(line);
    if StartsWith(stripped, "#") then CommentLine(Strip(stripped[1..]))
    else if stripped != "" then
      var parts := Partition(stripped, ":");
      OptionLine(Strip(parts.0), Strip(parts.2))
    else BlankLine
  }

  /** The kind of every line. */
  function Kinds(lines: seq<string>): (r: seq<LineKind>)
    ensures |r| == |lines|
  {
    if lines == [] then [] else Kinds(lines[..|lines| - 1]) + [Kind(lines[|lines| - 1])]
  }

  lemma {:induction false} KindsAt(lines: seq<string>, i: nat)
    requires i < |lines|
    ensures Kinds(lines)[i] == Kind(lines[i])
  {
    if i < |lines| - 1 {
      KindsAt(lines[..|lines| - 1], i);
    }
  }

  /** Lines 63-66: the option declared by an option line, with the comments
      before it as help. */
  function OptionOf(decl: LineKind, help: seq<string>, yaml: string -> Datum): LtmOption
    requires decl.OptionLine?
  {
    LtmOption(decl.name, yaml(decl.default), if decl.name == "filename" then FilenameHelp else Join(" ", help))
  }

  /** The texts of the comments among `kinds[from..to]`, in order. */
  function CommentTexts(kinds: seq<LineKind>, from: nat, to: nat): seq<string>
    requires from <= to <= |kinds|
  {
    if to == from then []
    else if kinds[to - 1].CommentLine? then CommentTexts(kinds, from, to - 1) + [kinds[to - 1].text]
    else CommentTexts(kinds, from, to - 1)
  }

  /** The index of the last option line before `n`, or -1. */
  function LastOptionLine(kinds: seq<LineKind>, n: nat): (r: int)
    requires n <= |kinds|
    ensures -1 <= r < n
    ensures r >= 0 ==> kinds[r].OptionLine?
    ensures forall j :: r < j < n ==> !kinds[j].OptionLine?
  {
    if n == 0 then -1
    else if kinds[n - 1].OptionLine? then n - 1
    else LastOptionLine(kinds, n - 1)
  }

  /** The help collected for the next option after `n` lines: comment texts
      accumulate and an option line clears them. */
  function PendingHelp(kinds: seq<LineKind>, n: nat): seq<string>
    requires n <= |kinds|
  {
    if n == 0 then []
    else match kinds[n - 1]
      case CommentLine(text) => PendingHelp(kinds, n - 1) + [text]
      case OptionLine(_, _) => []
      case BlankLine => PendingHelp(kinds, n - 1)
  }

  /** The pending help is the text of the comments after the last option line. */
  lemma {:induction false} PendingHelpSpec(kinds: seq<LineKind>, n: nat)
    requires n <= |kinds|
    ensures PendingHelp(kinds, n) == CommentTexts(kinds, LastOptionLine(kinds, n) + 1, n)
  {
    if n > 0 && !kinds[n - 1].OptionLine? {
      PendingHelpSpec(kinds, n - 1);
    }
  }

  /** The options declared by the first `n` lines, each with the comments
      since the previous option as its help. */
  function LtmOptions(kinds: seq<LineKind>, n: nat, yaml: string -> Datum): seq<LtmOption>
    requires n <= |kinds|
  {
    if n == 0 then []
    else if kinds[n - 1].OptionLine? then
      LtmOptions(kinds, n - 1, yaml) + [OptionOf(kinds[n - 1], PendingHelp(kinds, n - 1), yaml)]
    else LtmOptions(kinds, n - 1, yaml)
  }

  /** Lines 58-67: reads one line: a comment adds its text to the pending help,
      an option line yields its option and clears the help. */
  method ReadLine(line: string, h: seq<string>, options: seq<LtmOption>, yaml: string -> Datum)
    returns (h': seq<string>, options': seq<LtmOption>)
    ensures Kind(line).CommentLine? ==> h' == h + [Kind(line).text] && options' == options
    ensures Kind(line).OptionLine? ==> h' == [] && options' == options + [OptionOf(Kind(line), h, yaml)]
    ensures Kind(line).BlankLine? ==> h' == h && options' == options
  {
    h', options' := h, options;
    var stripped := Strip(line);
    if StartsWith(stripped, "#") {
      h' := h + [Strip(stripped[1..])];
    } else if stripped != "" {
      var parts := Partition(stripped, ":");
      var opt := Strip(parts.0);
      var val := yaml(Strip(parts.2));
      var help := Join(" ", h);
      if opt == "filename" {
        help := FilenameHelp;
      }
      options' := options + [LtmOption(opt, val, help)];
      h' := [];
    }
  }

  /** Reading line `i` advances the fold by one line. */
  method ReadNext(lines: seq<string>, i: nat, h: seq<string>, options: seq<LtmOption>, yaml: string -> Datum)
    returns (h': seq<string>, options': seq<LtmOption>)
    requires i < |lines|
    requires h == PendingHelp(Kinds(lines), i) && options == LtmOptions(Kinds(lines), i, yaml)
    ensures h' == PendingHelp(Kinds(lines), i + 1) && options' == LtmOptions(Kinds(lines), i + 1, yaml)
  {
    KindsAt(lines, i);
    h', options' := ReadLine(lines[i], h, options, yaml);
  }

  /** Lines 53-67: the options declared by the configuration lines. */
  method IterLtmOptions(lines: seq<string>, yaml: string -> Datum) returns (options: seq<LtmOption>)
    ensures options == LtmOptions(Kinds(lines), |lines|, yaml)
  {
    var h: seq<string> := [];
    options := [];
    for i := 0 to |lines|
      invariant h == PendingHelp(Kinds(lines), i)
      invariant options == LtmOptions(Kinds(lines), i, yaml)
    {
      h, options := ReadNext(lines, i, h, options, yaml);
    }
  }

  function CountOptionLines(kinds: seq<LineKind>, n: nat): nat
    requires n <= |kinds|
  {
    if n == 0 then 0
    else CountOptionLines(kinds, n - 1) + (if kinds[n - 1].OptionLine? then 1 else 0)
  }

  /** Line `i` declares option `o`: its name and default are the line's, and
      its help is the fixed text for `filename` and otherwise the comments
      between the previous option line and line `i`. */
  predicate Declares(kinds: seq<LineKind>, i: nat, o: LtmOption, yaml: string -> Datum)
    requires i < |kinds|
  {
    kinds[i].OptionLine? && o.name == kinds[i].name && o.default == yaml(kinds[i].default) &&
    o.help == (if o.name == "filename" then FilenameHelp
               else Join(" ", CommentTexts(kinds, LastOptionLine(kinds, i) + 1, i)))
  }

  /** Some line before `n` declares option `o`. */
  ghost predicate DeclaredBefore(kinds: seq<LineKind>, n: nat, o: LtmOption, yaml: string -> Datum)
    requires n <= |kinds|
  {
    exists i: nat :: i < n && Declares(kinds, i, o, yaml)
  }

  /** One option per option line, each declared by one of the lines. */
  lemma {:induction false} LtmOptionsSpec(kinds: seq<LineKind>, n: nat, yaml: string -> Datum)
    requires n <= |kinds|
    ensures |LtmOptions(kinds, n, yaml)| == CountOptionLines(kinds, n)
    ensures forall k :: 0 <= k < |LtmOptions(kinds, n, yaml)| ==> DeclaredBefore(kinds, n, LtmOptions(kinds, n, yaml)[k], yaml)
  {
    if n > 0 {
      LtmOptionsSpec(kinds, n - 1, yaml);
      var opts := LtmOptions(kinds, n, yaml);
      var prev := LtmOptions(kinds, n - 1, yaml);
      forall k | 0 <= k < |opts|
        ensures DeclaredBefore(kinds, n, opts[k], yaml)
      {
        if k == |prev| {
          PendingHelpSpec(kinds, n - 1);
          assert Declares(kinds, n - 1, opts[k], yaml);
        } else {
          assert opts[k] == prev[k];
          assert DeclaredBefore(kinds, n - 1, prev[k], yaml);
          var i: nat :| i < n - 1 && Declares(kinds, i, prev[k], yaml);
          assert Declares(kinds, i, opts[k], yaml);
        }
      }
    }
  }

  /** The option declared by option line `i`, with the comments pending
      before it (see `PendingHelpSpec`) as its help. */
  function OptionAt(kinds: seq<LineKind>, i: nat, yaml: string -> Datum): LtmOption
    requires i < |kinds| && kinds[i].OptionLine?
  {
    OptionOf(kinds[i], PendingHelp(kinds, i), yaml)
  }

  /** The options come in the order of their lines: option line `i` declares
      the option that follows those of the option lines before it. */
  lemma {:induction false} LtmOptionsInOrder(kinds: seq<LineKind>, n: nat, yaml: string -> Datum)
    requires n <= |kinds|
    ensures |LtmOptions(kinds, n, yaml)| == CountOptionLines(kinds, n)
    ensures forall i :: 0 <= i < n && kinds[i].OptionLine? ==>
      CountOptionLines(kinds, i) < |LtmOptions(kinds, n, yaml)| && LtmOptions(kinds, n, yaml)[CountOptionLines(kinds, i)] == OptionAt(kinds, i, yaml)
  {
    if n > 0 {
      LtmOptionsInOrder(kinds, n - 1, yaml);
    }
  }

  // ---------------------------------------------------------------------
  // The parameter's values
  // ---------------------------------------------------------------------

  /** A ValueTable row. */
  datatype ValueRow = ValueRow(pid: string, lid: string, value: Option<string>, codeRef: Option<string>)

  /** Lines 132-133: a row of the parameter, of a filtered language if there is a filter. */
  predicate Selected(row: ValueRow, parameter: string, filtered: Option<seq<string>>)
  {
    row.pid == parameter && (filtered.None? || row.lid in filtered.value)
  }

  /** Lines 130-133: the selected rows by language; a later row of a language
      replaces an earlier one, which keeps its position. */
  function SelectValues(rows: seq<ValueRow>, parameter: string, filtered: Option<seq<string>>): seq<(string, ValueRow)>
  {
    if rows == [] then []
    else
      var acc := SelectValues(rows[..|rows| - 1], parameter, filtered);
      var row := rows[|rows| - 1];
      if Selected(row, parameter, filtered) then Put(acc, row.lid, row) else acc
  }

  /** The index of the last selected row of a language. */
  function LastSelected(rows: seq<ValueRow>, parameter: string, filtered: Option<seq<string>>, lid: string): (r: Option<nat>)
    ensures r.Some? ==> r.value < |rows| && Selected(rows[r.value], parameter, filtered) && rows[r.value].lid == lid
    ensures r.Some? ==> forall j :: r.value < j < |rows| ==> !(Selected(rows[j], parameter, filtered) && rows[j].lid == lid)
    ensures r.None? ==> forall j :: 0 <= j < |rows| ==> !(Selected(rows[j], parameter, filtered) && rows[j].lid == lid)
  {
    if rows == [] then None
    else if Selected(rows[|rows| - 1], parameter, filtered) && rows[|rows| - 1].lid == lid then Some(|rows| - 1)
    else
      var r := LastSelected(rows[..|rows| - 1], parameter, filtered, lid);
      assert forall j :: 0 <= j < |rows| - 1 ==> rows[j] == rows[..|rows| - 1][j];
      r
  }

  /** A language's value is its last selected row; languages without a
      selected row have none. */
  lemma {:induction false} SelectValuesSpec(rows: seq<ValueRow>, parameter: string, filtered: Option<seq<string>>, lid: string)
    ensures Get(SelectValues(rows, parameter, filtered), lid) ==
      if LastSelected(rows, parameter, filtered, lid).Some? then Some(rows[LastSelected(rows, parameter, filtered, lid).value]) else None
  {
    if rows != [] {
      var init := rows[..|rows| - 1];
      var row := rows[|rows| - 1];
      SelectValuesSpec(init, parameter, filtered, lid);
      if Selected(row, parameter, filtered) {
        PutGet(SelectValues(init, parameter, filtered), row.lid, row, lid);
      }
      if LastSelected(init, parameter, filtered, lid).Some? {
        assert rows[LastSelected(init, parameter, filtered, lid).value] == init[LastSelected(init, parameter, filtered, lid).value];
      }
    }
  }

  lemma {:induction false} SelectValuesDistinct(rows: seq<ValueRow>, parameter: string, filtered: Option<seq<string>>)
    ensures DistinctKeys(SelectValues(rows, parameter, filtered))
    ensures forall i :: 0 <= i < |SelectValues(rows, parameter, filtered)| ==>
      SelectValues(rows, parameter, filtered)[i].1.lid == SelectValues(rows, parameter, filtered)[i].0
  {
    if rows != [] {
      var acc := SelectValues(rows[..|rows| - 1], parameter, filtered);
      var row := rows[|rows| - 1];
      SelectValuesDistinct(rows[..|rows| - 1], parameter, filtered);
      if Selected(row, parameter, filtered) {
        PutDistinct(acc, row.lid, row);
        PutEntries(acc, row.lid, row);
      }
    }
  }

  /** Every entry of `od[k] = v` is an entry of `od` or the new one. */
  lemma {:induction false} PutEntries<K, V>(od: seq<(K, V)>, k: K, v: V)
    ensures forall i :: 0 <= i < |Put(od, k, v)| ==> Put(od, k, v)[i] in od || Put(od, k, v)[i] == (k, v)
  {
    if od != [] && od[0].0 != k {
      PutEntries(od[1..], k, v);
      forall i | 0 <= i < |Put(od, k, v)| ensures Put(od, k, v)[i] in od || Put(od, k, v)[i] == (k, v) {
        if i > 0 {
          assert Put(od, k, v)[i] == Put(od[1..], k, v)[i - 1];
          assert Put(od, k, v)[i] in od[1..] ==> Put(od, k, v)[i] in od;
        }
      }
    }
  }

  // ---------------------------------------------------------------------
  // Dictionaries with deleted keys
  // ---------------------------------------------------------------------

  /** The test "the key is not one of `ks`". */
  function NotIn<V>(ks: seq<string>): ((string, V)) -> bool
  {
    (e: (string, V)) => e.0 !in ks
  }

  /** `del od[k]`, for a key that is present. */
  function Delete<V(!new)>(od: seq<(string, V)>, k: string): seq<(string, V)>
  {
    FilterSeq(od, NotIn([k]))
  }

  /** Deleting the keys of `ks` one after the other, then `k`, is deleting the keys of `ks + [k]`. */
  lemma {:induction false} DeleteNotIn<V(!new)>(od: seq<(string, V)>, ks: seq<string>, k: string)
    ensures Delete(FilterSeq(od, NotIn(ks)), k) == FilterSeq(od, NotIn(ks + [k]))
  {
    if od != [] {
      var x := od[0];
      var p := if NotIn(ks)(x) then [x] else [];
      DeleteNotIn(od[1..], ks, k);
      FilterSeqAppend(p, FilterSeq(od[1..], NotIn(ks)), NotIn([k]));
      assert FilterSeq(p, NotIn([k])) == if NotIn(ks + [k])(x) then [x] else [] by {
        if p != [] {
          assert p[1..] == [];
        }
      }
    }
  }

  // ---------------------------------------------------------------------
  // Languages in the dataset and in the tree
  // ---------------------------------------------------------------------

  /** A LanguageTable row: the five properties asked for by name, and every
      column of the table by its column name (`None` for an empty cell or a
      cell that is not a string, which never equals a node label). */
  datatype LanguageRow = LanguageRow(id: string, glottocode: Option<string>, name: string, lat: Option<real>, lon: Option<real>,
                                     cells: map<string, Option<string>>)

  /** The properties `iter_rows` is asked to add to each row (lines 171-172). */
  predicate IsRequestedProperty(property: string)
  {
    property == "id" || property == "glottocode" || property == "name" || property == "latitude" || property == "longitude"
  }

  /** Line 175: the language's property or column naming it in the tree.
      Coordinates are numbers, which never equal a node label; a name that is
      neither a requested property nor a column raises `KeyError`. */
  function TreeLabel(lang: LanguageRow, property: string): (r: Result<Option<string>>)
    ensures r.Err? <==> !IsRequestedProperty(property) && property !in lang.cells
    ensures !IsRequestedProperty(property) && property in lang.cells ==> r == Ok(lang.cells[property])
    ensures property == "glottocode" ==> r == Ok(lang.glottocode)
  {
    if property == "id" then Ok(Some(lang.id))
    else if property == "glottocode" then Ok(lang.glottocode)
    else if property == "name" then Ok(Some(lang.name))
    else if property == "latitude" || property == "longitude" then Ok(None)
    else if property in lang.cells then Ok(lang.cells[property])
    else Err("KeyError")
  }

  /** Line 176: the label is non-empty and a node of the tree. */
  predicate InTree(tl: Option<string>, nodes: set<string>)
  {
    tl.Some? && tl.value != "" && tl.value in nodes
  }

  /** The languages found in the tree, by ID, and the language ID of each matched tree label. */
  datatype Matching = Matching(languages: seq<(string, LanguageRow)>, labels: seq<(string, string)>)

  /** Lines 173-178: one LanguageTable row. */
  function MatchStep(m: Matching, lang: LanguageRow, values: seq<(string, ValueRow)>, property: string, nodes: set<string>): Result<Matching>
  {
    if lang.id !in Keys(values) then Ok(m)
    else match TreeLabel(lang, property)
      case Err(e) => Err(e)
      case Ok(tl) =>
        if InTree(tl, nodes) then Ok(Matching(Put(m.languages, lang.id, lang), Put(m.labels, tl.value, lang.id)))
        else Ok(m)
  }

  /** The matching after the first `n` rows; the first error ends it. */
  function Matched(langs: seq<LanguageRow>, n: nat, values: seq<(string, ValueRow)>, property: string, nodes: set<string>): Result<Matching>
    requires n <= |langs|
  {
    if n == 0 then Ok(Matching([], []))
    else match Matched(langs, n - 1, values, property, nodes)
      case Err(e) => Err(e)
      case Ok(m) => MatchStep(m, langs[n - 1], values, property, nodes)
  }

  /** Lines 171-178: matches the dataset's languages that have a value with the tree's nodes. */
  method MatchLanguages(langs: seq<LanguageRow>, values: seq<(string, ValueRow)>, property: string, nodes: set<string>)
    returns (r: Result<Matching>)
    ensures r == Matched(langs, |langs|, values, property, nodes)
  {
    var languages: seq<(string, LanguageRow)> := [];
    var labels: seq<(string, string)> := [];
    for i := 0 to |langs|
      invariant Matched(langs, i, values, property, nodes) == Ok(Matching(languages, labels))
    {
      var lang := langs[i];
      if lang.id in Keys(values) {
        var tl := TreeLabel(lang, property);
        if tl.Err? {
          MatchedSticky(langs, i + 1, values, property, nodes);
          return Err(tl.reason);
        }
        var treelabel := tl.value;
        if treelabel.Some? && treelabel.value != "" && treelabel.value in nodes {
          languages := Put(languages, lang.id, lang);
          labels := Put(labels, treelabel.value, lang.id);
        }
      }
    }
    r := Ok(Matching(languages, labels));
  }

  /** Once matching fails, it stays failed. */
  lemma {:induction false} MatchedSticky(langs: seq<LanguageRow>, k: nat, values: seq<(string, ValueRow)>, property: string, nodes: set<string>)
    requires k <= |langs|
    ensures Matched(langs, k, values, property, nodes).Err? ==>
      Matched(langs, |langs|, values, property, nodes) == Matched(langs, k, values, property, nodes)
    decreases |langs| - k
  {
    if k < |langs| {
      MatchedSticky(langs, k + 1, values, property, nodes);
    }
  }

  /** A row is matched when its language has a value and its tree label is a node. */
  predicate Matches(lang: LanguageRow, values: seq<(string, ValueRow)>, property: string, nodes: set<string>)
  {
    lang.id in Keys(values) && TreeLabel(lang, property).Ok? && InTree(TreeLabel(lang, property).value, nodes)
  }

  /** One row either fails (its language has a value but the label property
      does not exist), adds its language when it matches, or changes nothing;
      every matched label keeps naming a kept language. */
  lemma MatchStepSpec(m: Matching, lang: LanguageRow, values: seq<(string, ValueRow)>, property: string, nodes: set<string>)
    ensures MatchStep(m, lang, values, property, nodes).Err? <==> lang.id in Keys(values) && TreeLabel(lang, property).Err?
    ensures MatchStep(m, lang, values, property, nodes).Ok? ==>
      forall lid :: lid in Keys(MatchStep(m, lang, values, property, nodes).value.languages) <==>
        lid in Keys(m.languages) || (lid == lang.id && Matches(lang, values, property, nodes))
    ensures MatchStep(m, lang, values, property, nodes).Ok? && (forall k :: 0 <= k < |m.labels| ==> m.labels[k].1 in Keys(m.languages)) ==>
      var m' := MatchStep(m, lang, values, property, nodes).value;
      forall k :: 0 <= k < |m'.labels| ==> m'.labels[k].1 in Keys(m'.languages)
  {
    if Matches(lang, values, property, nodes) {
      var tl := TreeLabel(lang, property).value.value;
      PutKeys(m.languages, lang.id, lang);
      PutEntries(m.labels, tl, lang.id);
      var m' := Matching(Put(m.languages, lang.id, lang), Put(m.labels, tl, lang.id));
      assert MatchStep(m, lang, values, property, nodes) == Ok(m');
      if forall k :: 0 <= k < |m.labels| ==> m.labels[k].1 in Keys(m.languages) {
        forall k | 0 <= k < |m'.labels| ensures m'.labels[k].1 in Keys(m'.languages) {
          if m'.labels[k] in m.labels {
            var j :| 0 <= j < |m.labels| && m.labels[j] == m'.labels[k];
          }
        }
      }
    }
  }

  /** Matching fails exactly when the label property does not exist and some
      language has a value; otherwise exactly the languages that have a value
      and whose label is a tree node are kept, every kept language has a
      value, and every matched label names a kept language. */
  lemma {:induction false} MatchedSpec(langs: seq<LanguageRow>, n: nat, values: seq<(string, ValueRow)>, property: string, nodes: set<string>)
    requires n <= |langs|
    ensures Matched(langs, n, values, property, nodes).Err? <==>
      (exists i :: 0 <= i < n && langs[i].id in Keys(values) && TreeLabel(langs[i], property).Err?)
    ensures Matched(langs, n, values, property, nodes).Ok? ==>
      var m := Matched(langs, n, values, property, nodes).value;
      (forall lid :: lid in Keys(m.languages) <==> exists i :: 0 <= i < n && langs[i].id == lid && Matches(langs[i], values, property, nodes)) &&
      (forall lid :: lid in Keys(m.languages) ==> lid in Keys(values)) &&
      (forall k :: 0 <= k < |m.labels| ==> m.labels[k].1 in Keys(m.languages))
  {
    MatchedErr(langs, n, values, property, nodes);
    if Matched(langs, n, values, property, nodes).Ok? {
      MatchedKept(langs, n, values, property, nodes);
      MatchedLabels(langs, n, values, property, nodes);
    }
  }

  lemma {:induction false} MatchedErr(langs: seq<LanguageRow>, n: nat, values: seq<(string, ValueRow)>, property: string, nodes: set<string>)
    requires n <= |langs|
    ensures Matched(langs, n, values, property, nodes).Err? <==>
      (exists i :: 0 <= i < n && langs[i].id in Keys(values) && TreeLabel(langs[i], property).Err?)
  {
    if n > 0 {
      MatchedErr(langs, n - 1, values, property, nodes);
      var prev := Matched(langs, n - 1, values, property, nodes);
      if prev.Ok? {
        MatchStepSpec(prev.value, langs[n - 1], values, property, nodes);
      }
    }
  }

  lemma {:induction false} MatchedKept(langs: seq<LanguageRow>, n: nat, values: seq<(string, ValueRow)>, property: string, nodes: set<string>)
    requires n <= |langs|
    requires Matched(langs, n, values, property, nodes).Ok?
    ensures var m := Matched(langs, n, values, property, nodes).value;
      forall lid :: lid in Keys(m.languages) <==> exists i :: 0 <= i < n && langs[i].id == lid && Matches(langs[i], values, property, nodes)
  {
    if n > 0 {
      var prev := Matched(langs, n - 1, values, property, nodes);
      assert prev.Ok?;
      MatchedKept(langs, n - 1, values, property, nodes);
      MatchStepSpec(prev.value, langs[n - 1], values, property, nodes);
    }
  }

  lemma {:induction false} MatchedLabels(langs: seq<LanguageRow>, n: nat, values: seq<(string, ValueRow)>, property: string, nodes: set<string>)
    requires n <= |langs|
    requires Matched(langs, n, values, property, nodes).Ok?
    ensures var m := Matched(langs, n, values, property, nodes).value;
      forall k :: 0 <= k < |m.labels| ==> m.labels[k].1 in Keys(m.languages)
  {
    if n > 0 {
      var prev := Matched(langs, n - 1, values, property, nodes);
      assert prev.Ok?;
      MatchedLabels(langs, n - 1, values, property, nodes);
      MatchStepSpec(prev.value, langs[n - 1], values, property, nodes);
    }
  }

  /** Lines 180-185: without a LanguageTable, the tree's nodes are Glottocodes
      and each language with a value that is a node is looked up in Glottolog
      (the parameter `glottolog`, giving its coordinates). */
  function GlottologMatched(lids: seq<string>, nodes: set<string>, glottolog: string -> (Option<real>, Option<real>)): Matching
  {
    if lids == [] then Matching([], [])
    else
      var m := GlottologMatched(lids[..|lids| - 1], nodes, glottolog);
      var lid := lids[|lids| - 1];
      if lid in nodes then
        var coords := glottolog(lid);
        Matching(Put(m.languages, lid, LanguageRow(lid, None, lid, coords.0, coords.1, map[])), Put(m.labels, lid, lid))
      else m
  }

  /** Without a LanguageTable, exactly the languages with a value that are
      tree nodes are kept, named by their ID and labelled by themselves. */
  lemma {:induction false} GlottologMatchedSpec(lids: seq<string>, nodes: set<string>, glottolog: string -> (Option<real>, Option<real>))
    ensures forall lid :: lid in Keys(GlottologMatched(lids, nodes, glottolog).languages) <==> lid in lids && lid in nodes
    ensures forall lid :: Get(GlottologMatched(lids, nodes, glottolog).labels, lid) == if lid in lids && lid in nodes then Some(lid) else None
    ensures forall lid :: Get(GlottologMatched(lids, nodes, glottolog).languages, lid).Some? ==>
      Get(GlottologMatched(lids, nodes, glottolog).languages, lid).value.name == lid
  {
    if lids != [] {
      var init := lids[..|lids| - 1];
      var lid := lids[|lids| - 1];
      GlottologMatchedSpec(init, nodes, glottolog);
      assert lids == init + [lid];
      var m := GlottologMatched(init, nodes, glottolog);
      if lid in nodes {
        var coords := glottolog(lid);
        var row := LanguageRow(lid, None, lid, coords.0, coords.1, map[]);
        PutKeys(m.languages, lid, row);
        forall x ensures Get(Put(m.labels, lid, lid), x) == if x in lids && x in nodes then Some(x) else None {
          PutGet(m.labels, lid, lid, x);
        }
        forall x | Get(Put(m.languages, lid, row), x).Some? ensures Get(Put(m.languages, lid, row), x).value.name == x {
          PutGet(m.languages, lid, row, x);
        }
      }
    }
  }

  /** The language IDs whose value is not matched, in the order of the values. */
  function Unmatched(lids: seq<string>, matched: seq<string>): seq<string>
  {
    if lids == [] then []
    else if lids[|lids| - 1] in matched then Unmatched(lids[..|lids| - 1], matched)
    else Unmatched(lids[..|lids| - 1], matched) + [lids[|lids| - 1]]
  }

  /** Lines 187-189: deletes the values of languages that were not matched. */
  method PruneValues(values: seq<(string, ValueRow)>, languages: seq<(string, LanguageRow)>) returns (kept: seq<(string, ValueRow)>)
    ensures kept == FilterSeq(values, NotIn(Unmatched(Keys(values), Keys(languages))))
  {
    var lids := Keys(values);
    kept := values;
    FilterSeqNone(values);
    assert lids[..0] == [];
    for i := 0 to |lids|
      invariant kept == FilterSeq(values, NotIn(Unmatched(lids[..i], Keys(languages))))
    {
      assert lids[..i + 1][..i] == lids[..i];
      var lid := lids[i];
      if lid !in Keys(languages) {
        DeleteNotIn(values, Unmatched(lids[..i], Keys(languages)), lid);
        kept := Delete(kept, lid);
      }
    }
    assert lids[..|lids|] == lids;
  }

  lemma {:induction false} UnmatchedSpec(lids: seq<string>, matched: seq<string>)
    ensures forall x :: x in Unmatched(lids, matched) <==> x in lids && x !in matched
  {
    if lids != [] {
      UnmatchedSpec(lids[..|lids| - 1], matched);
      assert lids == lids[..|lids| - 1] + [lids[|lids| - 1]];
    }
  }

  /** `x in Keys(od)` holds exactly when some entry has key `x`. */
  lemma KeysMember<V>(od: seq<(string, V)>, x: string)
    ensures x in Keys(od) <==> exists e :: e in od && e.0 == x
  {
    if x in Keys(od) {
      var i :| 0 <= i < |od| && Keys(od)[i] == x;
      assert od[i] in od;
    }
    if exists e :: e in od && e.0 == x {
      var e :| e in od && e.0 == x;
      var i :| 0 <= i < |od| && od[i] == e;
      assert Keys(od)[i] == x;
    }
  }

  /** Line 192: after pruning, the values are keyed by exactly the matched languages. */
  lemma PrunedKeys(values: seq<(string, ValueRow)>, languages: seq<(string, LanguageRow)>)
    requires forall lid :: lid in Keys(languages) ==> lid in Keys(values)
    ensures forall lid :: lid in Keys(FilterSeq(values, NotIn(Unmatched(Keys(values), Keys(languages))))) <==> lid in Keys(languages)
  {
    var kept := FilterSeq(values, NotIn(Unmatched(Keys(values), Keys(languages))));
    UnmatchedSpec(Keys(values), Keys(languages));
    forall lid ensures lid in Keys(kept) <==> lid in Keys(languages) {
      KeysMember(kept, lid);
      KeysMember(values, lid);
      if lid in Keys(languages) {
        var e :| e in values && e.0 == lid;
        assert e in kept;
      }
    }
  }

  /** The matched languages whose name is not a leaf of the pruned tree. */
  function NonLeafs(languages: seq<(string, LanguageRow)>, leafs: set<string>): seq<string>
  {
    if languages == [] then []
    else if languages[|languages| - 1].1.name in leafs then NonLeafs(languages[..|languages| - 1], leafs)
    else NonLeafs(languages[..|languages| - 1], leafs) + [languages[|languages| - 1].0]
  }

  /** Lines 214-220: drops the languages, and their values, whose name is not a
      leaf of the pruned tree (the names of its leaves are the parameter `leafs`). */
  method RemoveNonLeafs(languages: seq<(string, LanguageRow)>, values: seq<(string, ValueRow)>, leafs: set<string>)
    returns (languages': seq<(string, LanguageRow)>, values': seq<(string, ValueRow)>)
    ensures languages' == FilterSeq(languages, NotIn(NonLeafs(languages, leafs)))
    ensures values' == FilterSeq(values, NotIn(NonLeafs(languages, leafs)))
  {
    var nonleafs := CollectNonLeafs(languages, leafs);
    languages', values' := DeleteKeys(languages, values, nonleafs);
  }

  /** Lines 214-217: the ids of the languages whose name is not a leaf, in order. */
  method CollectNonLeafs(languages: seq<(string, LanguageRow)>, leafs: set<string>) returns (nonleafs: seq<string>)
    ensures nonleafs == NonLeafs(languages, leafs)
  {
    nonleafs := [];
    for i := 0 to |languages|
      invariant nonleafs == NonLeafs(languages[..i], leafs)
    {
      assert languages[..i + 1][..i] == languages[..i];
      if languages[i].1.name !in leafs {
        nonleafs := nonleafs + [languages[i].0];
      }
    }
    assert languages[..|languages|] == languages;
  }

  /** Lines 218-220: `del languages[lid]` and `del values[lid]` for each listed id. */
  method DeleteKeys(languages: seq<(string, LanguageRow)>, values: seq<(string, ValueRow)>, keys: seq<string>)
    returns (languages': seq<(string, LanguageRow)>, values': seq<(string, ValueRow)>)
    ensures languages' == FilterSeq(languages, NotIn(keys))
    ensures values' == FilterSeq(values, NotIn(keys))
  {
    languages', values' := languages, values;
    FilterSeqNone(languages);
    FilterSeqNone(values);
    for j := 0 to |keys|
      invariant languages' == FilterSeq(languages, NotIn(keys[..j]))
      invariant values' == FilterSeq(values, NotIn(keys[..j]))
    {
      assert keys[..j + 1] == keys[..j] + [keys[j]];
      DeleteNotIn(languages, keys[..j], keys[j]);
      DeleteNotIn(values, keys[..j], keys[j]);
      languages' := Delete(languages', keys[j]);
      values' := Delete(values', keys[j]);
    }
    assert keys[..|keys|] == keys;
  }

  /** Deleting no keys changes nothing. */
  lemma {:induction false} FilterSeqNone<V(!new)>(od: seq<(string, V)>)
    ensures FilterSeq(od, NotIn([])) == od
  {
    if od != [] {
      FilterSeqNone(od[1..]);
    }
  }

  lemma {:induction false} NonLeafsKeys(languages: seq<(string, LanguageRow)>, leafs: set<string>)
    ensures forall x :: x in NonLeafs(languages, leafs) ==> exists k :: 0 <= k < |languages| && languages[k].0 == x && languages[k].1.name !in leafs
  {
    if languages != [] {
      var init := languages[..|languages| - 1];
      NonLeafsKeys(init, leafs);
      forall x | x in NonLeafs(init, leafs)
        ensures exists k :: 0 <= k < |languages| && languages[k].0 == x && languages[k].1.name !in leafs
      {
        var k :| 0 <= k < |init| && init[k].0 == x && init[k].1.name !in leafs;
        assert languages[k] == init[k];
      }
    }
  }

  /** A matched language is a non-leaf exactly when its name is not a leaf. */
  lemma {:induction false} NonLeafsSpec(languages: seq<(string, LanguageRow)>, leafs: set<string>)
    requires DistinctKeys(languages)
    ensures forall k :: 0 <= k < |languages| ==> (languages[k].0 in NonLeafs(languages, leafs) <==> languages[k].1.name !in leafs)
  {
    if languages != [] {
      var init := languages[..|languages| - 1];
      var last := languages[|languages| - 1];
      assert DistinctKeys(init) by {
        forall i, j | 0 <= i < j < |init| ensures init[i].0 != init[j].0 {
          assert init[i] == languages[i] && init[j] == languages[j];
        }
      }
      NonLeafsSpec(init, leafs);
      NonLeafsKeys(init, leafs);
      assert last.0 !in NonLeafs(init, leafs);
      forall k | 0 <= k < |languages|
        ensures languages[k].0 in NonLeafs(languages, leafs) <==> languages[k].1.name !in leafs
      {
        if k < |init| {
          assert languages[k] == init[k];
          assert languages[k].0 != last.0;
        }
      }
    }
  }

  /** After removing non-leaf languages, every language left is a leaf, no
      leaf language is lost, and the values are still keyed by exactly the
      languages. */
  lemma RemoveNonLeafsSpec(languages: seq<(string, LanguageRow)>, values: seq<(string, ValueRow)>, leafs: set<string>)
    requires DistinctKeys(languages)
    requires forall lid :: lid in Keys(languages) <==> lid in Keys(values)
    ensures forall e :: e in FilterSeq(languages, NotIn(NonLeafs(languages, leafs))) <==> e in languages && e.1.name in leafs
    ensures forall lid :: lid in Keys(FilterSeq(languages, NotIn(NonLeafs(languages, leafs)))) <==>
      lid in Keys(FilterSeq(values, NotIn(NonLeafs(languages, leafs))))
  {
    var nl := NonLeafs(languages, leafs);
    var ls := FilterSeq(languages, NotIn(nl));
    var vs := FilterSeq(values, NotIn(nl));
    NonLeafsSpec(languages, leafs);
    forall e | e in languages ensures e.0 in nl <==> e.1.name !in leafs {
      var k :| 0 <= k < |languages| && languages[k] == e;
    }
    forall lid ensures lid in Keys(ls) <==> lid in Keys(vs) {
      KeysMember(ls, lid);
      KeysMember(vs, lid);
      KeysMember(languages, lid);
      KeysMember(values, lid);
    }
  }

  // ---------------------------------------------------------------------
  // Codes and the order of the values
  // ---------------------------------------------------------------------

  /** A CodeTable row. */
  datatype CodeRow = CodeRow(id: string, name: string, pid: string)

  /** Lines 223-227: the names of the parameter's codes by code ID, or `None`
      without a CodeTable. */
  function CodesOf(table: Option<seq<CodeRow>>, parameter: string): Option<seq<(string, string)>>
  {
    match table
    case None => None
    case Some(rows) => Some(DictFromPairs(CodePairs(rows, parameter)))
  }

  /** The (ID, name) pairs of the parameter's code rows, in table order. */
  function CodePairs(rows: seq<CodeRow>, parameter: string): seq<(string, string)>
  {
    if rows == [] then []
    else if rows[|rows| - 1].pid == parameter then CodePairs(rows[..|rows| - 1], parameter) + [(rows[|rows| - 1].id, rows[|rows| - 1].name)]
    else CodePairs(rows[..|rows| - 1], parameter)
  }

  lemma {:induction false} CodePairsSpec(rows: seq<CodeRow>, parameter: string, pair: (string, string))
    ensures pair in CodePairs(rows, parameter) ==> exists i :: 0 <= i < |rows| && rows[i].pid == parameter && pair == (rows[i].id, rows[i].name)
  {
    if rows != [] {
      var init := rows[..|rows| - 1];
      CodePairsSpec(init, parameter, pair);
      if pair in CodePairs(init, parameter) {
        var i :| 0 <= i < |init| && init[i].pid == parameter && pair == (init[i].id, init[i].name);
        assert rows[i] == init[i];
      }
    }
  }

  /** Every code name looked up is the name of a code row of the parameter. */
  lemma CodesOfSpec(table: seq<CodeRow>, parameter: string, cid: string)
    ensures Get(CodesOf(Some(table), parameter).value, cid).Some? ==>
      exists i :: 0 <= i < |table| && table[i].pid == parameter && table[i].id == cid &&
        Get(CodesOf(Some(table), parameter).value, cid).value == table[i].name
  {
    var pairs := CodePairs(table, parameter);
    DictFromPairsGet(pairs, cid);
    LastValueIn(pairs, cid);
    if LastValue(pairs, cid).Some? {
      CodePairsSpec(table, parameter, (cid, LastValue(pairs, cid).value));
    }
  }

  lemma {:induction false} LastValueIn<V>(pairs: seq<(string, V)>, k: string)
    ensures LastValue(pairs, k).Some? ==> (k, LastValue(pairs, k).value) in pairs
  {
    if pairs != [] {
      LastValueIn(pairs[..|pairs| - 1], k);
    }
  }

  /** Line 232: a value is ordered by its code's name when there are codes
      (an empty or missing code dictionary counts as none), otherwise by the
      value itself; a missing code is a `KeyError`. */
  function SortKey(v: ValueRow, codes: Option<seq<(string, string)>>): Result<Option<string>>
  {
    if codes.None? || codes.value == [] then Ok(v.value)
    else if v.codeRef.Some? && Get(codes.value, v.codeRef.value).Some? then Ok(Some(Get(codes.value, v.codeRef.value).value))
    else Err("KeyError")
  }

  /** The key as a sort key (absent keys never reach the sort). */
  function KeyText(codes: Option<seq<(string, string)>>): ValueRow -> seq<string>
  {
    v => match SortKey(v, codes) case Ok(Some(t)) => [t] case _ => [""]
  }

  predicate KeyFails(v: ValueRow, codes: Option<seq<(string, string)>>)
  {
    SortKey(v, codes).Err?
  }

  predicate KeyMissing(v: ValueRow, codes: Option<seq<(string, string)>>)
  {
    SortKey(v, codes) == Ok(None)
  }

  /** Lines 231-233: the values sorted (stably) by their key. All keys are
      computed first; a missing value cannot be compared, which fails as soon
      as there are two values to compare. */
  function OrderValues(rows: seq<ValueRow>, codes: Option<seq<(string, string)>>): Result<seq<ValueRow>>
  {
    if exists i :: 0 <= i < |rows| && KeyFails(rows[i], codes) then Err("KeyError")
    else if |rows| >= 2 && exists i :: 0 <= i < |rows| && KeyMissing(rows[i], codes) then Err("TypeError")
    else Ok(SortBy(rows, KeyText(codes)))
  }

  /** The ordered values are the values, sorted by key, where every key is the
      code name (with codes) or the value (without); ordering fails exactly
      when a code is missing or, with two values or more, a value is. */
  lemma OrderValuesSpec(rows: seq<ValueRow>, codes: Option<seq<(string, string)>>)
    ensures OrderValues(rows, codes).Err? <==>
      (exists i :: 0 <= i < |rows| && KeyFails(rows[i], codes)) ||
      (|rows| >= 2 && exists i :: 0 <= i < |rows| && KeyMissing(rows[i], codes))
    ensures OrderValues(rows, codes).Ok? ==>
      var sorted := OrderValues(rows, codes).value;
      multiset(sorted) == multiset(rows) && SortedBy(sorted, KeyText(codes)) &&
      forall k :: 0 <= k < |sorted| ==>
        if codes.None? || codes.value == [] then
          sorted[k].value.Some? ==> KeyText(codes)(sorted[k]) == [sorted[k].value.value]
        else
          sorted[k].codeRef.Some? && Get(codes.value, sorted[k].codeRef.value).Some? &&
          KeyText(codes)(sorted[k]) == [Get(codes.value, sorted[k].codeRef.value).value]
  {
    if OrderValues(rows, codes).Ok? {
      var sorted := SortBy(rows, KeyText(codes));
      SortBySorted(rows, KeyText(codes));
      forall k | 0 <= k < |sorted| ensures !KeyFails(sorted[k], codes) {
        assert sorted[k] in multiset(rows);
      }
    }
  }

  // ---------------------------------------------------------------------
  // The output file name
  // ---------------------------------------------------------------------

  /** `args.output`: the `--output` path, or its default `False`. */
  datatype OutputArg = NoOutput | OutputPath(path: string)

  /** `str(args.output)` */
  function OutputText(output: OutputArg): string
  {
    match output
    case NoOutput => "False"
    case OutputPath(p) => p
  }

  /** Lines 244-246: a file name with a dot is used as is; otherwise the file
      format becomes its extension. */
  function PathFor(filename: string, fileFormat: string): (r: string)
    ensures '.' in filename ==> r == filename
    ensures '.' !in filename ==> r == filename + "." + fileFormat
  {
    if '.' in filename then filename else filename + "." + fileFormat
  }

  /** Line 243 as written: the `filename` option, else `str(args.output)`, else
      the parameter id. */
  function OutputFileAsWritten(ltmFilename: Option<string>, output: OutputArg, parameter: string, fileFormat: string): string
  {
    var filename :=
      if ltmFilename.Some? && ltmFilename.value != "" then ltmFilename.value
      else if OutputText(output) != "" then OutputText(output)
      else parameter;
    PathFor(filename, fileFormat)
  }

  /** As written, `str(False)` is the non-empty string "False", so without a
      `filename` option and without `--output` the map is written to
      `False.<format>` and never named after the parameter. */
  lemma OutputFileAsWrittenIgnoresParameter(parameter: string, fileFormat: string)
    ensures OutputFileAsWritten(None, NoOutput, parameter, fileFormat) == "False." + fileFormat
    ensures OutputFileAsWritten(None, NoOutput, "ABC", "png") != "ABC.png"
  {
    assert '.' !in "False";
  }

  /** Line 243 as evidently intended (the help text of line 65): the parameter
      id when neither a file name nor an output path is given. */
  function OutputFile(ltmFilename: Option<string>, output: OutputArg, parameter: string, fileFormat: string): (r: string)
  {
    var filename :=
      if ltmFilename.Some? && ltmFilename.value != "" then ltmFilename.value
      else if output.OutputPath? && output.path != "" then output.path
      else parameter;
    PathFor(filename, fileFormat)
  }

  /** The file is named by the `filename` option, else by `--output`, else by
      the parameter id, with the file format as extension unless the name
      already has a dot; the corrected name differs from the written one only
      when neither option is given. */
  lemma OutputFileSpec(ltmFilename: Option<string>, output: OutputArg, parameter: string, fileFormat: string)
    ensures ltmFilename.Some? && ltmFilename.value != "" ==>
      OutputFile(ltmFilename, output, parameter, fileFormat) == PathFor(ltmFilename.value, fileFormat)
    ensures (ltmFilename.None? || ltmFilename.value == "") && output.OutputPath? && output.path != "" ==>
      OutputFile(ltmFilename, output, parameter, fileFormat) == PathFor(output.path, fileFormat)
    ensures (ltmFilename.None? || ltmFilename.value == "") && output.NoOutput? ==>
      OutputFile(ltmFilename, output, parameter, fileFormat) == PathFor(parameter, fileFormat)
    ensures OutputFile(ltmFilename, output, parameter, fileFormat) != OutputFileAsWritten(ltmFilename, output, parameter, fileFormat) ==>
      (ltmFilename.None? || ltmFilename.value == "") && (output.NoOutput? || output.path == "")
  {
  }
}
