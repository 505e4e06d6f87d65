# cldfviz core, modelled in Dafny

cldfviz turns CLDF datasets (cross-linguistic data: languages, parameters, values, forms, media, trees) into maps, trees, networks and rendered text. This project models the data wrangling that sits between the dataset accessor and the renderers, and proves what that wrangling promises.

- `multiparameter.dfy` (`Multiparameter`): values of several parameters per language. It covers the `Value` order, resolving languages to coordinates and selecting value rows. It also covers inferring each parameter's domain (code table, numeric range or sorted identity map) and `iter_languages`. `MultiParameter` is a class whose fields the construction loops fill.
- `colormap.dfy` (`Colormaps`): colormap names and the categorical colormap, which zips a domain with a palette. `None` maps to the no-value colour.
- `cli_util.dfy` (`CliUtil`): `join_quoted`, language filters, list-valued option defaults, defaulting and checking colormap options, the shape check, and resolving `--tree`.
- `commands/network.py` → `network.dfy` (`Network`): the edge filter, component and node selection, `compute_attrs` with `drop`, the DOT serialiser and its escaping, and GraphML type inference.
- `text.py` → `text.dfy` (`Text`): `pad_ex`, the template context and template names, `render_link`, and the two-pass rendering of a reference list. `TemplateRenderer` is a class with the two fields that drive the passes.
- `commands/htmlmap.py` → `htmlmap.dfy` (`HtmlMap`): collecting values, domains, per-language value tuples, combination counts, colours, pie icons for the product of the domains, the legend, and GeoJSON features.
- `map/leaflet.py` → `leaflet.dfy` (`Leaflet`): longitudes on a Pacific-centred map, marker colour weights, feature properties with marker-spec overrides, and the legend table. `MapLeaflet` is a class holding features, legend and stylesheets.
- `commands/treemap.py` → `treemap.dfy` (`Treemap`): the `lingtreemaps` configuration parser, selecting values, matching languages to tree labels, pruning, ordering values, and the output file name.
- `media.py` → `media.dfy` (`Media`): linking objects to MediaTable files, and media URLs.
- `commands/audiowordlist.py` → `audiowordlist.dfy` (`AudioWordlist`): parsing the concept, selecting the parameter, and collecting forms with their audio URLs.
- `tree.py` and `commands/tree.py` → `tree.dfy` (`Trees`): the `name--glottocode` label encoding, figure style and height, the legend, and turning tip labels into Glottolog links.
- `common.dfy` (`Common`) and `datum.dfy` (`Datum`) hold the Python built-ins the code relies on:
  - ordered dictionaries as sequences of pairs;
  - `str` methods;
  - string and tuple ordering;
  - a stable `sorted`;
  - loops that stop at the first raised exception;
  - dynamically typed cell values with their truthiness, `==` and `str()`.

Dataset tables are sequences of records. A raised exception is an `Err` result. External services enter as function parameters:
- regular expressions;
- `float()`;
- palettes;
- Glottolog;
- YAML;
- the template engine;
- SVG drawing;
- the file system.

Loops that build state in the source are methods with loop invariants, each proved against a function that specifies its result.

## Model

| member | source | states |
|---|---|---|
| Common.Join | src/cldfviz/cli_util.py:30 | `sep.join` of no parts is empty and of one part is that part |
| Common.JoinLength | src/cldfviz/cli_util.py:30 | a join is as long as its parts plus one separator between neighbours |
| Common.Strip | src/cldfviz/text.py:54 | `strip()` leaves neither leading nor trailing whitespace, where whitespace is what `str.isspace` accepts among ASCII characters (space, `\t`, `\n`, `\v`, `\f`, `\r` and `\x1c`-`\x1f`) |
| Common.LStrip | src/cldfviz/text.py:54 | stripping the front removes exactly the leading whitespace (the ASCII characters `str.isspace` accepts, `\x1c`-`\x1f` included) |
| Common.RStrip | src/cldfviz/text.py:54 | stripping the back removes exactly the trailing whitespace (the ASCII characters `str.isspace` accepts, `\x1c`-`\x1f` included) |
| Common.StripTrimmed | src/cldfviz/commands/tree.py:120 | a string without surrounding whitespace is its own strip |
| Common.Partition | src/cldfviz/commands/audiowordlist.py:43 | `partition` splits at the first occurrence of the separator and loses nothing, and yields `(s, "", "")` iff the separator does not occur |
| Common.PartitionConcat | src/cldfviz/commands/tree.py:120 | partitioning `a + sep + b` gives back `a` and `b` when `sep` first occurs after `a` |
| Common.RemoveAll | src/cldfviz/commands/audiowordlist.py:49 | `replace(pat, '')` never lengthens a string and changes nothing when `pat` does not occur |
| Common.StrLtTotal | src/cldfviz/multiparameter.py:69-70 | Python's string `<` is total |
| Common.StrLtTransitive | src/cldfviz/multiparameter.py:69-70 | Python's string `<` is transitive |
| Common.KeyLtTransitive | src/cldfviz/multiparameter.py:69-70 | tuple comparison of strings is transitive |
| Common.KeyLtTotal | src/cldfviz/multiparameter.py:69-70 | tuple comparison of strings is total |
| Common.SortBy | src/cldfviz/commands/treemap.py:232-233 | `sorted` returns a permutation of its input |
| Common.SortByStable | src/cldfviz/commands/treemap.py:231-233 | `sorted` is stable: the elements with any one key come out in their input order |
| Common.InsertByStable | src/cldfviz/commands/treemap.py:231-233 | inserting an element into a key-sorted sequence places it after every element with the same key, so those elements keep their order |
| Common.SortBySorted | src/cldfviz/commands/treemap.py:232-233 | `sorted` returns a sequence ordered by the key |
| Common.SortedDistinct | src/cldfviz/multiparameter.py:151-152 | `sorted(set(xs))` holds exactly the elements of `xs` |
| Common.SortedDistinctSorted | src/cldfviz/multiparameter.py:151-152 | `sorted(set(xs))` is strictly ascending |
| Common.Get | src/cldfviz/commands/htmlmap.py:70 | `od.get(k)` finds a value iff the key is present, and the value is stored under it |
| Common.PutGet | src/cldfviz/commands/network.py:120 | `od[k] = v` sets `k` and leaves every other key alone |
| Common.PutKeys | src/cldfviz/commands/network.py:120 | an existing key keeps its position and a new key goes last |
| Common.SetDefaultKeys | src/cldfviz/commands/network.py:152 | `setdefault` adds the key last when it is absent, keeps keys distinct, and leaves an existing value |
| Common.AppendAtGet | src/cldfviz/media.py:31 | `d[k].append(v)` on a `defaultdict(list)` grows exactly the list of `k` |
| Common.AppendAtKeys | src/cldfviz/media.py:31 | a new key goes last and existing keys keep their order |
| Common.DictFromPairsGet | src/cldfviz/colormap.py:33 | in `dict(pairs)` a key has the value of its last pair |
| Common.Zip | src/cldfviz/colormap.py:33 | `zip` pairs up elements position by position, up to the shorter input |
| Common.AllHoldSpec | src/cldfviz/cli_util.py:89-100 | a loop of checks with early `return False` yields true iff every check holds, and false iff some check fails after all earlier ones held |
| Common.FilterOkSpec | src/cldfviz/cli_util.py:110-112 | a filtering loop whose test may raise succeeds iff the test runs on every element, and then keeps exactly the accepted elements in order |
| Common.MapResultSpec | src/cldfviz/multiparameter.py:142-152 | a loop that may raise succeeds iff every step succeeds, and then maps each element on its own |
| Common.MapInPlace | src/cldfviz/commands/tree.py:119-135 | updating every element in place, stopping at the first error, leaves the mapped elements on success |
| Datum.PyEqReflexive | src/cldfviz/cli_util.py:98 | Python equality is reflexive, and `True == 1 == 1.0` |
| Datum.PyIn | src/cldfviz/cli_util.py:93 | `v in val` holds iff some element equals `v` |
| Datum.PyStr | src/cldfviz/commands/network.py:80 | `str` of a string is the string |
| CliUtil.QuoteAll | src/cldfviz/cli_util.py:30 | every item is wrapped in double quotes, one output per item, in order |
| CliUtil.QuoteAllLength | src/cldfviz/cli_util.py:30 | quoting adds exactly two characters per item |
| CliUtil.JoinQuotedSpec | src/cldfviz/cli_util.py:29-30 | no items give the empty string; otherwise the result starts and ends with a double quote and its length is the item lengths plus two quotes per item plus one `", "` between neighbours; a single item is just quoted |
| CliUtil.JoinQuotedAppend | src/cldfviz/cli_util.py:29-30 | adding an item appends `", "` and the quoted item to the joined string |
| CliUtil.JoinEnds | src/cldfviz/cli_util.py:30 | joining quoted parts keeps the first and last double quote |
| CliUtil.JoinSnoc | src/cldfviz/cli_util.py:30 | `', '.join` of a list with one more part is the old join, the separator and the part |
| CliUtil.Criterion | src/cldfviz/cli_util.py:89-99 | a column the language lacks is an error; a string criterion is a membership test on list values and a regular-expression search (against `''` when the value is falsy) otherwise; any other criterion is an equality test |
| CliUtil.MatchesSpec | src/cldfviz/cli_util.py:88-100 | a language matches iff it meets every criterion, and is rejected iff some criterion fails after all earlier ones held |
| CliUtil.LanguageFilter | src/cldfviz/cli_util.py:84-101 | there is a filter iff `--language-filters` was given, and it applies the criteria as `language_filter` does |
| CliUtil.Ids | src/cldfviz/cli_util.py:112 | one id per language, in order |
| CliUtil.FilteredSpec | src/cldfviz/cli_util.py:110-112 | filtering succeeds iff no language raises, and then keeps exactly the table's languages that match |
| CliUtil.GetFilteredLanguages | src/cldfviz/cli_util.py:104-113 | `None` without a filter; an error when a filter meets a dataset without LanguageTable; otherwise the ids of exactly the matching languages, in table order |
| CliUtil.ListValuedDefault | src/cldfviz/cli_util.py:120-123 | `default` becomes the empty list unless it was given, and every other keyword is passed on unchanged |
| CliUtil.Nones | src/cldfviz/cli_util.py:212 | `[None] * n` has length `n` and holds only `None` |
| CliUtil.LengthCheck | src/cldfviz/cli_util.py:223 | the assertion passes iff there is one colormap option per parameter |
| CliUtil.DefaultColormapsLength | src/cldfviz/cli_util.py:211-223 | after defaulting, success means one colormap option per parameter |
| CliUtil.DefaultColormapsContents | src/cldfviz/cli_util.py:211-221 | parameters without colormap options get one `None` each, given options are kept, and language-property options (defaulted the same way) are appended after them |
| CliUtil.DefaultColormapsLanguageAlone | src/cldfviz/cli_util.py:218-220 | when `__language__` is a parameter, success requires it to be the only one |
| CliUtil.Args.constructor | src/cldfviz/cli_util.py:193-202 | the parsed options hold the given parameters, language properties and colormap options |
| CliUtil.Args.Default | src/cldfviz/cli_util.py:211-223 | the in-place update of `args.colormaps` and `args.language_properties_colormaps` yields the specified defaulted options and check result |
| CliUtil.ColormapsFor | src/cldfviz/cli_util.py:225-230 | `zip` stops at the shorter of parameters and colormap options |
| CliUtil.ColormapsForSpec | src/cldfviz/cli_util.py:225-230 | with one option per parameter, every parameter keeps its key and gets a colormap with the missing-value colour, continuous exactly for range domains and built from the parameter's domain and option otherwise |
| CliUtil.CountTrue | src/cldfviz/cli_util.py:234 | the count of shape-specifying colormaps is at most their number |
| CliUtil.CountTrueZero | src/cldfviz/cli_util.py:234-235 | the count is zero iff no colormap specifies shapes |
| CliUtil.CountTrueAtMostOne | src/cldfviz/cli_util.py:236 | the count is at most one iff no two distinct colormaps specify shapes |
| CliUtil.ShapeCheckSpec | src/cldfviz/cli_util.py:234-239 | the shape check passes iff at most one colormap specifies shapes and, if one does, there are at most two parameters |
| CliUtil.FirstMatch | src/cldfviz/cli_util.py:313-319 | the loop stops at the first tree that is the requested one (or, without `--tree-id`, a summary tree), and finds none iff no tree qualifies |
| CliUtil.NameMap | src/cldfviz/cli_util.py:322-324 | the name map has exactly the LanguageTable ids as keys |
| CliUtil.NameMapLast | src/cldfviz/cli_util.py:322-324 | of several rows with the same id the last one wins |
| CliUtil.RelabelAll | src/cldfviz/cli_util.py:326-329 | renaming keeps the number of sibling trees |
| CliUtil.LookupAll | src/cldfviz/cli_util.py:327 | each name is replaced by its `name_map.get` lookup, in order |
| CliUtil.RelabelNames | src/cldfviz/cli_util.py:326-329 | renaming visits every node: the names of the result in pre-order are the lookups of the input's names, and the leaf count is kept |
| CliUtil.RelabelAllNames | src/cldfviz/cli_util.py:326-329 | the same for a list of sibling trees |
| CliUtil.GetTreeOrder | src/cldfviz/cli_util.py:304-311 | a `--tree` that looks like a Glottocode comes from Glottolog (an error without Glottolog) even when a file of that name exists; otherwise an existing file is read and anything else parsed as Newick |
| CliUtil.GetTreeFromTable | src/cldfviz/cli_util.py:312-329 | without `--tree` a tree is found iff some TreeTable entry qualifies, and it is the first such entry's tree, relabelled node by node when Glottocodes are requested |
| Colormaps.ColormapNames | src/cldfviz/colormap.py:8-11 | the categorical names are the six fixed palettes; the continuous names are exactly the available colormaps whose names do not end in `_r` |
| Colormaps.NewColormap | src/cldfviz/colormap.py:16-33 | the colormap keeps the no-value colour and is continuous exactly when the domain is a range |
| Colormaps.Apply | src/cldfviz/colormap.py:38-40 | `None` always maps to the no-value colour |
| Colormaps.CategoricalColor | src/cldfviz/colormap.py:25-33 | the i-th domain key gets the i-th colour of the palette `seq`, `lb1`, `lb2` or the qualitative palette selects, as long as the palette has one |
| Colormaps.CategoricalMissing | src/cldfviz/colormap.py:33 | a value that is not one of the keys zipped with a colour raises |
| Colormaps.FixedPaletteHasThreeColours | src/cldfviz/colormap.py:27-30 | with `lb1` or `lb2` the fourth and later domain keys have no colour |
| Colormaps.ZipDistinct | src/cldfviz/colormap.py:33 | zipping distinct domain keys with colours gives a dictionary without clashing keys |
| Media.AsList | src/cldfviz/media.py:9-12 | a list is returned unchanged; anything else becomes the one-element list holding it |
| Media.RepeatMember | src/cldfviz/media.py:30-31 | a row referencing an object id several times contributes its id that many times and nothing else |
| Media.AttachRowGet | src/cldfviz/media.py:30-31 | the inner loop over one MediaTable row's references appends the row id to an object id's list once per time the row references that object id, and leaves every other list alone |
| Media.AppendAtIdsOf | src/cldfviz/media.py:31 | `media_by_fid[fid].append(id)` grows exactly the list of `fid` by `id` |
| Media.ByFidGet | src/cldfviz/media.py:28-31 | after the nested loops, `media_by_fid.get(fid, [])` holds exactly the ids of the MediaTable rows referencing `fid`, in row order and with multiplicity |
| Media.MediaIdsForMember | src/cldfviz/media.py:28-31 | a media id is attached to an object id exactly when a MediaTable row with that id references the object |
| Media.CountPositive | src/cldfviz/media.py:30 | a row references an object id a positive number of times iff the id is among its references |
| Media.MediaByFid | src/cldfviz/media.py:28-31 | the nested loops build the specified `media_by_fid`, and for every object id it lists exactly the referencing rows' ids |
| Media.RefsForSpec | src/cldfviz/media.py:21-38 | via `mediaReference` an object's references are its `as_list`ed cell; via MediaTable a media id is referenced iff some MediaTable row with that id references the object; without a link an object references nothing |
| Media.PairsSpec | src/cldfviz/media.py:22-38 | the collected pairs are exactly the objects passing the filter, in table order, each with its references |
| Media.PairsPaired | src/cldfviz/media.py:22-38 | the same, stated as the pairing relation proved by induction over the objects |
| Media.PairedWithSnoc | src/cldfviz/media.py:23-26 | appending a passing object with its references extends the pairing; a filtered-out object changes nothing |
| Media.MediaIdsContains | src/cldfviz/media.py:25 | every id some pair references is in `media` |
| Media.CollectedStep | src/cldfviz/media.py:23-26 | one loop iteration appends a passing object with its references and adds them to `media`, and keeps everything for a filtered-out object |
| Media.CollectByReference | src/cldfviz/media.py:21-26 | the `mediaReference` loop collects the specified pairs and the set of all ids they reference |
| Media.CollectByTable | src/cldfviz/media.py:27-36 | the MediaTable loops collect the specified pairs and the set of all ids they reference |
| Media.CollectFromTable | src/cldfviz/media.py:32-36 | given the filled `media_by_fid`, the loop over the objects collects the specified pairs and referenced ids |
| Media.CollectUnlinked | src/cldfviz/media.py:37-38 | without a link every passing object is paired with no references and `media` stays empty |
| Media.LastFile | src/cldfviz/media.py:42-44 | the file stored under an id is a MediaTable file with that id, and there is none iff no file has that id |
| Media.IndexFiles | src/cldfviz/media.py:40-44 | the dictionary has exactly the referenced ids as keys, each holding the last MediaTable file with that id, or nothing |
| Media.ResolvedSpec | src/cldfviz/media.py:45 | each object keeps at most one file per reference, every kept file is a MediaTable file named by a reference, and every reference that resolves keeps its file |
| Media.KeepResolved | src/cldfviz/media.py:45 | the comprehension over the filled dictionary keeps exactly the resolved files |
| Media.Attach | src/cldfviz/media.py:45 | one result per pair, each object with the files its references resolve to |
| Media.AttachFiles | src/cldfviz/media.py:45 | the final comprehension computes that result from the filled dictionary |
| Media.ObjectsAndMediaSpec | src/cldfviz/media.py:15-45 | the result has one entry per object passing the filter, in table order, holding the files its references resolve to |
| Media.GetObjectsAndMedia | src/cldfviz/media.py:15-45 | the method, whichever of the three paths the dataset takes (`mediaReference` first), returns that result |
| Media.MediaUrl | src/cldfviz/media.py:48-55 | with a media directory the URL is `file://` followed by the resolved local path, and there is one iff the file exists there; without one it is the file's URL |
| AudioWordlist.ParseConceptSpec | src/cldfviz/commands/audiowordlist.py:43-50 | without `=` the whole argument is the value and no column is named; otherwise it is split at the first `=`, the right part is the value, and the left part names the column, with every `cldf:` removed and, when it started with `cldf:`, resolved as a CLDF property (whose lookup error is the result) |
| AudioWordlist.RowMatches | src/cldfviz/commands/audiowordlist.py:54 | without a (non-empty) column a row matches iff its id is the value; with one, a row lacking the column raises, and otherwise it matches iff the column holds the value or its id is the value |
| AudioWordlist.FirstMatchFrom | src/cldfviz/commands/audiowordlist.py:53-58 | the search fails with `ValueError` iff every row is a plain miss; a success is the id of a matching row all of whose predecessors are plain misses |
| AudioWordlist.FirstMatchSpec | src/cldfviz/commands/audiowordlist.py:53-58 | the same over the whole ParameterTable |
| AudioWordlist.SelectParameter | src/cldfviz/commands/audiowordlist.py:52-61 | the `for ... else` loop returns `ParameterFor`: with a ParameterTable the search result; without one the value itself, and naming a column fails the assertion |
| AudioWordlist.AudioUrlsSpec | src/cldfviz/commands/audiowordlist.py:69 | at most one URL per file; every URL kept is non-empty and belongs to an audio file of the list, and every audio file with a non-empty URL contributes it |
| AudioWordlist.CollectForms | src/cldfviz/commands/audiowordlist.py:64-69 | the loop appends one entry per form, in order, with the audio URLs of its files |
| AudioWordlist.Run | src/cldfviz/commands/audiowordlist.py:39-77 | a failing concept parse fails the command with its error; once it parses, a failing parameter search (`KeyError`, `ValueError`) or a named column without a ParameterTable (`AssertionError`) fails with that error, a parameter without forms fails with `IndexError` (`forms[0]`), and a parameter with forms succeeds; on success the parameter is the first matching row's id (or the value), the forms are exactly the forms of that parameter in table order, each with the audio URLs of its resolved files, and the parameter passed on is that of the first form |
| Network.EdgeCriterion | src/cldfviz/commands/network.py:74-84 | a column the edge lacks raises; a list criterion tests membership of the value, a string criterion searches `str(value)` as a regular expression, anything else tests equality |
| Network.EdgeFilterSpec | src/cldfviz/commands/network.py:73-85 | an edge passes iff it meets every criterion; without criteria every edge passes |
| Network.FilteredEdgesSpec | src/cldfviz/commands/network.py:91 | filtering succeeds iff no edge raises, and then keeps exactly the edges that pass |
| Network.FindParameter | src/cldfviz/commands/network.py:98-102 | the search stops at the first parameter whose name or id is `--parameter`, and finds none iff no parameter has it |
| Network.EdgesFrom | src/cldfviz/commands/network.py:101 | the kept edges are exactly those whose source is in the component |
| Network.SelectComponent | src/cldfviz/commands/network.py:93-104 | without `--parameter` all edges stay; an unknown parameter is a `ValueError`; any result is a subset of the filtered edges |
| Network.Endpoints | src/cldfviz/commands/network.py:106-107 | `nids` holds exactly the sources and targets of the edges |
| Network.SelectNodes | src/cldfviz/commands/network.py:106-108 | the nodes are exactly the parameters some edge touches |
| Network.SelectNodesOrder | src/cldfviz/commands/network.py:108 | selection distributes over concatenation, so the ParameterTable order is kept |
| Network.ComputeAttrs | src/cldfviz/commands/network.py:110-121 | the loop over the specification computes the specified attributes and drop flag |
| Network.AttrsStopped | src/cldfviz/commands/network.py:115-118 | once an object is dropped later entries change nothing |
| Network.AttrsNoDrop | src/cldfviz/commands/network.py:119-120 | `drop` is never stored as an attribute |
| Network.AttrsDrop | src/cldfviz/commands/network.py:113-118 | an object is dropped iff some computed `drop` entry returns a truthy value |
| Network.AttrsValues | src/cldfviz/commands/network.py:112-120 | without a drop, the last entry for a key other than `drop` gives the key its evaluated value |
| Network.EdgesWithAttrs | src/cldfviz/commands/network.py:124-126 | the edges kept are exactly the edges that are not dropped, in their order, each with its attributes |
| Network.NodesWithAttrs | src/cldfviz/commands/network.py:127-128 | every node is kept in order with its attributes, whether or not it asked to be dropped |
| Network.EscapeShape | src/cldfviz/commands/network.py:143 | every double quote of an escaped string is preceded by a backslash |
| Network.UnescapeEscape | src/cldfviz/commands/network.py:143 | escaping loses nothing: unescaping gives the original back |
| Network.DotId | src/cldfviz/commands/network.py:139-143 | the id is in double quotes and the inside unescapes to `str(v)` |
| Network.AttrPairs | src/cldfviz/commands/network.py:146 | there are no pairs iff every attribute value is `None` |
| Network.FormatAttrs | src/cldfviz/commands/network.py:145-147 | the result is empty iff every value is `None`, and otherwise is bracketed as ` [...]` |
| Network.DefaultAttrs | src/cldfviz/commands/network.py:152-157 | a node is labelled with its name and an undirected edge gets `dir=none`, unless the attributes say otherwise; directed edges keep their attributes |
| Network.FormatEach | src/cldfviz/commands/network.py:151-161 | each loop of `iter_lines` yields one line per item, in order |
| Network.IterLines | src/cldfviz/commands/network.py:149-162 | the lines are the header, one line per node, one per edge, and the footer |
| Network.Dot | src/cldfviz/commands/network.py:138-163 | the output is the lines of `iter_lines` (header, one line per node, one per edge, footer) joined by newlines; it starts with `digraph {`, and an empty graph is `digraph {` and `}` on two lines |
| Network.JoinHead | src/cldfviz/commands/network.py:163 | joining two or more lines is the first line, the separator and the join of the rest |
| Network.InferTypeSpec | src/cldfviz/commands/network.py:172-181 | the type is `string` iff no value is a boolean, integer or float, and otherwise the type of the first such value, booleans recognised before integers |
| Network.ToLower | src/cldfviz/commands/network.py:176 | lower-casing keeps the length, turns each upper-case ASCII letter into its lower-case letter and changes no other character |
| Network.ConvertBool | src/cldfviz/commands/network.py:176 | booleans convert to `true` and `false` |
| Network.CollectDictGet | src/cldfviz/commands/network.py:187-188 | one dictionary appends its value for each of its keys to that key's list |
| Network.ValuesByKeySpec | src/cldfviz/commands/network.py:185-188 | every key that occurs in some dictionary gets the list of all its values in order, and no other key is present |
| Network.ValuesByKeyGet | src/cldfviz/commands/network.py:185-188 | the list of a key is its values dictionary by dictionary |
| Network.ValuesByKeyHas | src/cldfviz/commands/network.py:185-188 | a key is present iff some dictionary has it |
| Network.IterAttributes | src/cldfviz/commands/network.py:183-190 | each collected key, in first-seen order, with the type inferred from all its values |
| Text.Spaces | src/cldfviz/text.py:49-51 | `" " * n` is `n` spaces |
| Text.PadPair | src/cldfviz/text.py:45-51 | an object word and its gloss (`None` read as `""`) come out equally long, as long as the longer one, each its original followed by spaces only |
| Text.PaddedObj | src/cldfviz/text.py:45-52 | one padded object word per pair `zip` forms |
| Text.PaddedGloss | src/cldfviz/text.py:45-53 | one padded gloss word per pair `zip` forms |
| Text.PadEx | src/cldfviz/text.py:42-54 | the loop's two lines are the padded words joined by two spaces, each stripped |
| Text.JoinSameShape | src/cldfviz/text.py:54 | joining word lists of pairwise equal lengths gives lines of equal length |
| Text.PadExAligned | src/cldfviz/text.py:42-54 | before stripping, the object and gloss lines are equally long up to every word boundary, so every gloss starts in the column of its word, and each padded word begins with the original |
| Text.TemplateGlobals | src/cldfviz/text.py:73-74 | the template functions are the caller's with `pad_ex` added or replacing one of that name |
| Text.DatasetMapping | src/cldfviz/text.py:76-77 | a single dataset becomes the dataset for links without a prefix; a mapping is used as given |
| Text.QueryValue | src/cldfviz/text.py:123-126 | an empty query value is `True`, a `with_*` value `0`, `false` or `False` is `False`, anything else stays the string |
| Text.QueryContext | src/cldfviz/text.py:123-126 | the context has exactly the query's keys, in order, each with its normalised value |
| Text.QueryContextGet | src/cldfviz/text.py:123-126 | looking a key up gives its normalised query value, or nothing for a key not in the query |
| Text.GetTmplContext | src/cldfviz/text.py:122-129 | the method's dictionary holds the linked object as `ctx`, the link's dataset as `cldf`, and the normalised query value for every other key |
| Text.TmplContextGet | src/cldfviz/text.py:122-129 | the same, stated of the specification of the context |
| Text.ContextSwitches | src/cldfviz/text.py:123-126 | a query parameter given without a value is on, a `with_*` one given as `0`/`false`/`False` is off, and any other value of a non-`with_*` key is kept as text |
| Text.Remove | src/cldfviz/text.py:113 | after `ctx.pop(key)` the key is gone and every other entry is unchanged |
| Text.RemoveAbsent | src/cldfviz/text.py:113 | popping an absent key changes nothing |
| Text.RenderTemplateSpec | src/cldfviz/text.py:111-120 | an explicit `__template__` wins and is removed from the context; otherwise the template is `<component>_index.md` for `__all__` links and `<component>_detail.md` for others |
| Text.RefLink | src/cldfviz/text.py:132-134 | a link is a reference list iff it is an `__all__` link with `cited_only` whose component is `Source`; the dataset is looked up (and an unknown prefix raises) only after the first two tests hold |
| Text.CitedSources | src/cldfviz/text.py:140 | the reference list keeps exactly the sources whose id was cited |
| Text.RefListContextGet | src/cldfviz/text.py:139-141 | the reference list context sets `with_anchor`, holds the cited sources as `ctx` and the dataset as `cldf`, and only names a template when the link does |
| Text.SecondPassRefList | src/cldfviz/text.py:136-142 | in the second pass a reference list renders `Source_index.md` with only the cited sources and anchors on |
| Text.SourceIndexName | src/cldfviz/text.py:116-142 | the default reference list template is `Source_index.md` |
| Text.Rendered | src/cldfviz/text.py:149-152 | rendering a link whose prefix names no dataset raises |
| Text.LinkOutput | src/cldfviz/text.py:131-152 | an ordinary link is rendered by its template, a reference list before any source is known to be cited stays as it is, and an unknown prefix raises; in the second pass ordinary links are rendered too (see Findings) |
| Text.SecondPassKeepsLinks | src/cldfviz/text.py:136-152 | in the second pass every link other than a reference list comes out as in the first pass |
| Text.TemplateRenderer.constructor | src/cldfviz/text.py:104-109 | a new renderer holds the document, datasets and template engine, no second pass is requested and nothing is known to be cited |
| Text.TemplateRenderer.RenderLink | src/cldfviz/text.py:131-152 | corrected (see Findings): the method returns the corrected link output `LinkOutput`, which renders ordinary links in the second pass as well; it leaves `cited` alone and sets `with_partial_local_reflist` exactly when it meets a reference list before anything is cited |
| Text.TemplateRenderer.RenderPass | src/cldfviz/text.py:155-166 | corrected (see Findings): one pass over the document yields the corrected link outputs or its first error, and sets the flag iff some link asked for a second pass |
| Text.PassSticky | src/cldfviz/text.py:155 | once a link has raised, the rest of the pass cannot change the outcome |
| Text.PassFlag | src/cldfviz/text.py:145-147 | a completed pass asks for a second one iff the document holds a reference list and no source is known to be cited |
| Text.SinglePass | src/cldfviz/text.py:154-167 | a document without a reference list is rendered in one pass |
| Text.SourceUrlId | src/cldfviz/text.py:160 | splitting `#source-<id>` once at `-` gives `<id>` back |
| Text.CitedIdsSpec | src/cldfviz/text.py:159-162 | a source id is cited iff the first pass's output links to `#source-<id>` |
| Text.TemplateRenderer.Render | src/cldfviz/text.py:154-167 | corrected (see Findings): the first pass, then, if it asked for one, a second pass with the ids cited in the first pass's output, in which ordinary links are rendered rather than returned raw |
| Text.Render | src/cldfviz/text.py:57-93 | corrected (see Findings): `render` wraps a bare dataset as the dataset without prefix and returns the corrected two-pass rendering |
| Text.PlainLinkOutputs | src/cldfviz/text.py:136-143 | as written, an ordinary link rendered in the first pass comes back as raw markdown in the second |
| Text.SecondPassDropsRendering | src/cldfviz/text.py:136-143 | as written, some ordinary link's output differs between the two passes |
| Leaflet.LonLat | src/cldfviz/map/leaflet.py:124-129 | the latitude is kept; without Pacific centring so is the longitude; with it a longitude is moved east by exactly 360 degrees when at or west of `PACIFIC_CENTERED - 180`, so every longitude of the world lands in the half-open window of 360 degrees around the Pacific meridian |
| Leaflet.LonLatAgreesWithHtmlMap | src/cldfviz/map/leaflet.py:126-128 | the Leaflet map shifts longitudes exactly as the HTML map of `htmlmap` does |
| Leaflet.SumEqualWeights | src/cldfviz/map/leaflet.py:139 | `n` equal weights `w` add up to `n * w` |
| Leaflet.WeighSpec | src/cldfviz/map/leaflet.py:139 | weighing keeps the colours in order and every explicit weight, and bare colours share the pie equally, adding up to one whole pie |
| Leaflet.MakeIcon | src/cldfviz/map/leaflet.py:131-145 | building a marker fails (`colors[0]` raises) iff there are no colours |
| Leaflet.PieSpec | src/cldfviz/map/leaflet.py:139-145 | a pie has one slice per colour, in order, and a pie of bare colours adds up to a whole |
| Leaflet.ShapeColorOfPairs | src/cldfviz/map/leaflet.py:132-143 | for `[shape colour, colour]` pairs a shape icon is the shape code followed by the first pair's shape colour without `#` |
| Leaflet.OverrideGet | src/cldfviz/map/leaflet.py:162-163 | `props.update` gives a key the last value a set field other than `css` gives it, and keeps the default otherwise |
| Leaflet.LastSetAppend | src/cldfviz/map/leaflet.py:163 | a later set field other than `css` overrides earlier ones |
| Leaflet.LastSetSpecFields | src/cldfviz/map/leaflet.py:163 | the value the marker spec's fields give a key is the spec's own value for it |
| Leaflet.PropsSpec | src/cldfviz/map/leaflet.py:149-163 | a property is the spec's value where the spec sets it and the default otherwise, and `css` never becomes a property |
| Leaflet.PropsGet | src/cldfviz/map/leaflet.py:149-163 | the first half of that, key by key |
| Leaflet.BasePropsNoCss | src/cldfviz/map/leaflet.py:149-158 | the default properties have no `css` |
| Leaflet.ValuePartsSpec | src/cldfviz/map/leaflet.py:152-154 | one part per parameter with values; when every parameter has values, the i-th part is the template applied to the i-th parameter and its first value |
| Leaflet.LegendRowsCount | src/cldfviz/map/leaflet.py:178-215 | each parameter contributes a separator (except the first), a header, and then one colour-bar row for a range or one row per categorical value |
| Leaflet.BarSpec | src/cldfviz/map/leaflet.py:190-203 | the colour bar's first cell is labelled with the minimum and the last with the maximum, the nine between are blank, and the sampled values start at the minimum, end at the maximum and never decrease for a proper range |
| Leaflet.HighlightSpec | src/cldfviz/map/leaflet.py:184-213 | a legend marker has one slot per parameter, and only the parameter's own slot carries its colour (unless that colour is white) |
| Leaflet.ColorBar | src/cldfviz/map/leaflet.py:190-207 | the loop over the 11 columns builds the specified label row and colour row |
| Leaflet.ValueRows | src/cldfviz/map/leaflet.py:209-215 | the loop over a categorical domain builds one row per value, in domain order |
| Leaflet.ParameterRows | src/cldfviz/map/leaflet.py:179-215 | the rows the loop body adds for parameter `i` are the specified separator, header, and bar or value rows |
| Leaflet.MapLeaflet.constructor | src/cldfviz/map/leaflet.py:79-83 | a new map has no features, an empty legend and no stylesheets |
| Leaflet.MapLeaflet.AddLanguage | src/cldfviz/map/leaflet.py:147-170 | the method fails iff the marker cannot be built, and then changes nothing; otherwise it appends exactly one feature, with the language's id, coordinates and properties, adds the spec's stylesheet, and leaves the legend alone |
| Leaflet.MapLeaflet.AddLegend | src/cldfviz/map/leaflet.py:172-216 | the legend becomes the table of the rows of all parameters; features and stylesheets are unchanged |
| HtmlMap.CollectValues | src/cldfviz/commands/htmlmap.py:43-52 | the ValueTable loop builds the specified nested dictionary of collected rows |
| HtmlMap.AddValueGet | src/cldfviz/commands/htmlmap.py:48 | `values[pid][cid].append(lid)` appends `lid` to exactly that list, and adds `pid` if it was absent |
| HtmlMap.CollectedSpec | src/cldfviz/commands/htmlmap.py:43-52 | each parameter and value holds exactly the languages of the rows with that parameter and value whose language is a geo-referenced languoid, in row order; a parameter is present iff one of its rows is collected |
| HtmlMap.CollectedLangs | src/cldfviz/commands/htmlmap.py:43-52 | the first half of that |
| HtmlMap.CollectedHas | src/cldfviz/commands/htmlmap.py:43-52 | the second half of that |
| HtmlMap.Domain | src/cldfviz/commands/htmlmap.py:55 | a domain is strictly sorted and holds exactly the non-empty values |
| HtmlMap.Domains | src/cldfviz/commands/htmlmap.py:54-57 | the domains are the collected parameters, strictly sorted by id, each with the domain of its values |
| HtmlMap.ValuesByLang | src/cldfviz/commands/htmlmap.py:59-63 | the triple loop builds the specified per-language dictionary |
| HtmlMap.Set2Get | src/cldfviz/commands/htmlmap.py:63 | `values_by_lang[lang][pid] = cid` sets exactly that entry |
| HtmlMap.AddLangsGet | src/cldfviz/commands/htmlmap.py:62-63 | the innermost loop sets `pid` to `cid` for exactly the listed languages |
| HtmlMap.AddCidsUnlisted | src/cldfviz/commands/htmlmap.py:61-63 | a language not listed under any value of `pid` keeps its entries |
| HtmlMap.AddCidsListed | src/cldfviz/commands/htmlmap.py:61-63 | a language listed under some value of `pid` gets the last value it is listed under, as the later assignment overwrites the earlier |
| HtmlMap.AddCidsLangs | src/cldfviz/commands/htmlmap.py:61-63 | a language is present afterwards iff it was before or is listed under some value |
| HtmlMap.AddCidsGet | src/cldfviz/commands/htmlmap.py:61-63 | the three facts above together: unlisted languages keep their value, a listed language gets the last value it is listed under, and the languages present are those present before or listed |
| HtmlMap.AddPidsUnlisted | src/cldfviz/commands/htmlmap.py:60-63 | a language not listed under any value of `pid` has no new value for it |
| HtmlMap.AddPidsListed | src/cldfviz/commands/htmlmap.py:60-63 | a language listed under a value of `pid` gets the value of its last listing in the order of the loops |
| HtmlMap.AddPidsLangs | src/cldfviz/commands/htmlmap.py:60-63 | a language is present iff it was before or is listed under some parameter's value |
| HtmlMap.AddPidsGet | src/cldfviz/commands/htmlmap.py:60-63 | the three facts above together, with the last listing winning |
| HtmlMap.ValuesByLangSpec | src/cldfviz/commands/htmlmap.py:59-63 | a language has a value for a parameter iff it is listed under one of the parameter's values, and the value is the last one it is listed under in the order of the loops; the languages present are exactly the listed ones |
| HtmlMap.Normalize | src/cldfviz/commands/htmlmap.py:65-73 | the tuples are `Tuples`: every language keeps its place and gets the tuple of its values in domain order (`None` where it has none), and the counter counts those tuples |
| HtmlMap.TotalInc | src/cldfviz/commands/htmlmap.py:73 | `counter.update([t])` adds one to the total |
| HtmlMap.CountedSpec | src/cldfviz/commands/htmlmap.py:65-73 | the counts add up to the number of languages, and each tuple's count is the number of languages having it |
| HtmlMap.AssignColors | src/cldfviz/commands/htmlmap.py:75-82 | the loop builds the specified colour table |
| HtmlMap.AddColorsSpec | src/cldfviz/commands/htmlmap.py:77-81 | zipping a domain with its palette gives each zipped value its colour and leaves every other key alone |
| HtmlMap.PairsDistinct | src/cldfviz/commands/htmlmap.py:77-79 | a strictly sorted domain zipped with a palette has distinct keys |
| HtmlMap.ColorTableLast | src/cldfviz/commands/htmlmap.py:76-82 | the last parameter's "no value" is `#fff` and its j-th value has the j-th palette colour |
| HtmlMap.ColorTableFrame | src/cldfviz/commands/htmlmap.py:76-82 | a later parameter leaves the colours of earlier ones unchanged |
| HtmlMap.ColorTableSpec | src/cldfviz/commands/htmlmap.py:75-82 | for every parameter "no value" is `#fff` and the j-th domain value has the j-th palette colour, for as many values as the palette has colours |
| HtmlMap.OptionsSpec | src/cldfviz/commands/htmlmap.py:87 | a parameter's choices are its domain values and `None` |
| HtmlMap.ExtendSpec | src/cldfviz/commands/htmlmap.py:86-87 | extending puts each choice in front of each tuple |
| HtmlMap.ProductSpec | src/cldfviz/commands/htmlmap.py:86-87 | the product holds exactly the tuples with one choice per parameter, in parameter order |
| HtmlMap.IconsSpec | src/cldfviz/commands/htmlmap.py:83-87 | the icons exist iff every tuple of the product can be coloured, are keyed by exactly the product's tuples, and each is the pie of its colours |
| HtmlMap.IconsDrawable | src/cldfviz/commands/htmlmap.py:76-87 | with palettes at least as long as the domains every tuple gets an icon |
| HtmlMap.ProductColored | src/cldfviz/commands/htmlmap.py:76-87 | every entry of every product tuple then has a colour |
| HtmlMap.ComponentColored | src/cldfviz/commands/htmlmap.py:76-87 | the same, entry by entry |
| HtmlMap.IconsCoverLegend | src/cldfviz/commands/htmlmap.py:83-96 | the icons of the whole product include every tuple the legend looks up |
| HtmlMap.ParamLinesAt | src/cldfviz/commands/htmlmap.py:91-96 | a parameter contributes its header and then, for its j-th value, the row showing the icon in which only that value is set |
| HtmlMap.LegendLinesStep | src/cldfviz/commands/htmlmap.py:90-96 | each parameter appends its lines to the legend |
| HtmlMap.Legend | src/cldfviz/commands/htmlmap.py:88-97 | the loop builds the specified legend table |
| HtmlMap.RowsSoFarLines | src/cldfviz/commands/htmlmap.py:92-96 | the inner loop appends the parameter's value rows in domain order |
| HtmlMap.LegendSoFarLines | src/cldfviz/commands/htmlmap.py:88-96 | the legend built row by row is `<table>` followed by one header per parameter, each followed by one row per value of its domain |
| HtmlMap.ParamLinesConcat | src/cldfviz/commands/htmlmap.py:91-96 | a parameter's lines are its header followed by its value rows |
| HtmlMap.LegendLinesCount | src/cldfviz/commands/htmlmap.py:88-96 | the legend has one header per parameter and one row per domain value |
| HtmlMap.PacificLon | src/cldfviz/commands/htmlmap.py:100-102 | a longitude is kept or moved east by 360 degrees, so every longitude of the world lands in the window (-26, 334] |
| HtmlMap.L2F | src/cldfviz/commands/htmlmap.py:99-113 | a feature exists iff the languoid has coordinates and its tuple has an icon, and then carries the languoid's id and name, its latitude, the shifted longitude and the tuple's icon |
| HtmlMap.FeaturesSpec | src/cldfviz/commands/htmlmap.py:115-118 | the features exist iff every language is a geo-referenced languoid whose tuple has an icon, and then there is one per language, in order, with its id, icon and values text |
| HtmlMap.HtmlMap | src/cldfviz/commands/htmlmap.py:38-140 | the map data is made from the rows: it exists iff every product tuple can be coloured and every language has coordinates and an icon; the combinations are the counts of the languages' value tuples, the features are those of the languages in order, the number of languages is the number of tuples, the counts add up to it, and the legend is the table of the parameters' headers and value rows |
| Treemap.Kinds | src/cldfviz/commands/treemap.py:57-58 | one classified line per configuration line |
| Treemap.KindsAt | src/cldfviz/commands/treemap.py:58-61 | the i-th classified line is the i-th line's kind: comment, option or blank |
| Treemap.LastOptionLine | src/cldfviz/commands/treemap.py:62-67 | the last option line before line `n` is an option line and none follows it before `n` (or there is none) |
| Treemap.PendingHelpSpec | src/cldfviz/commands/treemap.py:54-67 | the collected help is exactly the texts of the comments since the last option line |
| Treemap.ReadLine | src/cldfviz/commands/treemap.py:58-67 | a comment line appends its stripped text to the help, an option line yields its option with the collected help and clears it, and a blank line changes nothing |
| Treemap.ReadNext | src/cldfviz/commands/treemap.py:56-67 | reading one more line advances the specified help and options by one line |
| Treemap.IterLtmOptions | src/cldfviz/commands/treemap.py:53-67 | the loop over the configuration lines yields exactly the specified options |
| Treemap.LtmOptionsSpec | src/cldfviz/commands/treemap.py:53-67 | one option per option line, each with the line's name and default and, for `filename`, the fixed help text, else the comments since the previous option |
| Treemap.LtmOptionsInOrder | src/cldfviz/commands/treemap.py:53-67 | the options come in the order of their lines: the option line with `n` option lines before it yields the `n`-th option, with its name, its default and the comments pending before it as help |
| Treemap.LastSelected | src/cldfviz/commands/treemap.py:130-133 | a language's chosen row is a selected row of that language after which no selected row of it follows, and none exists iff no row of it is selected |
| Treemap.SelectValuesSpec | src/cldfviz/commands/treemap.py:130-133 | the dictionary comprehension gives a language its last selected row (a row of the parameter, and of a filtered language when filtering), and no entry otherwise |
| Treemap.SelectValuesDistinct | src/cldfviz/commands/treemap.py:130-133 | the values are keyed by distinct languages, each entry under its own row's language |
| Treemap.PutEntries | src/cldfviz/commands/treemap.py:131 | storing an entry adds nothing but that entry |
| Treemap.MatchLanguages | src/cldfviz/commands/treemap.py:170-178 | the loop over the LanguageTable computes the specified matching |
| Treemap.MatchedSticky | src/cldfviz/commands/treemap.py:171-178 | once a row has raised, later rows do not change the outcome |
| Treemap.TreeLabel | src/cldfviz/commands/treemap.py:171-175 | the label is the requested property (`id`, `glottocode`, `name`; coordinates never label a node) or else the row's column of that name, and reading it raises `KeyError` iff it is neither |
| Treemap.MatchStepSpec | src/cldfviz/commands/treemap.py:173-178 | a row with a value raises iff the tree label property is neither a requested property nor a column of the row; otherwise its language is added exactly when it has a value and its non-empty label is a tree node, and every recorded label keeps naming a kept language |
| Treemap.MatchedSpec | src/cldfviz/commands/treemap.py:170-178 | matching raises iff some language with a value has neither the label property nor a column of that name; otherwise exactly the languages with a value whose label is a tree node are kept, each has a value, and every label names a kept language |
| Treemap.MatchedErr | src/cldfviz/commands/treemap.py:170-178 | the error half of that: matching raises iff some language with a value has a row with neither that property nor that column |
| Treemap.MatchedKept | src/cldfviz/commands/treemap.py:170-178 | the kept languages half of that |
| Treemap.MatchedLabels | src/cldfviz/commands/treemap.py:178 | the label half of that |
| Treemap.GlottologMatchedSpec | src/cldfviz/commands/treemap.py:179-185 | without a LanguageTable exactly the languages with a value that are tree nodes are kept, named by their id and labelled by themselves |
| Treemap.PruneValues | src/cldfviz/commands/treemap.py:187-189 | the loop deletes exactly the values of languages that were not matched |
| Treemap.UnmatchedSpec | src/cldfviz/commands/treemap.py:187-188 | the ids deleted are those with a value and without a matched language |
| Treemap.KeysMember | src/cldfviz/commands/treemap.py:188 | an id is a key exactly when some entry has it |
| Treemap.PrunedKeys | src/cldfviz/commands/treemap.py:187-192 | after pruning, the values are keyed by exactly the matched languages, which is the assertion of line 192 |
| Treemap.CollectNonLeafs | src/cldfviz/commands/treemap.py:214-217 | the loop collects exactly the ids of the languages whose name is not a leaf, in order |
| Treemap.DeleteKeys | src/cldfviz/commands/treemap.py:218-220 | deleting each listed id from both dictionaries leaves exactly the entries whose key is not listed |
| Treemap.DeleteNotIn | src/cldfviz/commands/treemap.py:218-220 | deleting one more key is filtering out one more key |
| Treemap.FilterSeqNone | src/cldfviz/commands/treemap.py:218-220 | deleting no keys changes nothing |
| Treemap.RemoveNonLeafs | src/cldfviz/commands/treemap.py:214-220 | languages and values keep exactly their entries whose id is not a non-leaf |
| Treemap.NonLeafsKeys | src/cldfviz/commands/treemap.py:214-217 | every collected id belongs to a language whose name is not a leaf |
| Treemap.NonLeafsSpec | src/cldfviz/commands/treemap.py:214-217 | a language is collected iff its name is not a leaf |
| Treemap.RemoveNonLeafsSpec | src/cldfviz/commands/treemap.py:212-220 | afterwards the languages left are exactly those whose name is a leaf, and languages and values are still keyed alike |
| Treemap.CodePairsSpec | src/cldfviz/commands/treemap.py:224-227 | every pair is the id and name of a code row of the parameter |
| Treemap.CodesOfSpec | src/cldfviz/commands/treemap.py:223-227 | every code name looked up is the name of a code row of the parameter with that id |
| Treemap.LastValueIn | src/cldfviz/commands/treemap.py:224 | the value `OrderedDict` keeps for a key comes from one of its pairs |
| Treemap.OrderValuesSpec | src/cldfviz/commands/treemap.py:231-233 | sorting fails iff a code is missing from the code table, or a value is missing and there are at least two values; otherwise the result is a permutation of the values, sorted by key, the key being the code name with codes and the value without |
| Treemap.PathFor | src/cldfviz/commands/treemap.py:244-246 | a file name with a dot is used as is; otherwise the file format becomes its extension |
| Treemap.OutputFileAsWrittenIgnoresParameter | src/cldfviz/commands/treemap.py:243 | as written, without a `filename` option and without `--output` the file is `False.<format>`, never the parameter id |
| Treemap.OutputFileSpec | src/cldfviz/commands/treemap.py:242-246 | the file is named by the `filename` option, else by `--output`, else by the parameter id, with the file format as extension unless the name has a dot; it differs from the code as written only when neither a name nor an output path is given |
| Multiparameter.LanguageFromObject | src/cldfviz/multiparameter.py:18-29 | an object with its own coordinates gives a language with its id, its name (else its id) and those coordinates; any language returned carries the object's id |
| Multiparameter.LanguageFromObjectResolves | src/cldfviz/multiparameter.py:19-24 | a language is resolved iff the object has coordinates or its Glottolog languoid (looked up by Glottocode, else id) has some; in the second case the Glottolog coordinates are used |
| Multiparameter.LanguageFromGlottolog | src/cldfviz/multiparameter.py:31-36 | a language comes back iff the id is a Glottolog languoid with a latitude, and then it is built from that languoid |
| Multiparameter.NewValue | src/cldfviz/multiparameter.py:53-64 | the constructor keeps `v`, `pid`, `lid`, `code` and sets `float` to the numeric parse of `v` (none when it does not parse) |
| Multiparameter.EqIgnoresCodeAndFloat | src/cldfviz/multiparameter.py:66-67 | two values are equal iff their language, parameter and value agree; `code` and `float` play no part |
| Multiparameter.LtIsLexicographic | src/cldfviz/multiparameter.py:69-70 | `<` is the lexicographic order on `(lid, pid, v)` under Python string order |
| Multiparameter.LtStrictTotalOrder | src/cldfviz/multiparameter.py:51-70 | `<` is irreflexive, asymmetric and transitive, and any two values are `<`, `==` or `>` |
| Multiparameter.ValueFromRow | src/cldfviz/multiparameter.py:72-80 | `v` is the code reference when truthy, else the value; the code is read only for parameters with a code table (else `None`), and a missing code is the `KeyError` path |
| Multiparameter.LanguagesById | src/cldfviz/multiparameter.py:89-90 | every LanguageTable object has an entry, and every entry is `Language.from_object` of an object with that id |
| Multiparameter.ParametersById | src/cldfviz/multiparameter.py:91-92 | every ParameterTable entry is keyed by its own id |
| Multiparameter.RequestedParametersKeys | src/cldfviz/multiparameter.py:93-94 | the requested parameters are the pids in order of first request, without duplicates |
| Multiparameter.RequestedParametersGet | src/cldfviz/multiparameter.py:93-94 | each requested pid maps to its ParameterTable entry, or to a parameter named by the pid when the table lacks it |
| Multiparameter.ParametersKeys | src/cldfviz/multiparameter.py:93-100 | keys are distinct; the requested pids come first, then the language property if it is new; with neither pids nor property there is exactly the synthetic `language` parameter |
| Multiparameter.ResolveParameters | src/cldfviz/multiparameter.py:93-100 | the method builds `self.parameters` as specified, and every requested pid other than the language property keeps its requested entry |
| Multiparameter.CodeTablesKeys | src/cldfviz/multiparameter.py:102-106 | only requested parameters get a code table, and the code tables have distinct keys |
| Multiparameter.Identity | src/cldfviz/multiparameter.py:107-110 | the identity mapping has exactly the given keys, each mapped to itself |
| Multiparameter.PropertyValues | src/cldfviz/multiparameter.py:108-109 | reading the language property succeeds iff every LanguageTable row has the column, and then gives one value per row in order |
| Multiparameter.CollectValuesSpec | src/cldfviz/multiparameter.py:116-123 | one value per kept row (non-null value, requested parameter, resolvable language); every value's language is recorded and its parameter requested; recorded languages are distinct and resolved |
| Multiparameter.CollectValuesContents | src/cldfviz/multiparameter.py:116-123 | the values are those read from the kept rows, in row order: the `i`-th value is the `Value` of the `i`-th kept row |
| Multiparameter.ValueStepSpec | src/cldfviz/multiparameter.py:117-123 | one ValueTable row keeps the recording invariant and adds a value exactly when the row is kept |
| Multiparameter.CollectValueRows | src/cldfviz/multiparameter.py:113-123 | the loop over ValueTable computes the fold of `ValueStep`, with one value per kept row and every value's language recorded |
| Multiparameter.CollectValuesErr | src/cldfviz/multiparameter.py:116-123 | an error in a prefix of the ValueTable rows is the error of the whole loop |
| Multiparameter.LanguageStepSpec | src/cldfviz/multiparameter.py:124-140 | one LanguageTable row appends exactly one value for that language, records the language and keeps earlier ones |
| Multiparameter.LanguagesAddedStep | src/cldfviz/multiparameter.py:124-140 | the "one value per language object, in order, each recorded" relation extends by one object |
| Multiparameter.AddLanguageValuesSpec | src/cldfviz/multiparameter.py:124-140 | every LanguageTable row gets exactly one value, appended in table order after the existing values, and its language is recorded |
| Multiparameter.AddLanguageRows | src/cldfviz/multiparameter.py:124-140 | the loop over LanguageTable computes the fold of `LanguageStep`, adding one value per row |
| Multiparameter.AddLanguageValuesErr | src/cldfviz/multiparameter.py:124-140 | an error in a prefix of the LanguageTable rows is the error of the whole loop |
| Multiparameter.MinFloat | src/cldfviz/multiparameter.py:149 | `min` over a non-empty list of numeric values is a lower bound attained by some value |
| Multiparameter.MaxFloat | src/cldfviz/multiparameter.py:149 | `max` over a non-empty list of numeric values is an upper bound attained by some value |
| Multiparameter.InferDomain | src/cldfviz/multiparameter.py:142-152 | inference keeps the parameter's id and name |
| Multiparameter.InferDomainCoded | src/cldfviz/multiparameter.py:143-144 | a parameter with a code table takes it as its domain |
| Multiparameter.InferDomainNumeric | src/cldfviz/multiparameter.py:146-149 | without codes and with all values numeric, the parameter becomes continuous over a range bounding every value with both ends attained; with no values at all inference fails (`min` of an empty sequence) |
| Multiparameter.InferDomainCategorical | src/cldfviz/multiparameter.py:150-152 | otherwise the domain is strictly sorted, has exactly the distinct values as keys and maps each to itself; the kind is unchanged |
| Multiparameter.InferDomainsSpec | src/cldfviz/multiparameter.py:142-152 | inference succeeds iff it succeeds for every parameter; the result keeps ids and order, each with its inferred parameter |
| Multiparameter.InferDomainsMap | src/cldfviz/multiparameter.py:142-152 | the loop over the parameters is the element-wise map with first-error abort |
| Multiparameter.InferDomainsKeys | src/cldfviz/multiparameter.py:142-152 | after inference the parameters have the same keys in the same order |
| Multiparameter.SetDomains | src/cldfviz/multiparameter.py:142-152 | the in-place loop computes the specified inference and keeps the parameter keys |
| Multiparameter.InferDomainsErr | src/cldfviz/multiparameter.py:142-152 | an error for a prefix of the parameters is the error of the whole loop |
| Multiparameter.BuildState | src/cldfviz/multiparameter.py:84-152 | the constructor's steps, each loop in its own method, compute the specified state or error |
| Multiparameter.BuildValid | src/cldfviz/multiparameter.py:84-152 | after construction parameter and language keys are distinct and every value's language is in `languages` |
| Multiparameter.MultiParameter.Create | src/cldfviz/multiparameter.py:84-154 | construction succeeds iff the specified build does, and the new object holds its parameters, languages and values, `include_missing`, and satisfies the class invariant |
| Multiparameter.Groups | src/cldfviz/multiparameter.py:158-159 | a language's map has exactly the parameter ids in order, each with its group (empty when the language has no value for it) |
| Multiparameter.GroupSpec | src/cldfviz/multiparameter.py:157-158 | a group cut from the sorted values is sorted and holds exactly the values of that language and parameter, with multiplicity |
| Multiparameter.EntriesForStep | src/cldfviz/multiparameter.py:157-161 | one more language id adds its entry exactly when it is complete or missing values are included |
| Multiparameter.EntriesForSound | src/cldfviz/multiparameter.py:157-161 | each yielded entry is for one of the ids, holds that language's groups and recorded language, and is complete unless `include_missing` |
| Multiparameter.EntriesForComplete | src/cldfviz/multiparameter.py:157-161 | every id whose groups are all non-empty (or every id, with `include_missing`) is yielded |
| Multiparameter.EntriesForAscending | src/cldfviz/multiparameter.py:157 | entries built from strictly ascending ids come in strictly ascending id order |
| Multiparameter.MultiParameter.IterLanguages | src/cldfviz/multiparameter.py:156-161 | the generator's loop yields exactly the specified iteration of the object's state |
| Multiparameter.IterationAscending | src/cldfviz/multiparameter.py:157 | languages are yielded in strictly ascending id order |
| Multiparameter.IterationEntries | src/cldfviz/multiparameter.py:156-161 | each yielded entry is a recorded language with one list per parameter, in parameter order, each the sorted values of that language and parameter; incomplete entries appear only with `include_missing` |
| Multiparameter.IterationComplete | src/cldfviz/multiparameter.py:157-161 | every language with a value whose lists are all non-empty (or any such language, with `include_missing`) is yielded |
| Trees.LeafCount | src/cldfviz/tree.py:34 | every tree has at least one leaf |
| Trees.LeafCountAll | src/cldfviz/tree.py:34 | a non-empty list of subtrees has at least one leaf |
| Trees.RenameAll | src/cldfviz/tree.py:30 | renaming keeps the number of children |
| Trees.RenameKeepsLeaves | src/cldfviz/tree.py:22-34 | renaming keeps the shape, so the leaf count and whether a node is a leaf are unchanged |
| Trees.RenameAllKeepsLeaves | src/cldfviz/tree.py:30 | the same for a list of subtrees |
| Trees.RenameNames | src/cldfviz/tree.py:22-26 | after renaming, inner nodes have no name, a leaf in the mapping is labelled `<name>--<glottocode>`, and any other leaf keeps its name |
| Trees.Height | src/cldfviz/tree.py:34 | the figure is at least 65 pixels high (`ntaxa * 15 + 50` with at least one taxon) |
| Trees.DefaultStyle | src/cldfviz/tree.py:32-44 | the default style holds the width, the height computed from the leaf count and the scalebar flag |
| Trees.Style | src/cldfviz/tree.py:45 | `style.update(styles)`: user styles override the defaults, which fill in every key the user left out |
| Trees.RenderStyle | src/cldfviz/tree.py:28-45 | `render` draws with the leaf-count height and shows the scalebar iff there is a branch length unit or a legend, unless `styles` (possibly absent) overrides them |
| Trees.RenderTreeStyle | src/cldfviz/commands/tree.py:91-107 | `render_tree` draws with the leaf-count height, the given width and the scalebar always on, unless `styles` overrides them |
| Trees.RenderTreeStyleAfterRename | src/cldfviz/commands/tree.py:82-96 | the style is the same whether the leaves are counted before or after renaming |
| Trees.Legend | src/cldfviz/commands/tree.py:46-55 | a given title is the legend; otherwise it starts with the tree name, ends with ` with branches in <unit>` when there is a unit, and is just the name when there is neither description nor unit |
| Trees.LegendDescription | src/cldfviz/commands/tree.py:46-52 | without a title and with a TreeTable description, ` - <description>` follows the tree name directly, and is the end of the legend when there is no unit |
| Trees.TreesToRender | src/cldfviz/commands/tree.py:44-45 | all trees are rendered without `--tree-id`, otherwise exactly those with that id |
| Trees.GlottocodeMapKeys | src/cldfviz/commands/tree.py:62-64 | exactly the LanguageTable rows with a Glottocode give an entry |
| Trees.GlottocodeMapValues | src/cldfviz/commands/tree.py:63 | every entry has a non-empty Glottocode and the Glottolog name of that Glottocode, or `''` |
| Trees.LinkText | src/cldfviz/commands/tree.py:124-127 | the link text is `<id> - <name> [<glottocode>]`, or `<id> - [<glottocode>]` without a name |
| Trees.LinkedTip | src/cldfviz/commands/tree.py:119-135 | an element that is already a link is left alone |
| Trees.UnlabelledTipUnchanged | src/cldfviz/commands/tree.py:120-121 | a label without `--` is never linked |
| Trees.RenameThenLink | src/cldfviz/commands/tree.py:82-135 | round trip: a label made by `rename` decodes to its language id and Glottocode, so it becomes a link to that Glottocode's Glottolog page whose blue text names the language |
| Trees.LinkAllSpec | src/cldfviz/commands/tree.py:119-135 | linking succeeds iff no label raises, and then rewrites each label on its own |
| Trees.AddGlottologLinks | src/cldfviz/commands/tree.py:115-136 | the loop over the tip labels succeeds iff no label raises, and then leaves every label rewritten as specified |

## Left out

- The continuous branch of `Colormap` (matplotlib `Normalize`/`to_hex`) is a parameter `ramp`; floating point colour computation is not modelled.
- Palette generators (`qualitative_colors`, `sequential_colors`, the matplotlib colormap list) are parameters.
- Regular expression search, the Glottocode pattern, `float()` parsing, YAML parsing, the networkx connected component and `eval` of attribute specifications are parameters, or values given to the model.
- Glottolog lookups and the schema lookup of a CLDF property's column are parameters.
- The file system is a parameter: file existence, reading a Newick file and a media file's local path.
- Newick parsing and serialisation are not modelled. Trees are values of a `Node` datatype.
- `nwk.visit(rename)` updates nodes in place; the model returns the renamed tree, so aliasing of nodes is not captured.
- The tree pruning and renaming of `commands/treemap.py` (lines 195-210) are not modelled. The model receives the tree's node labels and, after pruning, its leaf names.
- `lingtreemaps.plot`, `df_from_dicts`, Phylo, toytree, toyplot and SVG parsing and writing are I/O or foreign calls and are not modelled. The SVG tip labels are an array of elements.
- The GraphML XML tree (`subelement`, `create_key`, `tostring`) is not modelled, only the type inference it relies on.
- Jinja rendering is the parameter `engine`. Finding the object a CLDF Markdown link points to and finding the Markdown links in a text are given with the document. `iter_templates`, `iter_cldfviz_links` and `_add_filters` are left out.
- Writing files, printing, logging warnings, opening a web browser and the option registration functions (`add_*`, `register`) are I/O and are not modelled.
- `get_multiparameter` passes `datatypes`, `weight_col`, `language_properties` and `language_filter` keywords that the `MultiParameter` of `multiparameter.py` does not accept. The model takes the ids of the constructed parameters as given and covers the colormap handling that follows (lines 211-239).
- `Counter.most_common` ordering and the JSON and HTML templates of `htmlmap` (lines 120-143) are not modelled.
- `MapLeaflet.__exit__` and `add_options` (page writing and option registration) are not modelled.
- `media.py` line 41 tests the constant string `'MediaTable'`, which is always true. The model always resolves files against the MediaTable rows it is given.
- `anyURI.to_string(file.url)` is modelled as the URL string.
- A `File`'s truthiness is modelled as "the id resolved to a file".
- `str()` of a float is carried with the value. String escaping follows `repr` only for strings without quotes or backslashes.
- Python's `str.lower` and `str.isspace` are modelled for ASCII only.
- `Colormaps.Apply`: its own contract states only the `None` case; the categorical cases are the lemmas `CategoricalColor`, `CategoricalMissing` and `FixedPaletteHasThreeColours`, and a continuous colour is whatever the `ramp` parameter returns.
- `Network.SelectComponent`: states the error case and that the kept edges are a subset; what the component holds is up to the `component` parameter.
- `Leaflet.MakeIcon`: states when a marker can be built; the shape selection is the parameter standing for `get_shape_and_color`.
- CliUtil.ColormapsFor, CliUtil.ColormapsForSpec: `src/cldfviz/cli_util.py:226-230` passes the `Parameter` object to `Colormap`, while the `Colormap` of `src/cldfviz/colormap.py:16-33` takes a domain (a tuple or a list of values). A `Parameter` is neither, so `len(domain)` (lines 26 and 32) raises a `TypeError`, which the `except (ValueError, KeyError)` of line 231 does not catch. The model builds each colormap from the parameter's domain instead, and does not model this mismatch between the two files.
- CliUtil.ShapeCheck: line 234 reads `cm.with_shapes`, which the `Colormap` of `src/cldfviz/colormap.py` does not define; the model takes the shape flags as given.
- Datum.PyEq: dicts compare entry by entry in order, whereas Python's dict equality ignores order and compares values with `==`; the filters modelled here compare strings, numbers and lists.
- `src/cldfviz/map/mpl.py`, `map/base.py`, `template.py`, `glottolog.py`, `pdutils.py`, `commands/map.py`, `commands/text.py`, `commands/examples.py` and `commands/erd.py` are not part of this model.

## Findings

| source | as written | input that shows it | evidently intended | confidence | as-written member | corrected member |
|---|---|---|---|---|---|---|
| src/cldfviz/commands/treemap.py:243 | `kwargs['filename'] or str(args.output) or args.parameter`. `--output` defaults to `False` (src/cldfviz/cli_util.py:51), and `str(False)` is the non-empty `"False"`. | no `filename` option, no `--output`, parameter `ABC`, format `png`: the map is written to `False.png` | the parameter id names the file when neither is given, as the option help at line 65 says (`ABC.png`) | high, not executed | Treemap.OutputFileAsWrittenIgnoresParameter | Treemap.OutputFileSpec |
| src/cldfviz/text.py:136-143 | in the second pass `render_link` returns every link other than the reference list unchanged. The second pass renders the original document again. | a document with an ordinary link and a reference list whose first pass cites a source: the ordinary link is rendered in the first pass but comes out as raw CLDF Markdown in the final output | ordinary links are rendered by their templates in both passes | medium, not executed | Text.SecondPassDropsRendering | Text.SecondPassKeepsLinks |
