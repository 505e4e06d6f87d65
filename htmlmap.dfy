/**
 * `cldfviz.commands.htmlmap`: a StructureDataset as an HTML/JavaScript map.
 * Values of geo-referenced languages are collected per parameter and value;
 * each parameter's domain is the sorted set of its values; every language gets
 * the tuple of its values (or `None`) across all parameters; the tuples are
 * counted, coloured, drawn as pie icons, listed in a legend and turned into
 * GeoJSON features on a Pacific-centred map.
 *
 * The palette generator and the pie icon drawing are parameters; writing the
 * HTML and JavaScript files and opening a browser are not modelled.
 */
module HtmlMap {
  import opened Common

  /** A ValueTable row: parameter, language and value (`None` for a null value). */
  datatype ValueRow = ValueRow(pid: string, lid: string, value: Option<string>)

  /** A Glottolog languoid with its coordinates (latitude, longitude), if it has any. */
  datatype Languoid = Languoid(id: string, name: string, coords: Option<(real, real)>)

  /** Languages by value by parameter: `values[pid][cid]`. */
  type Values = seq<(string, seq<(string, seq<string>)>)>

  // ---------------------------------------------------------------------
  // Value collection
  // ---------------------------------------------------------------------

  /** A row is collected iff it has a value and its language is a geo-referenced languoid. */
  predicate Collects(row: ValueRow, languoids: map<string, Languoid>)
  {
    row.value.Some? && row.lid in languoids && languoids[row.lid].coords.Some?
  }

  /** `values[pid][cid].append(lid)` */
  function AddValue(values: Values, pid: string, cid: string, lid: string): Values
  {
    Put(values, pid, AppendAt(Get(values, pid).GetOr([]), cid, lid))
  }

  /** The collected values after the given rows. */
  function Collected(rows: seq<ValueRow>, languoids: map<string, Languoid>): Values
  {
    if rows == [] then []
    else
      var acc := Collected(rows[..|rows| - 1], languoids);
      var row := rows[|rows| - 1];
      if Collects(row, languoids) then AddValue(acc, row.pid, row.value.value, row.lid) else acc
  }

  /** The languages of the collected rows with this parameter and value, in row order. */
  function LangsOf(rows: seq<ValueRow>, languoids: map<string, Languoid>, pid: string, cid: string): seq<string>
  {
    if rows == [] then []
    else
      var row := rows[|rows| - 1];
      LangsOf(rows[..|rows| - 1], languoids, pid, cid) +
        (if Collects(row, languoids) && row.pid == pid && row.value == Some(cid) then [row.lid] else [])
  }

  /** Lines 43-52: collecting the ValueTable. */
  method CollectValues(rows: seq<ValueRow>, languoids: map<string, Languoid>) returns (values: Values)
    ensures values == Collected(rows, languoids)
  {
    values := [];
    for i := 0 to |rows|
      invariant values == Collected(rows[..i], languoids)
    {
      assert rows[..i + 1][..i] == rows[..i];
      var row := rows[i];
      if row.value.None? {
        continue;
      }
      if row.lid in languoids && languoids[row.lid].coords.Some? {
        values := AddValue(values, row.pid, row.value.value, row.lid);
      }
    }
    assert rows[..|rows|] == rows;
  }

  lemma AddValueGet(values: Values, pid: string, cid: string, lid: string, pid': string, cid': string)
    ensures Get(Get(AddValue(values, pid, cid, lid), pid').GetOr([]), cid').GetOr([]) ==
      Get(Get(values, pid').GetOr([]), cid').GetOr([]) + (if pid' == pid && cid' == cid then [lid] else [])
    ensures Get(AddValue(values, pid, cid, lid), pid').Some? <==> Get(values, pid').Some? || pid' == pid
  {
    var inner := Get(values, pid).GetOr([]);
    PutGet(values, pid, AppendAt(inner, cid, lid), pid');
    AppendAtGet(inner, cid, lid, cid');
  }

  /** Each parameter and value holds exactly the languages of the collected
      rows with that parameter and value, in row order; a parameter is present
      iff some row of it is collected. */
  lemma CollectedSpec(rows: seq<ValueRow>, languoids: map<string, Languoid>, pid: string, cid: string)
    ensures Get(Get(Collected(rows, languoids), pid).GetOr([]), cid).GetOr([]) == LangsOf(rows, languoids, pid, cid)
    ensures Get(Collected(rows, languoids), pid).Some? <==>
      exists i :: 0 <= i < |rows| && rows[i].pid == pid && Collects(rows[i], languoids)
  {
    CollectedLangs(rows, languoids, pid, cid);
    CollectedHas(rows, languoids, pid);
  }

  lemma {:induction false} CollectedLangs(rows: seq<ValueRow>, languoids: map<string, Languoid>, pid: string, cid: string)
    ensures Get(Get(Collected(rows, languoids), pid).GetOr([]), cid).GetOr([]) == LangsOf(rows, languoids, pid, cid)
  {
    if rows != [] {
      var init := rows[..|rows| - 1];
      var row := rows[|rows| - 1];
      CollectedLangs(init, languoids, pid, cid);
      if Collects(row, languoids) {
        AddValueGet(Collected(init, languoids), row.pid, row.value.value, row.lid, pid, cid);
      }
    }
  }

  lemma {:induction false} CollectedHas(rows: seq<ValueRow>, languoids: map<string, Languoid>, pid: string)
    ensures Get(Collected(rows, languoids), pid).Some? <==>
      exists i :: 0 <= i < |rows| && rows[i].pid == pid && Collects(rows[i], languoids)
  {
    if rows != [] {
      var init := rows[..|rows| - 1];
      var row := rows[|rows| - 1];
      CollectedHas(init, languoids, pid);
      assert forall i :: 0 <= i < |init| ==> init[i] == rows[i];
      if Collects(row, languoids) {
        AddValueGet(Collected(init, languoids), row.pid, row.value.value, row.lid, pid, "");
      }
      if exists i :: 0 <= i < |init| && init[i].pid == pid && Collects(init[i], languoids) {
        var i :| 0 <= i < |init| && init[i].pid == pid && Collects(init[i], languoids);
        assert rows[i] == init[i];
      }
    }
  }

  // ---------------------------------------------------------------------
  // Domains
  // ---------------------------------------------------------------------

  /** `sorted([cid for cid in vals if cid])`: the non-empty values, sorted. */
  function Domain(vals: seq<(string, seq<string>)>): (r: seq<string>)
    ensures StrictlySorted(r)
    ensures forall c :: c in r <==> c in Keys(vals) && c != ""
  {
    var cids := FilterSeq(Keys(vals), (c: string) => c != "");
    SortedDistinctSorted(cids);
    SortedDistinct(cids)
  }

  /** Lines 54-57: the parameters in id order, each with its domain. */
  function Domains(values: Values): (r: seq<(string, seq<string>)>)
    ensures StrictlySorted(Keys(r))
    ensures forall pid :: pid in Keys(r) <==> pid in Keys(values)
    ensures forall k :: 0 <= k < |r| ==> r[k].1 == Domain(Get(values, r[k].0).GetOr([]))
  {
    var pids := SortedDistinct(Keys(values));
    SortedDistinctSorted(Keys(values));
    var r := seq(|pids|, k requires 0 <= k < |pids| => (pids[k], Domain(Get(values, pids[k]).GetOr([]))));
    assert Keys(r) == pids;
    r
  }

  // ---------------------------------------------------------------------
  // Values by language
  // ---------------------------------------------------------------------

  /** Values by parameter by language: `values_by_lang[lang][pid]`. */
  type ByLang = seq<(string, seq<(string, string)>)>

  /** `values_by_lang[lang][pid] = cid` */
  function Set2(acc: ByLang, lang: string, pid: string, cid: string): ByLang
  {
    Put(acc, lang, Put(Get(acc, lang).GetOr([]), pid, cid))
  }

  /** `values_by_lang[lang].get(pid)` */
  function Get2(acc: ByLang, lang: string, pid: string): Option<string>
  {
    Get(Get(acc, lang).GetOr([]), pid)
  }

  function AddLangs(acc: ByLang, pid: string, cid: string, langs: seq<string>): ByLang
    decreases |langs|
  {
    if langs == [] then acc else AddLangs(Set2(acc, langs[0], pid, cid), pid, cid, langs[1..])
  }

  function AddCids(acc: ByLang, pid: string, vals: seq<(string, seq<string>)>): ByLang
    decreases |vals|
  {
    if vals == [] then acc else AddCids(AddLangs(acc, pid, vals[0].0, vals[0].1), pid, vals[1..])
  }

  function AddPids(acc: ByLang, values: Values): ByLang
    decreases |values|
  {
    if values == [] then acc else AddPids(AddCids(acc, values[0].0, values[0].1), values[1..])
  }

  /** Lines 59-63: every language with the value recorded for it per parameter. */
  method ValuesByLang(values: Values) returns (byLang: ByLang)
    ensures byLang == AddPids([], values)
  {
    byLang := [];
    for i := 0 to |values|
      invariant AddPids(byLang, values[i..]) == AddPids([], values)
    {
      assert values[i..][1..] == values[i + 1..];
      var (pid, vals) := values[i];
      ghost var before := byLang;
      for j := 0 to |vals|
        invariant AddCids(byLang, pid, vals[j..]) == AddCids(before, pid, vals)
      {
        assert vals[j..][1..] == vals[j + 1..];
        var (cid, langs) := vals[j];
        ghost var start := byLang;
        for k := 0 to |langs|
          invariant AddLangs(byLang, pid, cid, langs[k..]) == AddLangs(start, pid, cid, langs)
        {
          assert langs[k..][1..] == langs[k + 1..];
          byLang := Set2(byLang, langs[k], pid, cid);
        }
      }
    }
  }

  lemma Set2Get(acc: ByLang, lang: string, pid: string, cid: string, lang': string, pid': string)
    ensures Get2(Set2(acc, lang, pid, cid), lang', pid') == if lang' == lang && pid' == pid then Some(cid) else Get2(acc, lang', pid')
    ensures Get(Set2(acc, lang, pid, cid), lang').Some? <==> lang' == lang || Get(acc, lang').Some?
  {
    var inner := Get(acc, lang).GetOr([]);
    PutGet(acc, lang, Put(inner, pid, cid), lang');
    PutGet(inner, pid, cid, pid');
  }

  lemma {:induction false} AddLangsGet(acc: ByLang, pid: string, cid: string, langs: seq<string>, lang': string, pid': string)
    ensures Get2(AddLangs(acc, pid, cid, langs), lang', pid') == if pid' == pid && lang' in langs then Some(cid) else Get2(acc, lang', pid')
    ensures Get(AddLangs(acc, pid, cid, langs), lang').Some? <==> lang' in langs || Get(acc, lang').Some?
    decreases |langs|
  {
    if langs != [] {
      Set2Get(acc, langs[0], pid, cid, lang', pid');
      AddLangsGet(Set2(acc, langs[0], pid, cid), pid, cid, langs[1..], lang', pid');
      assert langs == [langs[0]] + langs[1..];
    }
  }

  /** `lang` is listed under the `j`-th value. */
  predicate Listed(vals: seq<(string, seq<string>)>, lang: string, j: int)
  {
    0 <= j < |vals| && lang in vals[j].1
  }

  /** The `j`-th value is the last one `lang` is listed under. */
  predicate LastListed(vals: seq<(string, seq<string>)>, lang: string, j: int)
  {
    Listed(vals, lang, j) && forall j' :: j < j' < |vals| ==> !Listed(vals, lang, j')
  }

  lemma {:induction false} AddCidsUnlisted(acc: ByLang, pid: string, vals: seq<(string, seq<string>)>, lang': string, pid': string)
    requires pid' != pid || forall j :: !Listed(vals, lang', j)
    ensures Get2(AddCids(acc, pid, vals), lang', pid') == Get2(acc, lang', pid')
    decreases |vals|
  {
    if vals != [] {
      var acc' := AddLangs(acc, pid, vals[0].0, vals[0].1);
      AddLangsGet(acc, pid, vals[0].0, vals[0].1, lang', pid');
      if pid' == pid {
        assert !Listed(vals, lang', 0);
        forall j ensures !Listed(vals[1..], lang', j) {
          assert !Listed(vals, lang', j + 1);
        }
      }
      AddCidsUnlisted(acc', pid, vals[1..], lang', pid');
    }
  }

  lemma {:induction false} AddCidsListed(acc: ByLang, pid: string, vals: seq<(string, seq<string>)>, lang': string)
    requires exists j :: Listed(vals, lang', j)
    ensures exists j :: LastListed(vals, lang', j) && Get2(AddCids(acc, pid, vals), lang', pid) == Some(vals[j].0)
    decreases |vals|
  {
    var acc' := AddLangs(acc, pid, vals[0].0, vals[0].1);
    var rest := vals[1..];
    AddLangsGet(acc, pid, vals[0].0, vals[0].1, lang', pid);
    var j0 :| Listed(vals, lang', j0);
    if j0 > 0 {
      assert Listed(rest, lang', j0 - 1);
    }
    if exists j :: Listed(rest, lang', j) {
      AddCidsListed(acc', pid, rest, lang');
      var j :| LastListed(rest, lang', j) && Get2(AddCids(acc', pid, rest), lang', pid) == Some(rest[j].0);
      forall j' | j + 1 < j' < |vals| ensures !Listed(vals, lang', j') {
        assert !Listed(rest, lang', j' - 1);
      }
      assert LastListed(vals, lang', j + 1) && Get2(AddCids(acc, pid, vals), lang', pid) == Some(vals[j + 1].0);
    } else {
      AddCidsUnlisted(acc', pid, rest, lang', pid);
      forall j' | 0 < j' < |vals| ensures !Listed(vals, lang', j') {
        assert !Listed(rest, lang', j' - 1);
      }
      assert LastListed(vals, lang', 0) && Get2(AddCids(acc, pid, vals), lang', pid) == Some(vals[0].0);
    }
  }

  lemma {:induction false} AddCidsLangs(acc: ByLang, pid: string, vals: seq<(string, seq<string>)>, lang': string)
    ensures Get(AddCids(acc, pid, vals), lang').Some? <==> Get(acc, lang').Some? || exists j :: Listed(vals, lang', j)
    decreases |vals|
  {
    if vals != [] {
      var acc' := AddLangs(acc, pid, vals[0].0, vals[0].1);
      var rest := vals[1..];
      AddLangsGet(acc, pid, vals[0].0, vals[0].1, lang', pid);
      AddCidsLangs(acc', pid, rest, lang');
      assert AddCids(acc, pid, vals) == AddCids(acc', pid, rest);
      assert Listed(vals, lang', 0) <==> lang' in vals[0].1;
      if exists j :: Listed(vals, lang', j) {
        var j :| Listed(vals, lang', j);
        if j > 0 {
          assert Listed(rest, lang', j - 1);
        }
      }
      if exists j :: Listed(rest, lang', j) {
        var j :| Listed(rest, lang', j);
        assert Listed(vals, lang', j + 1);
      }
    }
  }

  lemma AddCidsGet(acc: ByLang, pid: string, vals: seq<(string, seq<string>)>, lang': string, pid': string)
    ensures pid' != pid || (forall j :: !Listed(vals, lang', j)) ==>
      Get2(AddCids(acc, pid, vals), lang', pid') == Get2(acc, lang', pid')
    ensures pid' == pid && (exists j :: Listed(vals, lang', j)) ==>
      exists j :: LastListed(vals, lang', j) && Get2(AddCids(acc, pid, vals), lang', pid') == Some(vals[j].0)
    ensures Get(AddCids(acc, pid, vals), lang').Some? <==> Get(acc, lang').Some? || exists j :: Listed(vals, lang', j)
  {
    if pid' != pid || forall j :: !Listed(vals, lang', j) {
      AddCidsUnlisted(acc, pid, vals, lang', pid');
    } else {
      AddCidsListed(acc, pid, vals, lang');
    }
    AddCidsLangs(acc, pid, vals, lang');
  }

  /** `lang` is listed under the `j`-th value of parameter `pid` (the `i`-th). */
  predicate Occurs(values: Values, i: int, j: int, lang: string, pid: string)
  {
    0 <= i < |values| && values[i].0 == pid && Listed(values[i].1, lang, j)
  }

  /** The `j`-th value of the `i`-th parameter is the last occurrence of
      `lang` under parameter `pid`, in the order of the loops. */
  ghost predicate LastOccurs(values: Values, i: int, j: int, lang: string, pid: string)
  {
    Occurs(values, i, j, lang, pid) &&
    forall i', j' :: Occurs(values, i', j', lang, pid) ==> i' < i || (i' == i && j' <= j)
  }

  lemma AddPidsGet(acc: ByLang, values: Values, lang: string, pid: string)
    ensures (forall i, j :: !Occurs(values, i, j, lang, pid)) ==> Get2(AddPids(acc, values), lang, pid) == Get2(acc, lang, pid)
    ensures (exists i, j :: Occurs(values, i, j, lang, pid)) ==>
      exists i, j :: LastOccurs(values, i, j, lang, pid) && Get2(AddPids(acc, values), lang, pid) == Some(values[i].1[j].0)
    ensures Get(AddPids(acc, values), lang).Some? <==>
      Get(acc, lang).Some? || exists i, j :: 0 <= i < |values| && Listed(values[i].1, lang, j)
  {
    if forall i, j :: !Occurs(values, i, j, lang, pid) {
      AddPidsUnlisted(acc, values, lang, pid);
    } else {
      AddPidsListed(acc, values, lang, pid);
    }
    AddPidsLangs(acc, values, lang);
  }

  lemma {:induction false} AddPidsUnlisted(acc: ByLang, values: Values, lang: string, pid: string)
    requires forall i, j :: !Occurs(values, i, j, lang, pid)
    ensures Get2(AddPids(acc, values), lang, pid) == Get2(acc, lang, pid)
    decreases |values|
  {
    if values != [] {
      var acc' := AddCids(acc, values[0].0, values[0].1);
      var rest := values[1..];
      forall i, j ensures !Occurs(rest, i, j, lang, pid) {
        assert !Occurs(values, i + 1, j, lang, pid);
      }
      AddPidsUnlisted(acc', rest, lang, pid);
      forall j ensures !Listed(values[0].1, lang, j) || values[0].0 != pid {
        assert !Occurs(values, 0, j, lang, pid);
      }
      AddCidsGet(acc, values[0].0, values[0].1, lang, pid);
    }
  }

  lemma {:induction false} AddPidsListed(acc: ByLang, values: Values, lang: string, pid: string)
    requires exists i, j :: Occurs(values, i, j, lang, pid)
    ensures exists i, j :: LastOccurs(values, i, j, lang, pid) && Get2(AddPids(acc, values), lang, pid) == Some(values[i].1[j].0)
    decreases |values|
  {
    var acc' := AddCids(acc, values[0].0, values[0].1);
    var rest := values[1..];
    if exists i, j :: Occurs(rest, i, j, lang, pid) {
      AddPidsListed(acc', rest, lang, pid);
      var i, j :| LastOccurs(rest, i, j, lang, pid) && Get2(AddPids(acc', rest), lang, pid) == Some(rest[i].1[j].0);
      forall i', j' | Occurs(values, i', j', lang, pid) ensures i' < i + 1 || (i' == i + 1 && j' <= j) {
        if i' > 0 {
          assert Occurs(rest, i' - 1, j', lang, pid);
        }
      }
      assert LastOccurs(values, i + 1, j, lang, pid);
    } else {
      AddPidsUnlisted(acc', rest, lang, pid);
      var i, j :| Occurs(values, i, j, lang, pid);
      assert i == 0 || Occurs(rest, i - 1, j, lang, pid);
      AddCidsGet(acc, values[0].0, values[0].1, lang, pid);
      var j' :| LastListed(values[0].1, lang, j') && Get2(acc', lang, pid) == Some(values[0].1[j'].0);
      forall i'', j'' | Occurs(values, i'', j'', lang, pid) ensures i'' == 0 && j'' <= j' {
        assert i'' == 0 || Occurs(rest, i'' - 1, j'', lang, pid);
      }
      assert LastOccurs(values, 0, j', lang, pid);
    }
  }

  lemma {:induction false} AddPidsLangs(acc: ByLang, values: Values, lang: string)
    ensures Get(AddPids(acc, values), lang).Some? <==>
      Get(acc, lang).Some? || exists i, j :: 0 <= i < |values| && Listed(values[i].1, lang, j)
    decreases |values|
  {
    if values != [] {
      var acc' := AddCids(acc, values[0].0, values[0].1);
      var rest := values[1..];
      AddCidsGet(acc, values[0].0, values[0].1, lang, values[0].0);
      AddPidsLangs(acc', rest, lang);
      if exists i, j :: 0 <= i < |values| && Listed(values[i].1, lang, j) {
        var i, j :| 0 <= i < |values| && Listed(values[i].1, lang, j);
        if i > 0 {
          assert 0 <= i - 1 < |rest| && Listed(rest[i - 1].1, lang, j);
        }
      }
      if exists i, j :: 0 <= i < |rest| && Listed(rest[i].1, lang, j) {
        var i, j :| 0 <= i < |rest| && Listed(rest[i].1, lang, j);
        assert Listed(values[i + 1].1, lang, j);
      }
    }
  }

  /** A language has a value for a parameter iff it is listed under one of the
      parameter's values, and the value recorded is the last one it is listed
      under; the languages are exactly those listed somewhere. */
  lemma ValuesByLangSpec(values: Values, lang: string, pid: string)
    ensures Get2(AddPids([], values), lang, pid).Some? <==> exists i, j :: Occurs(values, i, j, lang, pid)
    ensures Get2(AddPids([], values), lang, pid).Some? ==>
      exists i, j :: LastOccurs(values, i, j, lang, pid) && values[i].1[j].0 == Get2(AddPids([], values), lang, pid).value
    ensures Get(AddPids([], values), lang).Some? <==> exists i, j :: 0 <= i < |values| && Listed(values[i].1, lang, j)
  {
    AddPidsGet([], values, lang, pid);
  }

  // ---------------------------------------------------------------------
  // Value tuples and their counts
  // ---------------------------------------------------------------------

  /** A language's value tuple: one `(pid, value or None)` entry per parameter. */
  type Spec = seq<(string, Option<string>)>

  /** Lines 68-70: a language's values in domain order, `None` where it has none. */
  function SpecOf(vals: seq<(string, string)>, domains: seq<(string, seq<string>)>): Spec
  {
    seq(|domains|, k requires 0 <= k < |domains| => (domains[k].0, Get(vals, domains[k].0)))
  }

  /** `counter.update([t])` */
  function Inc<T(==)>(counts: seq<(T, nat)>, t: T): seq<(T, nat)>
  {
    Put(counts, t, Get(counts, t).GetOr(0) + 1)
  }

  /** The combinations counter after the given languages. */
  function Counted(specs: seq<(string, Spec)>): seq<(Spec, nat)>
  {
    if specs == [] then [] else Inc(Counted(specs[..|specs| - 1]), specs[|specs| - 1].1)
  }

  /** The sum of a counter's counts. */
  function Total<T>(counts: seq<(T, nat)>): nat
  {
    if counts == [] then 0 else counts[0].1 + Total(counts[1..])
  }

  /** How many of the languages have the tuple `t`. */
  function Occurrences(specs: seq<(string, Spec)>, t: Spec): nat
  {
    if specs == [] then 0
    else Occurrences(specs[..|specs| - 1], t) + (if specs[|specs| - 1].1 == t then 1 else 0)
  }

  /** Lines 65-73: every language's values become its tuple, and the tuples are
      counted. */
  /** Every language with its value tuple, in language order. */
  function Tuples(byLang: ByLang, domains: seq<(string, seq<string>)>): seq<(string, Spec)>
  {
    seq(|byLang|, i requires 0 <= i < |byLang| => (byLang[i].0, SpecOf(byLang[i].1, domains)))
  }

  method Normalize(byLang: ByLang, domains: seq<(string, seq<string>)>)
      returns (specs: seq<(string, Spec)>, counts: seq<(Spec, nat)>)
    ensures specs == Tuples(byLang, domains)
    ensures Keys(specs) == Keys(byLang)
    ensures forall i :: 0 <= i < |specs| ==> specs[i].1 == SpecOf(byLang[i].1, domains)
    ensures counts == Counted(specs)
  {
    specs, counts := [], [];
    for i := 0 to |byLang|
      invariant |specs| == i
      invariant forall m :: 0 <= m < i ==> specs[m] == (byLang[m].0, SpecOf(byLang[m].1, domains))
      invariant counts == Counted(specs)
    {
      var vals := byLang[i].1;
      var spec: Spec := [];
      for k := 0 to |domains|
        invariant |spec| == k
        invariant forall m :: 0 <= m < k ==> spec[m] == (domains[m].0, Get(vals, domains[m].0))
      {
        spec := spec + [(domains[k].0, Get(vals, domains[k].0))];
      }
      assert spec == SpecOf(vals, domains);
      var prev := specs;
      specs := prev + [(byLang[i].0, spec)];
      assert specs[..|specs| - 1] == prev;
      counts := Inc(counts, spec);
    }
  }

  lemma {:induction false} TotalInc<T>(counts: seq<(T, nat)>, t: T)
    ensures Total(Inc(counts, t)) == Total(counts) + 1
    decreases |counts|
  {
    if counts != [] && counts[0].0 != t {
      TotalInc(counts[1..], t);
      assert Keys(counts) == [counts[0].0] + Keys(counts[1..]);
      assert Get(counts, t) == Get(counts[1..], t);
      assert Inc(counts, t) == [counts[0]] + Inc(counts[1..], t);
    }
  }

  /** The counts add up to the number of languages, and each tuple's count is
      the number of languages having it. */
  lemma {:induction false} CountedSpec(specs: seq<(string, Spec)>, t: Spec)
    ensures Total(Counted(specs)) == |specs|
    ensures Get(Counted(specs), t).GetOr(0) == Occurrences(specs, t)
  {
    if specs != [] {
      var init := specs[..|specs| - 1];
      var last := specs[|specs| - 1].1;
      CountedSpec(init, t);
      TotalInc(Counted(init), last);
      PutGet(Counted(init), last, Get(Counted(init), last).GetOr(0) + 1, t);
    }
  }

  // ---------------------------------------------------------------------
  // Colours
  // ---------------------------------------------------------------------

  /** Colours by `(pid, value)`, where a value of `None` means "no value". */
  type Colouring = map<(string, Option<string>), string>

  /** Line 79: `qualitative_colors(n, set='tol' if n <= 12 else None)`, with the
      palette generator as a parameter. */
  function Palette(n: nat, qualitative: (nat, Option<string>) -> seq<string>): seq<string>
  {
    qualitative(n, if n <= 12 then Some("tol") else None)
  }

  /** `colors[(pid, d)] = c` for each pair in turn. */
  function AddColors(colors: Colouring, pid: string, pairs: seq<(string, string)>): Colouring
  {
    if pairs == [] then colors
    else AddColors(colors, pid, pairs[..|pairs| - 1])[(pid, Some(pairs[|pairs| - 1].0)) := pairs[|pairs| - 1].1]
  }

  /** The colour table after the given parameters. */
  function ColorTable(domains: seq<(string, seq<string>)>, qualitative: (nat, Option<string>) -> seq<string>): Colouring
  {
    if domains == [] then map[]
    else
      var pid := domains[|domains| - 1].0;
      var domain := domains[|domains| - 1].1;
      AddColors(ColorTable(domains[..|domains| - 1], qualitative), pid, Zip(domain, Palette(|domain|, qualitative)))[(pid, None) := "#fff"]
  }

  /** Lines 75-82: each domain value gets the next palette colour (as far as the
      palette goes) and "no value" is white. */
  method AssignColors(domains: seq<(string, seq<string>)>, qualitative: (nat, Option<string>) -> seq<string>)
      returns (colors: Colouring)
    ensures colors == ColorTable(domains, qualitative)
  {
    colors := map[];
    for i := 0 to |domains|
      invariant colors == ColorTable(domains[..i], qualitative)
    {
      assert domains[..i + 1][..i] == domains[..i];
      var pid := domains[i].0;
      var domain := domains[i].1;
      var pairs := Zip(domain, Palette(|domain|, qualitative));
      for j := 0 to |pairs|
        invariant colors == AddColors(ColorTable(domains[..i], qualitative), pid, pairs[..j])
      {
        assert pairs[..j + 1][..j] == pairs[..j];
        colors := colors[(pid, Some(pairs[j].0)) := pairs[j].1];
      }
      assert pairs[..|pairs|] == pairs;
      colors := colors[(pid, None) := "#fff"];
    }
    assert domains[..|domains|] == domains;
  }

  lemma {:induction false} AddColorsSpec(colors: Colouring, pid: string, pairs: seq<(string, string)>, key: (string, Option<string>))
    ensures key in AddColors(colors, pid, pairs) <==>
      key in colors || (key.0 == pid && key.1.Some? && key.1.value in Keys(pairs))
    ensures key in colors && (key.0 != pid || key.1.None?) ==> AddColors(colors, pid, pairs)[key] == colors[key]
    ensures key.0 == pid && key.1.Some? && key.1.value in Keys(pairs) ==>
      AddColors(colors, pid, pairs)[key] == LastValue(pairs, key.1.value).value
  {
    if pairs != [] {
      var init := pairs[..|pairs| - 1];
      AddColorsSpec(colors, pid, init, key);
      assert Keys(pairs) == Keys(init) + [pairs[|pairs| - 1].0];
    }
  }

  /** The parameters are strictly sorted by id and each domain is strictly sorted. */
  ghost predicate WellFormed(domains: seq<(string, seq<string>)>)
  {
    StrictlySorted(Keys(domains)) && forall k :: 0 <= k < |domains| ==> StrictlySorted(domains[k].1)
  }

  lemma PairsDistinct(domain: seq<string>, palette: seq<string>)
    requires StrictlySorted(domain)
    ensures DistinctKeys(Zip(domain, palette))
  {
    forall i, j | 0 <= i < j < |Zip(domain, palette)|
      ensures Zip(domain, palette)[i].0 != Zip(domain, palette)[j].0
    {
      StrictlySortedDistinct(domain, i, j);
    }
  }

  /** The colours of the last parameter: "no value" is white and the j-th domain
      value has the j-th palette colour. */
  lemma ColorTableLast(domains: seq<(string, seq<string>)>, qualitative: (nat, Option<string>) -> seq<string>, j: int)
    requires WellFormed(domains) && domains != []
    ensures (domains[|domains| - 1].0, None) in ColorTable(domains, qualitative)
    ensures ColorTable(domains, qualitative)[(domains[|domains| - 1].0, None)] == "#fff"
    ensures 0 <= j < |domains[|domains| - 1].1| && j < |Palette(|domains[|domains| - 1].1|, qualitative)| ==>
      (domains[|domains| - 1].0, Some(domains[|domains| - 1].1[j])) in ColorTable(domains, qualitative) &&
      ColorTable(domains, qualitative)[(domains[|domains| - 1].0, Some(domains[|domains| - 1].1[j]))] ==
        Palette(|domains[|domains| - 1].1|, qualitative)[j]
  {
    var pid := domains[|domains| - 1].0;
    var domain := domains[|domains| - 1].1;
    var pal := Palette(|domain|, qualitative);
    var pairs := Zip(domain, pal);
    var prev := ColorTable(domains[..|domains| - 1], qualitative);
    if 0 <= j < |domain| && j < |pal| {
      PairsDistinct(domain, pal);
      assert Keys(pairs)[j] == domain[j];
      AddColorsSpec(prev, pid, pairs, (pid, Some(domain[j])));
      LastValueDistinct(pairs, domain[j]);
      GetAt(pairs, j);
    }
  }

  /** Earlier parameters keep their colours when a parameter with a different
      id is added. */
  lemma ColorTableFrame(domains: seq<(string, seq<string>)>, qualitative: (nat, Option<string>) -> seq<string>, key: (string, Option<string>))
    requires domains != [] && key.0 != domains[|domains| - 1].0
    requires key in ColorTable(domains[..|domains| - 1], qualitative)
    ensures key in ColorTable(domains, qualitative)
    ensures ColorTable(domains, qualitative)[key] == ColorTable(domains[..|domains| - 1], qualitative)[key]
  {
    var pid := domains[|domains| - 1].0;
    var domain := domains[|domains| - 1].1;
    AddColorsSpec(ColorTable(domains[..|domains| - 1], qualitative), pid, Zip(domain, Palette(|domain|, qualitative)), key);
  }

  /** For every parameter, "no value" is white and the j-th value of its domain
      has the j-th colour of its palette, for as many values as the palette has
      colours. */
  lemma {:induction false} ColorTableSpec(domains: seq<(string, seq<string>)>, qualitative: (nat, Option<string>) -> seq<string>, k: int, j: int)
    requires WellFormed(domains) && 0 <= k < |domains|
    ensures (domains[k].0, None) in ColorTable(domains, qualitative)
    ensures ColorTable(domains, qualitative)[(domains[k].0, None)] == "#fff"
    ensures 0 <= j < |domains[k].1| && j < |Palette(|domains[k].1|, qualitative)| ==>
      (domains[k].0, Some(domains[k].1[j])) in ColorTable(domains, qualitative) &&
      ColorTable(domains, qualitative)[(domains[k].0, Some(domains[k].1[j]))] == Palette(|domains[k].1|, qualitative)[j]
    decreases |domains|
  {
    var n := |domains| - 1;
    if k == n {
      ColorTableLast(domains, qualitative, j);
    } else {
      var init := domains[..n];
      assert Keys(init) == Keys(domains)[..n];
      assert WellFormed(init);
      ColorTableSpec(init, qualitative, k, j);
      assert Keys(domains)[k] == domains[k].0 && Keys(domains)[n] == domains[n].0;
      StrictlySortedDistinct(Keys(domains), k, n);
      ColorTableFrame(domains, qualitative, (domains[k].0, None));
      if 0 <= j < |domains[k].1| && j < |Palette(|domains[k].1|, qualitative)| {
        ColorTableFrame(domains, qualitative, (domains[k].0, Some(domains[k].1[j])));
      }
    }
  }

  // ---------------------------------------------------------------------
  // Icons for all combinations
  // ---------------------------------------------------------------------

  /** Line 87: the choices for one parameter, each domain value and then `None`. */
  function Options(pid: string, domain: seq<string>): seq<(string, Option<string>)>
  {
    seq(|domain| + 1, m requires 0 <= m <= |domain| => (pid, if m < |domain| then Some(domain[m]) else None))
  }

  /** Each choice put in front of each tuple. */
  function Extend(opts: seq<(string, Option<string>)>, ts: seq<Spec>): seq<Spec>
  {
    if opts == [] then []
    else seq(|ts|, i requires 0 <= i < |ts| => [opts[0]] + ts[i]) + Extend(opts[1..], ts)
  }

  /** `itertools.product` over the parameters' choices. */
  function Product(domains: seq<(string, seq<string>)>): seq<Spec>
  {
    if domains == [] then [[]]
    else Extend(Options(domains[0].0, domains[0].1), Product(domains[1..]))
  }

  /** A tuple of the product: one entry per parameter, in parameter order, each
      a value of its domain or `None`. */
  predicate InProduct(domains: seq<(string, seq<string>)>, t: Spec)
  {
    |t| == |domains| &&
    forall k :: 0 <= k < |t| ==> t[k].0 == domains[k].0 && (t[k].1.None? || t[k].1.value in domains[k].1)
  }

  lemma OptionsSpec(pid: string, domain: seq<string>, o: (string, Option<string>))
    ensures o in Options(pid, domain) <==> o.0 == pid && (o.1.None? || o.1.value in domain)
  {
    var opts := Options(pid, domain);
    if o.0 == pid && o.1.None? {
      assert opts[|domain|] == o;
    } else if o.0 == pid && o.1.Some? && o.1.value in domain {
      var m :| 0 <= m < |domain| && domain[m] == o.1.value;
      assert opts[m] == o;
    }
  }

  lemma {:induction false} ExtendSpec(opts: seq<(string, Option<string>)>, ts: seq<Spec>, t: Spec)
    ensures t in Extend(opts, ts) <==> |t| >= 1 && t[0] in opts && t[1..] in ts
  {
    if opts != [] {
      var front := seq(|ts|, i requires 0 <= i < |ts| => [opts[0]] + ts[i]);
      ExtendSpec(opts[1..], ts, t);
      if t in front {
        var i :| 0 <= i < |ts| && front[i] == t;
        assert t[1..] == ts[i];
      }
      if |t| >= 1 && t[0] == opts[0] && t[1..] in ts {
        var i :| 0 <= i < |ts| && ts[i] == t[1..];
        assert front[i] == t;
      }
      if |t| >= 1 {
        assert t[0] in opts <==> t[0] == opts[0] || t[0] in opts[1..] by {
          assert opts == [opts[0]] + opts[1..];
        }
      }
    }
  }

  /** The product holds exactly the tuples with one choice per parameter. */
  lemma {:induction false} ProductSpec(domains: seq<(string, seq<string>)>, t: Spec)
    ensures t in Product(domains) <==> InProduct(domains, t)
    decreases |domains|
  {
    if domains != [] {
      var rest := domains[1..];
      ExtendSpec(Options(domains[0].0, domains[0].1), Product(rest), t);
      if |t| >= 1 {
        ProductSpec(rest, t[1..]);
        OptionsSpec(domains[0].0, domains[0].1, t[0]);
        if InProduct(rest, t[1..]) && t[0] in Options(domains[0].0, domains[0].1) {
          forall k | 0 <= k < |t|
            ensures t[k].0 == domains[k].0 && (t[k].1.None? || t[k].1.value in domains[k].1)
          {
            if k > 0 {
              assert t[1..][k - 1] == t[k];
            }
          }
        }
        if InProduct(domains, t) {
          assert InProduct(rest, t[1..]) by {
            forall k | 0 <= k < |t[1..]|
              ensures t[1..][k].0 == rest[k].0 && (t[1..][k].1.None? || t[1..][k].1.value in rest[k].1)
            {
              assert t[1..][k] == t[k + 1];
            }
          }
        }
      }
    }
  }

  /** Every entry of the tuple has a colour. */
  predicate Colored(t: Spec, colors: Colouring)
  {
    forall k :: 0 <= k < |t| ==> t[k] in colors
  }

  /** Line 85: the tuple's colours, one per parameter. */
  function IconColors(t: Spec, colors: Colouring): seq<string>
    requires Colored(t, colors)
  {
    seq(|t|, k requires 0 <= k < |t| => colors[t[k]])
  }

  /** Lines 83-87: an icon for every tuple of the product, drawn by `pie` from
      its colours (one equal slice each); a `KeyError` when an entry has no
      colour. */
  function Icons(domains: seq<(string, seq<string>)>, colors: Colouring, pie: seq<string> -> string): Result<map<Spec, string>>
  {
    var ts := Product(domains);
    if forall t :: t in ts ==> Colored(t, colors) then
      Ok(map t | t in ts :: pie(IconColors(t, colors)))
    else Err("KeyError")
  }

  /** The icons exist iff every tuple of the product can be coloured; they are
      keyed by exactly the product's tuples, each drawn from its colours. */
  lemma IconsSpec(domains: seq<(string, seq<string>)>, colors: Colouring, pie: seq<string> -> string)
    ensures Icons(domains, colors, pie).Ok? <==> forall t :: InProduct(domains, t) ==> Colored(t, colors)
    ensures Icons(domains, colors, pie).Ok? ==>
      forall t :: t in Icons(domains, colors, pie).value <==> InProduct(domains, t)
    ensures Icons(domains, colors, pie).Ok? ==>
      forall t :: t in Icons(domains, colors, pie).value ==>
        Colored(t, colors) && Icons(domains, colors, pie).value[t] == pie(IconColors(t, colors))
  {
    forall t ensures t in Product(domains) <==> InProduct(domains, t) {
      ProductSpec(domains, t);
    }
  }

  /** With palettes at least as long as the domains, every tuple of the product
      gets an icon. */
  lemma IconsDrawable(domains: seq<(string, seq<string>)>, qualitative: (nat, Option<string>) -> seq<string>, pie: seq<string> -> string)
    requires WellFormed(domains)
    requires forall k :: 0 <= k < |domains| ==> |domains[k].1| <= |Palette(|domains[k].1|, qualitative)|
    ensures Icons(domains, ColorTable(domains, qualitative), pie).Ok?
  {
    var colors := ColorTable(domains, qualitative);
    forall t: Spec | InProduct(domains, t) ensures Colored(t, colors) {
      ProductColored(domains, qualitative, t);
    }
    IconsSpec(domains, colors, pie);
  }

  lemma ProductColored(domains: seq<(string, seq<string>)>, qualitative: (nat, Option<string>) -> seq<string>, t: Spec)
    requires WellFormed(domains)
    requires forall k :: 0 <= k < |domains| ==> |domains[k].1| <= |Palette(|domains[k].1|, qualitative)|
    requires InProduct(domains, t)
    ensures Colored(t, ColorTable(domains, qualitative))
  {
    forall k | 0 <= k < |t| ensures t[k] in ColorTable(domains, qualitative) {
      ComponentColored(domains, qualitative, t, k);
    }
  }

  lemma ComponentColored(domains: seq<(string, seq<string>)>, qualitative: (nat, Option<string>) -> seq<string>, t: Spec, k: nat)
    requires WellFormed(domains)
    requires forall k :: 0 <= k < |domains| ==> |domains[k].1| <= |Palette(|domains[k].1|, qualitative)|
    requires InProduct(domains, t) && k < |t|
    ensures t[k] in ColorTable(domains, qualitative)
  {
    if t[k].1.None? {
      ColorTableSpec(domains, qualitative, k, 0);
    } else {
      var j :| 0 <= j < |domains[k].1| && domains[k].1[j] == t[k].1.value;
      ColorTableSpec(domains, qualitative, k, j);
    }
  }

  // ---------------------------------------------------------------------
  // Legend
  // ---------------------------------------------------------------------

  /** Line 89: every parameter without a value. */
  function EmptySpec(domains: seq<(string, seq<string>)>): Spec
  {
    seq(|domains|, k requires 0 <= k < |domains| => (domains[k].0, None))
  }

  /** Lines 93-94: only parameter `i` has a value, `cid`. */
  function IconSpec(domains: seq<(string, seq<string>)>, i: nat, cid: string): Spec
    requires i < |domains|
  {
    EmptySpec(domains)[i := (domains[i].0, Some(cid))]
  }

  /** The icons include every single-value tuple the legend shows. */
  ghost predicate CoversLegend(domains: seq<(string, seq<string>)>, icons: map<Spec, string>)
  {
    forall i: nat, cid :: i < |domains| && cid in domains[i].1 ==> IconSpec(domains, i, cid) in icons
  }

  function HeaderLine(pid: string): string
  {
    "<tr><th colspan=\"2\">" + pid + "</th></tr>"
  }

  function RowLine(icon: string, cid: string): string
  {
    "<tr><td><img src=\"" + icon + "\"></td><td>" + cid + "</td></tr>"
  }

  /** Lines 91-96: a header for parameter `i`, then a row per value of its
      domain, showing the icon in which only that value is set. */
  function ParamLines(domains: seq<(string, seq<string>)>, icons: map<Spec, string>, i: nat): seq<string>
    requires i < |domains| && CoversLegend(domains, icons)
  {
    var domain := domains[i].1;
    [HeaderLine(domains[i].0)] +
      seq(|domain|, j requires 0 <= j < |domain| => RowLine(icons[IconSpec(domains, i, domain[j])], domain[j]))
  }

  /** The legend lines of the first `n` parameters. */
  function LegendLines(domains: seq<(string, seq<string>)>, icons: map<Spec, string>, n: nat): seq<string>
    requires n <= |domains| && CoversLegend(domains, icons)
  {
    if n == 0 then [] else LegendLines(domains, icons, n - 1) + ParamLines(domains, icons, n - 1)
  }

  lemma ParamLinesAt(domains: seq<(string, seq<string>)>, icons: map<Spec, string>, i: nat, j: nat)
    requires i < |domains| && CoversLegend(domains, icons) && j < |domains[i].1|
    ensures |ParamLines(domains, icons, i)| == |domains[i].1| + 1
    ensures ParamLines(domains, icons, i)[0] == HeaderLine(domains[i].0)
    ensures IconSpec(domains, i, domains[i].1[j]) in icons
    ensures ParamLines(domains, icons, i)[j + 1] == RowLine(icons[IconSpec(domains, i, domains[i].1[j])], domains[i].1[j])
  {
  }

  lemma LegendLinesStep(domains: seq<(string, seq<string>)>, icons: map<Spec, string>, i: nat)
    requires i < |domains| && CoversLegend(domains, icons)
    ensures Concat(LegendLines(domains, icons, i + 1)) ==
      Concat(LegendLines(domains, icons, i)) + Concat(ParamLines(domains, icons, i))
  {
    ConcatAppend(LegendLines(domains, icons, i), ParamLines(domains, icons, i));
  }

  /** The legend text after the first `j` rows of parameter `i`, from `acc`. */
  function RowsSoFar(domains: seq<(string, seq<string>)>, icons: map<Spec, string>, i: nat, acc: string, j: nat): string
    requires i < |domains| && CoversLegend(domains, icons) && j <= |domains[i].1|
  {
    if j == 0 then acc
    else
      var cid := domains[i].1[j - 1];
      RowsSoFar(domains, icons, i, acc, j - 1) + RowLine(icons[IconSpec(domains, i, cid)], cid)
  }

  /** The legend text after the first `n` parameters. */
  function LegendSoFar(domains: seq<(string, seq<string>)>, icons: map<Spec, string>, n: nat): string
    requires n <= |domains| && CoversLegend(domains, icons)
  {
    if n == 0 then "<table>"
    else
      RowsSoFar(domains, icons, n - 1, LegendSoFar(domains, icons, n - 1) + HeaderLine(domains[n - 1].0), |domains[n - 1].1|)
  }

  /** Lines 88-97: the legend table. */
  method Legend(domains: seq<(string, seq<string>)>, icons: map<Spec, string>) returns (legend: string)
    requires CoversLegend(domains, icons)
    ensures legend == LegendSoFar(domains, icons, |domains|) + "</table>"
  {
    legend := "<table>";
    for i := 0 to |domains|
      invariant legend == LegendSoFar(domains, icons, i)
    {
      var pid := domains[i].0;
      var domain := domains[i].1;
      legend := legend + HeaderLine(pid);
      ghost var head := legend;
      for j := 0 to |domain|
        invariant legend == RowsSoFar(domains, icons, i, head, j)
      {
        var cid := domain[j];
        legend := legend + RowLine(icons[IconSpec(domains, i, cid)], cid);
      }
    }
    legend := legend + "</table>";
  }

  lemma {:induction false} RowsSoFarLines(domains: seq<(string, seq<string>)>, icons: map<Spec, string>, i: nat, acc: string, j: nat)
    requires i < |domains| && CoversLegend(domains, icons) && j <= |domains[i].1|
    ensures RowsSoFar(domains, icons, i, acc, j) == acc + Concat(ParamLines(domains, icons, i)[1..j + 1])
  {
    var lines := ParamLines(domains, icons, i);
    if j == 0 {
      assert lines[1..1] == [];
    } else {
      RowsSoFarLines(domains, icons, i, acc, j - 1);
      ParamLinesAt(domains, icons, i, j - 1);
      var prefix, last := lines[1..j], lines[j];
      assert lines[1..j + 1] == prefix + [last];
      ConcatSnoc(prefix, last);
      assert RowsSoFar(domains, icons, i, acc, j) == RowsSoFar(domains, icons, i, acc, j - 1) + last;
      Assoc3(acc, Concat(prefix), last);
    }
  }

  lemma ConcatSnoc(parts: seq<string>, last: string)
    ensures Concat(parts + [last]) == Concat(parts) + last
  {
    assert (parts + [last])[..|parts|] == parts;
  }

  lemma Assoc3(a: string, b: string, c: string)
    ensures (a + b) + c == a + (b + c)
  {
  }

  /** The legend built row by row is the table of the legend lines: one header
      per parameter followed by one row per value of its domain. */
  lemma {:induction false} LegendSoFarLines(domains: seq<(string, seq<string>)>, icons: map<Spec, string>, n: nat)
    requires n <= |domains| && CoversLegend(domains, icons)
    ensures LegendSoFar(domains, icons, n) == "<table>" + Concat(LegendLines(domains, icons, n))
  {
    if n > 0 {
      var i := n - 1;
      var lines := ParamLines(domains, icons, i);
      var m := |domains[i].1|;
      var prev := LegendSoFar(domains, icons, i);
      var header := HeaderLine(domains[i].0);
      var rows := Concat(lines[1..m + 1]);
      LegendSoFarLines(domains, icons, i);
      RowsSoFarLines(domains, icons, i, prev + header, m);
      LegendLinesStep(domains, icons, i);
      ParamLinesConcat(domains, icons, i);
      var before := Concat(LegendLines(domains, icons, i));
      assert LegendSoFar(domains, icons, n) == (prev + header) + rows;
      assert Concat(LegendLines(domains, icons, n)) == before + (header + rows);
      assert prev == "<table>" + before;
      Assoc("<table>", before, header, rows);
    }
  }

  lemma ParamLinesConcat(domains: seq<(string, seq<string>)>, icons: map<Spec, string>, i: nat)
    requires i < |domains| && CoversLegend(domains, icons)
    ensures Concat(ParamLines(domains, icons, i)) ==
      HeaderLine(domains[i].0) + Concat(ParamLines(domains, icons, i)[1..|domains[i].1| + 1])
  {
    var lines := ParamLines(domains, icons, i);
    assert lines == [lines[0]] + lines[1..|domains[i].1| + 1];
    ConcatAppend([lines[0]], lines[1..|domains[i].1| + 1]);
    assert [lines[0]][..0] == [];
  }

  lemma Assoc(a: string, b: string, c: string, d: string)
    ensures ((a + b) + c) + d == a + (b + (c + d))
  {
  }

  /** The sum of the domain sizes. */
  function ValueCount(domains: seq<(string, seq<string>)>): nat
  {
    if domains == [] then 0 else ValueCount(domains[..|domains| - 1]) + |domains[|domains| - 1].1|
  }

  /** The legend has one header per parameter and one row per domain value, and
      the icons of a drawable product cover it. */
  lemma {:induction false} LegendLinesCount(domains: seq<(string, seq<string>)>, icons: map<Spec, string>, n: nat)
    requires n <= |domains| && CoversLegend(domains, icons)
    ensures |LegendLines(domains, icons, n)| == n + ValueCount(domains[..n])
  {
    if n > 0 {
      LegendLinesCount(domains, icons, n - 1);
      assert domains[..n][..n - 1] == domains[..n - 1];
    }
  }

  /** Icons for the whole product include every tuple the legend shows. */
  lemma IconsCoverLegend(domains: seq<(string, seq<string>)>, colors: Colouring, pie: seq<string> -> string)
    requires Icons(domains, colors, pie).Ok?
    ensures CoversLegend(domains, Icons(domains, colors, pie).value)
  {
    IconsSpec(domains, colors, pie);
    forall i: nat, cid | i < |domains| && cid in domains[i].1
      ensures InProduct(domains, IconSpec(domains, i, cid))
    {
    }
  }

  // ---------------------------------------------------------------------
  // GeoJSON features
  // ---------------------------------------------------------------------

  /** A GeoJSON point feature for one language. */
  datatype Feature = Feature(lon: real, lat: real, id: string, name: string, values: string, icon: string)

  /** Lines 101-102: the map is Pacific-centred, so longitudes at or west of
      26 degrees West move east by a full turn. */
  function PacificLon(lon: real): (r: real)
    ensures r == lon || r == lon + 360.0
    ensures -180.0 <= lon <= 180.0 ==> -26.0 < r <= 334.0
  {
    if lon <= -26.0 then lon + 360.0 else lon
  }

  /** `'{}'.format(v)` for a value or `None`. */
  function ValueText(v: Option<string>): string
  {
    if v.Some? then v.value else "None"
  }

  /** Line 109: the tuple's values, joined by " / ". */
  function ValuesText(spec: Spec): string
  {
    Join(" / ", seq(|spec|, k requires 0 <= k < |spec| => ValueText(spec[k].1)))
  }

  /** Lines 99-113: the feature of a language with the icon of its tuple; a
      `TypeError` without coordinates and a `KeyError` without an icon. */
  function L2F(lg: Languoid, spec: Spec, icons: map<Spec, string>): (r: Result<Feature>)
    ensures r.Ok? <==> lg.coords.Some? && spec in icons
    ensures r.Ok? ==> r.value.id == lg.id && r.value.name == lg.name && r.value.icon == icons[spec]
    ensures r.Ok? ==> r.value.lat == lg.coords.value.0 && r.value.lon == PacificLon(lg.coords.value.1)
  {
    if lg.coords.None? then Err("TypeError")
    else if spec !in icons then Err("KeyError")
    else Ok(Feature(PacificLon(lg.coords.value.1), lg.coords.value.0, lg.id, lg.name, ValuesText(spec), icons[spec]))
  }

  function FeatureOf(languoids: map<string, Languoid>, icons: map<Spec, string>): ((string, Spec)) -> Result<Feature>
  {
    (e: (string, Spec)) => if e.0 in languoids then L2F(languoids[e.0], e.1, icons) else Err("KeyError")
  }

  /** Lines 115-118: one feature per language, in language order. */
  function Features(specs: seq<(string, Spec)>, languoids: map<string, Languoid>, icons: map<Spec, string>): Result<seq<Feature>>
  {
    MapResult(specs, FeatureOf(languoids, icons))
  }

  /** The features exist iff every language is a geo-referenced languoid whose
      tuple has an icon; then there is one per language, in order, with its
      icon and values. */
  lemma FeaturesSpec(specs: seq<(string, Spec)>, languoids: map<string, Languoid>, icons: map<Spec, string>)
    ensures Features(specs, languoids, icons).Ok? <==>
      forall i :: 0 <= i < |specs| ==>
        specs[i].0 in languoids && languoids[specs[i].0].coords.Some? && specs[i].1 in icons
    ensures Features(specs, languoids, icons).Ok? ==>
      |Features(specs, languoids, icons).value| == |specs| &&
      forall i :: 0 <= i < |specs| ==>
        Features(specs, languoids, icons).value[i].id == languoids[specs[i].0].id &&
        Features(specs, languoids, icons).value[i].icon == icons[specs[i].1] &&
        Features(specs, languoids, icons).value[i].values == ValuesText(specs[i].1)
  {
    MapResultSpec(specs, FeatureOf(languoids, icons));
  }

  // ---------------------------------------------------------------------
  // The command
  // ---------------------------------------------------------------------

  /** What the map's files are made from. */
  datatype MapData = MapData(features: seq<Feature>, combinations: seq<(Spec, nat)>, legend: string, nlangs: nat)

  /** Lines 38-140: the map data for a dataset's ValueTable. */
  method HtmlMap(rows: seq<ValueRow>, languoids: map<string, Languoid>,
                 qualitative: (nat, Option<string>) -> seq<string>, pie: seq<string> -> string)
      returns (r: Result<MapData>)
    ensures var values := Collected(rows, languoids);
      var domains := Domains(values);
      var specs := Tuples(AddPids([], values), domains);
      var icons := Icons(domains, ColorTable(domains, qualitative), pie);
      && (r.Ok? <==> icons.Ok? && Features(specs, languoids, icons.value).Ok?)
      && (r.Ok? ==> r.value.combinations == Counted(specs) && r.value.nlangs == |specs|
                    && r.value.features == Features(specs, languoids, icons.value).value)
    ensures r.Ok? ==> Total(r.value.combinations) == r.value.nlangs == |r.value.features|
    ensures r.Ok? ==> exists icons :: (CoversLegend(Domains(Collected(rows, languoids)), icons) &&
      r.value.legend == "<table>" + Concat(LegendLines(Domains(Collected(rows, languoids)), icons, |Domains(Collected(rows, languoids))|)) + "</table>")
  {
    var values := CollectValues(rows, languoids);
    var domains := Domains(values);
    var byLang := ValuesByLang(values);
    var specs, counts := Normalize(byLang, domains);
    var colors := AssignColors(domains, qualitative);
    var icons := Icons(domains, colors, pie);
    if icons.Err? {
      return Err(icons.reason);
    }
    IconsCoverLegend(domains, colors, pie);
    var legend := Legend(domains, icons.value);
    LegendSoFarLines(domains, icons.value, |domains|);
    var features := Features(specs, languoids, icons.value);
    if features.Err? {
      return Err(features.reason);
    }
    CountedSpec(specs, []);
    FeaturesSpec(specs, languoids, icons.value);
    r := Ok(MapData(features.value, counts, legend, |specs|));
  }
}
