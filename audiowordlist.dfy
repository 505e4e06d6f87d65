/**
 * The `audiowordlist` command (src/cldfviz/commands/audiowordlist.py): pick
 * one concept (a ParameterTable row) of a CLDF Wordlist and collect its forms
 * together with the URLs of their audio files.
 *
 * The concept is given as `VALUE`, `COLNAME=VALUE` or `cldf:PROPNAME=VALUE`.
 * The lookup of a CLDF property's column name in the dataset's schema is a
 * parameter (`propertyColumn`), and so is the file system (`onDisk`).
 */
module AudioWordlist {
  import opened Common
  import opened Media

  const CldfPrefix := "cldf:"

  /** What the concept argument asks for: the ParameterTable column to
      compare, if any, and the value to look for. */
  datatype Concept = Concept(colname: Option<string>, value: string)

  /** Parsing the concept argument; `propertyColumn(p)` is the name of the
      ParameterTable column with CLDF property `p`, or the error the schema
      lookup raises. */
  function ParseConcept(concept: string, propertyColumn: string -> Result<string>): (r: Result<Concept>)
  {
    var (colspec, sep, value) := Partition(concept, "=");
    if sep == "" then Ok(Concept(None, colspec))
    else
      var cldfprop := StartsWith(colspec, CldfPrefix);
      var spec := RemoveAll(colspec, CldfPrefix);
      if cldfprop then
        (match propertyColumn(spec)
         case Ok(name) => Ok(Concept(Some(name), value))
         case Err(e) => Err(e))
      else Ok(Concept(Some(spec), value))
  }

  /** Without `=` the whole argument is the value and no column is named.
      Otherwise the argument is split at its first `=`: what follows is the
      value; what precedes, with every `cldf:` removed, is a column name
      or, when it started with `cldf:`, a CLDF property whose column is
      looked up. */
  lemma ParseConceptSpec(concept: string, propertyColumn: string -> Result<string>)
    ensures '=' !in concept ==> ParseConcept(concept, propertyColumn) == Ok(Concept(None, concept))
    ensures forall i :: 0 <= i < |concept| && concept[i] == '=' && '=' !in concept[..i] ==>
      var colspec := concept[..i];
      var spec := RemoveAll(colspec, CldfPrefix);
      && (!StartsWith(colspec, CldfPrefix) ==> ParseConcept(concept, propertyColumn) == Ok(Concept(Some(spec), concept[i + 1..])))
      && (StartsWith(colspec, CldfPrefix) && propertyColumn(spec).Ok? ==>
            ParseConcept(concept, propertyColumn) == Ok(Concept(Some(propertyColumn(spec).value), concept[i + 1..])))
      && (StartsWith(colspec, CldfPrefix) && propertyColumn(spec).Err? ==>
            ParseConcept(concept, propertyColumn) == Err(propertyColumn(spec).reason))
  {
    forall i | 0 <= i < |concept| && concept[i] == '=' && '=' !in concept[..i]
      ensures Partition(concept, "=") == (concept[..i], "=", concept[i + 1..])
    {
      assert concept[i..i + 1] == "=";
      assert OccursAt(concept, "=", i);
      var j := Find(concept, "=").value;
      assert concept[j] == concept[j..j + 1][0];
    }
  }

  /** A ParameterTable row: its id and its cells by column name (`None`
      for an empty cell). */
  datatype ParamRow = ParamRow(id: string, cells: map<string, Option<string>>)

  /** `(colname and row[colname] == match) or row['id'] == match`; reading a
      column the row does not have raises `KeyError`. An empty column name is
      false and is not read. */
  function RowMatches(row: ParamRow, c: Concept): (r: Result<bool>)
    ensures (c.colname.None? || c.colname.value == "") ==> r == Ok(row.id == c.value)
    ensures c.colname.Some? && c.colname.value != "" ==>
      (r.Err? <==> c.colname.value !in row.cells)
      && (r == Ok(true) <==> c.colname.value in row.cells && (row.cells[c.colname.value] == Some(c.value) || row.id == c.value))
  {
    if c.colname.Some? && c.colname.value != "" then
      if c.colname.value !in row.cells then Err("KeyError")
      else if row.cells[c.colname.value] == Some(c.value) then Ok(true)
      else Ok(row.id == c.value)
    else Ok(row.id == c.value)
  }

  /** The outcome of the search over the rows from `from` on: the id of the
      first matching row, the error of the first row that cannot be
      compared, or `ValueError` when no row matches. */
  function FirstMatch(rows: seq<ParamRow>, from: nat, c: Concept): Result<string>
    requires from <= |rows|
    decreases |rows| - from
  {
    if from == |rows| then Err("ValueError")
    else
      match RowMatches(rows[from], c)
      case Err(e) => Err(e)
      case Ok(hit) => if hit then Ok(rows[from].id) else FirstMatch(rows, from + 1, c)
  }

  /** Row `i` is the first row that is not a plain miss, and it matches. */
  ghost predicate FirstHit(rows: seq<ParamRow>, c: Concept, pid: string)
  {
    exists i :: 0 <= i < |rows| && rows[i].id == pid && RowMatches(rows[i], c) == Ok(true)
      && forall j :: 0 <= j < i ==> RowMatches(rows[j], c) == Ok(false)
  }

  lemma {:induction false} FirstMatchFrom(rows: seq<ParamRow>, from: nat, c: Concept)
    requires from <= |rows|
    ensures FirstMatch(rows, from, c) == Err("ValueError") <==> forall j :: from <= j < |rows| ==> RowMatches(rows[j], c) == Ok(false)
    ensures FirstMatch(rows, from, c).Ok? ==>
      exists i :: from <= i < |rows| && rows[i].id == FirstMatch(rows, from, c).value && RowMatches(rows[i], c) == Ok(true)
        && forall j :: from <= j < i ==> RowMatches(rows[j], c) == Ok(false)
    decreases |rows| - from
  {
    if from < |rows| {
      FirstMatchFrom(rows, from + 1, c);
      if RowMatches(rows[from], c) == Ok(false) && FirstMatch(rows, from, c).Ok? {
        var i :| from + 1 <= i < |rows| && rows[i].id == FirstMatch(rows, from, c).value && RowMatches(rows[i], c) == Ok(true)
          && forall j :: from + 1 <= j < i ==> RowMatches(rows[j], c) == Ok(false);
        assert forall j :: from <= j < i ==> RowMatches(rows[j], c) == Ok(false);
      }
    }
  }

  /** The search succeeds with the id of the first matching row when every
      earlier row is a plain miss, and fails with `ValueError` exactly when
      no row matches and every row can be compared. */
  lemma FirstMatchSpec(rows: seq<ParamRow>, c: Concept)
    ensures FirstMatch(rows, 0, c) == Err("ValueError") <==> forall j :: 0 <= j < |rows| ==> RowMatches(rows[j], c) == Ok(false)
    ensures FirstMatch(rows, 0, c).Ok? ==> FirstHit(rows, c, FirstMatch(rows, 0, c).value)
  {
    FirstMatchFrom(rows, 0, c);
  }

  /** The parameter id the concept selects: the search over the
      ParameterTable rows when there is a ParameterTable; otherwise the value
      itself, provided no column was named. */
  function ParameterFor(paramRows: Option<seq<ParamRow>>, c: Concept): Result<string>
  {
    if paramRows.Some? then FirstMatch(paramRows.value, 0, c)
    else if c.colname.None? then Ok(c.value)
    else Err("AssertionError")
  }

  /** The `for ... else` search for the concept's parameter id; `paramRows`
      is `None` when the dataset has no ParameterTable, and then the value is
      the id and no column may have been named. */
  method SelectParameter(paramRows: Option<seq<ParamRow>>, c: Concept) returns (pid: Result<string>)
    ensures pid == ParameterFor(paramRows, c)
    ensures paramRows.Some? ==> pid == FirstMatch(paramRows.value, 0, c)
    ensures paramRows.None? ==> pid == (if c.colname.None? then Ok(c.value) else Err("AssertionError"))
  {
    if paramRows.Some? {
      var rows := paramRows.value;
      for i := 0 to |rows|
        invariant FirstMatch(rows, 0, c) == FirstMatch(rows, i, c)
      {
        var m := RowMatches(rows[i], c);
        if m.Err? {
          return Err(m.reason);
        }
        if m.value {
          return Ok(rows[i].id);
        }
      }
      pid := Err("ValueError");
    } else {
      if c.colname.Some? {
        return Err("AssertionError");
      }
      pid := Ok(c.value);
    }
  }

  /** `f.mimetype.type == 'audio'`: the part of the media type before `/`. */
  predicate IsAudio(f: File)
  {
    Partition(f.mimetype, "/").0 == "audio"
  }

  /** `nfilter(get_media_url(f, media_dir) for f in media if ...)`: the URLs
      of the audio files, leaving out missing and empty ones. */
  function AudioUrls(media: seq<File>, mediaDir: Option<string>, onDisk: (string, File) -> Option<string>): seq<string>
  {
    if media == [] then []
    else
      var u := MediaUrl(media[0], mediaDir, onDisk);
      (if IsAudio(media[0]) && u.Some? && u.value != "" then [u.value] else [])
      + AudioUrls(media[1..], mediaDir, onDisk)
  }

  /** Every URL kept belongs to an audio file of the list and is non-empty,
      and every audio file with a non-empty URL contributes it. */
  lemma {:induction false} AudioUrlsSpec(media: seq<File>, mediaDir: Option<string>, onDisk: (string, File) -> Option<string>)
    ensures |AudioUrls(media, mediaDir, onDisk)| <= |media|
    ensures forall u :: u in AudioUrls(media, mediaDir, onDisk) ==>
      u != "" && exists f :: f in media && IsAudio(f) && MediaUrl(f, mediaDir, onDisk) == Some(u)
    ensures forall f :: f in media && IsAudio(f) && MediaUrl(f, mediaDir, onDisk).Some? && MediaUrl(f, mediaDir, onDisk).value != "" ==>
      MediaUrl(f, mediaDir, onDisk).value in AudioUrls(media, mediaDir, onDisk)
  {
    if media != [] {
      AudioUrlsSpec(media[1..], mediaDir, onDisk);
      forall u | u in AudioUrls(media, mediaDir, onDisk)
        ensures u != "" && exists f :: f in media && IsAudio(f) && MediaUrl(f, mediaDir, onDisk) == Some(u)
      {
        if u !in AudioUrls(media[1..], mediaDir, onDisk) {
          assert media[0] in media;
        } else {
          var f :| f in media[1..] && IsAudio(f) && MediaUrl(f, mediaDir, onDisk) == Some(u);
          assert f in media;
        }
      }
      forall f | f in media && IsAudio(f) && MediaUrl(f, mediaDir, onDisk).Some? && MediaUrl(f, mediaDir, onDisk).value != ""
        ensures MediaUrl(f, mediaDir, onDisk).value in AudioUrls(media, mediaDir, onDisk)
      {
        if f != media[0] {
          assert f in media[1..];
        }
      }
    }
  }

  /** The loop appending each form with its audio URLs. */
  method CollectForms(pairs: seq<(Obj, seq<File>)>, mediaDir: Option<string>, onDisk: (string, File) -> Option<string>)
    returns (forms: seq<(Obj, seq<string>)>)
    ensures |forms| == |pairs|
    ensures forall i :: 0 <= i < |pairs| ==> forms[i] == (pairs[i].0, AudioUrls(pairs[i].1, mediaDir, onDisk))
  {
    forms := [];
    for i := 0 to |pairs|
      invariant |forms| == i
      invariant forall k :: 0 <= k < i ==> forms[k] == (pairs[k].0, AudioUrls(pairs[k].1, mediaDir, onDisk))
    {
      forms := forms + [(pairs[i].0, AudioUrls(pairs[i].1, mediaDir, onDisk))];
    }
  }

  /** What the template is given: the parameter id, the parameter reference
      of the first form, and the forms with their audio URLs. */
  datatype Wordlist = Wordlist(pid: string, parameter: Option<string>, forms: seq<(Obj, seq<string>)>)

  /** The forms of parameter `pid`. */
  function OfParameter(pid: string): Obj -> bool
  {
    (f: Obj) => f.parameter == Some(pid)
  }

  /** `run` up to rendering: parse the concept, find its parameter, collect
      the forms of that parameter with their media and keep the audio URLs.
      With no form for the parameter, `forms[0]` raises `IndexError`. */
  method Run(concept: string, propertyColumn: string -> Result<string>, paramRows: Option<seq<ParamRow>>,
             forms: seq<Obj>, hasMediaReference: bool, mediaRows: Option<seq<MediaRow>>, files: seq<File>,
             mediaDir: Option<string>, onDisk: (string, File) -> Option<string>)
    returns (r: Result<Wordlist>)
    ensures ParseConcept(concept, propertyColumn).Err? ==> r == Err(ParseConcept(concept, propertyColumn).reason)
    ensures (ParseConcept(concept, propertyColumn).Ok? && paramRows.Some?
             && FirstMatch(paramRows.value, 0, ParseConcept(concept, propertyColumn).value).Err?) ==> r.Err?
    ensures (ParseConcept(concept, propertyColumn).Ok? && paramRows.None?
             && ParseConcept(concept, propertyColumn).value.colname.Some?) ==> r == Err("AssertionError")
    ensures ParseConcept(concept, propertyColumn).Ok? ==>
      var pid := ParameterFor(paramRows, ParseConcept(concept, propertyColumn).value);
      && (pid.Err? ==> r == Err(pid.reason))
      && (pid.Ok? && FilterSeq(forms, OfParameter(pid.value)) == [] ==> r == Err("IndexError"))
      && (pid.Ok? && FilterSeq(forms, OfParameter(pid.value)) != [] ==> r.Ok? && r.value.pid == pid.value)
    ensures r.Ok? ==>
      var link := LinkOf(hasMediaReference, mediaRows);
      var selected := FilterSeq(forms, OfParameter(r.value.pid));
      && ParseConcept(concept, propertyColumn).Ok?
      && (paramRows.Some? ==> FirstHit(paramRows.value, ParseConcept(concept, propertyColumn).value, r.value.pid))
      && (paramRows.None? ==> r.value.pid == ParseConcept(concept, propertyColumn).value.value)
      && |r.value.forms| == |selected| > 0
      && r.value.parameter == Some(r.value.pid)
      && forall i :: 0 <= i < |selected| ==>
           r.value.forms[i] == (selected[i], AudioUrls(Resolved(RefsFor(selected[i], link), files), mediaDir, onDisk))
  {
    var c := ParseConcept(concept, propertyColumn);
    if c.Err? {
      return Err(c.reason);
    }
    var pid := SelectParameter(paramRows, c.value);
    if pid.Err? {
      return Err(pid.reason);
    }
    var filter := Some(OfParameter(pid.value));
    FilterSeqPointwise(forms, PassFn(filter), OfParameter(pid.value));
    var pairs := GetObjectsAndMedia(forms, filter, hasMediaReference, mediaRows, files);
    ObjectsAndMediaSpec(forms, filter, LinkOf(hasMediaReference, mediaRows), files);
    var collected := CollectForms(pairs, mediaDir, onDisk);
    if |collected| == 0 {
      return Err("IndexError");
    }
    var selected := FilterSeq(forms, OfParameter(pid.value));
    assert selected[0] in selected;
    if paramRows.Some? {
      FirstMatchSpec(paramRows.value, c.value);
    }
    r := Ok(Wordlist(pid.value, collected[0].0.parameter, collected));
  }
}
