/**
 * Linking the objects of a CLDF component (forms, for instance) to the media
 * files of the dataset's MediaTable (src/cldfviz/media.py).
 *
 * An object is linked either through its own `mediaReference` column or,
 * failing that, through an object-reference column on MediaTable. The media
 * ids collected on the way are then resolved against the MediaTable files;
 * ids that resolve to no file are dropped.
 */
module Media {
  import opened Common

  /** A reference cell: a list-valued column gives a list, any other column
      a single value, which may be null. */
  datatype RefCell = Scalar(ref: Option<string>) | List(refs: seq<Option<string>>)

  /** An object of the component; `parameter` is its parameter reference,
      the one property callers filter on. */
  datatype Obj = Obj(id: string, mediaRef: RefCell, parameter: Option<string>)

  /** A MediaTable row: its id and the cell of the object-reference column. */
  datatype MediaRow = MediaRow(id: string, refs: RefCell)

  /** A media file: its id, its media type (`audio/mpeg`, ...) and its URL. */
  datatype File = File(id: string, mimetype: string, url: string)

  /** Which of the two ways of linking the dataset offers. */
  datatype Link = ByMediaReference | ByMediaTable(rows: seq<MediaRow>) | Unlinked

  /** `as_list`: a list is returned as it is, anything else becomes a
      one-element list. */
  function AsList(cell: RefCell): (r: seq<Option<string>>)
    ensures cell.List? ==> r == cell.refs
    ensures cell.Scalar? ==> |r| == 1 && r[0] == cell.ref
  {
    match cell
    case List(refs) => refs
    case Scalar(x) => [x]
  }

  /** The `mediaReference` column wins over the MediaTable column. */
  function LinkOf(hasMediaReference: bool, mediaRows: Option<seq<MediaRow>>): Link
  {
    if hasMediaReference then ByMediaReference
    else if mediaRows.Some? then ByMediaTable(mediaRows.value)
    else Unlinked
  }

  /** An object is kept when there is no filter or the filter accepts it. */
  predicate Passes(filter: Option<Obj -> bool>, o: Obj)
  {
    filter.None? || filter.value(o)
  }

  function PassFn(filter: Option<Obj -> bool>): Obj -> bool
  {
    o => Passes(filter, o)
  }

  // ---------------------------------------------------------------------
  // The `media_by_fid` table of the MediaTable path
  // ---------------------------------------------------------------------

  /** Occurrences of `x` among the first `n` elements of `s`. */
  function Count<T(==)>(s: seq<T>, n: nat, x: T): nat
    requires n <= |s|
  {
    if n == 0 then 0 else Count(s, n - 1, x) + (if s[n - 1] == x then 1 else 0)
  }

  lemma {:induction false} CountPositive<T>(s: seq<T>, n: nat, x: T)
    requires n <= |s|
    ensures Count(s, n, x) > 0 <==> exists j :: 0 <= j < n && s[j] == x
  {
    if n > 0 {
      CountPositive(s, n - 1, x);
    }
  }

  function Repeat<T>(x: T, n: nat): (r: seq<T>)
    ensures |r| == n
  {
    if n == 0 then [] else Repeat(x, n - 1) + [x]
  }

  /** `n` copies of `x` hold `x` and nothing else. */
  lemma {:induction false} RepeatMember<T>(x: T, n: nat, y: T)
    ensures y in Repeat(x, n) <==> n > 0 && y == x
  {
    if n > 0 {
      RepeatMember(x, n - 1, y);
      assert Repeat(x, n) == Repeat(x, n - 1) + [x];
    }
  }

  /** Appending the media row id `id` under each of the first `m` of its
      references `fids` (the inner loop). */
  function AttachRow(acc: seq<(Option<string>, seq<string>)>, fids: seq<Option<string>>, m: nat, id: string): seq<(Option<string>, seq<string>)>
    requires m <= |fids|
  {
    if m == 0 then acc else AppendAt(AttachRow(acc, fids, m - 1, id), fids[m - 1], id)
  }

  /** `media_by_fid` after the first `n` MediaTable rows. */
  function ByFid(rows: seq<MediaRow>, n: nat): seq<(Option<string>, seq<string>)>
    requires n <= |rows|
  {
    if n == 0 then []
    else
      var fids := AsList(rows[n - 1].refs);
      AttachRow(ByFid(rows, n - 1), fids, |fids|, rows[n - 1].id)
  }

  /** The media ids attached to the object id `fid` by the first `n` rows,
      as an independent definition: each row contributes its id once per
      time it references `fid`, rows taken in order. */
  function MediaIdsFor(rows: seq<MediaRow>, n: nat, fid: Option<string>): seq<string>
    requires n <= |rows|
  {
    if n == 0 then []
    else
      var fids := AsList(rows[n - 1].refs);
      MediaIdsFor(rows, n - 1, fid) + Repeat(rows[n - 1].id, Count(fids, |fids|, fid))
  }

  lemma {:induction false} AttachRowGet(acc: seq<(Option<string>, seq<string>)>, fids: seq<Option<string>>, m: nat, id: string, fid: Option<string>)
    requires m <= |fids|
    ensures IdsOf(AttachRow(acc, fids, m, id), fid) == IdsOf(acc, fid) + Repeat(id, Count(fids, m, fid))
  {
    if m > 0 {
      var prev := AttachRow(acc, fids, m - 1, id);
      var base := IdsOf(acc, fid);
      var c := Count(fids, m - 1, fid);
      var more := fids[m - 1] == fid;
      AttachRowGet(acc, fids, m - 1, id, fid);
      AppendAtIdsOf(prev, fids[m - 1], id, fid);
      RepeatMore(base, id, c, more);
      calc {
        IdsOf(AttachRow(acc, fids, m, id), fid);
        IdsOf(AppendAt(prev, fids[m - 1], id), fid);
        IdsOf(prev, fid) + (if more then [id] else []);
        base + Repeat(id, c) + (if more then [id] else []);
        base + Repeat(id, c + if more then 1 else 0);
        base + Repeat(id, Count(fids, m, fid));
      }
    }
  }

  /** `media_by_fid.get(fid, [])`. */
  function IdsOf(od: seq<(Option<string>, seq<string>)>, fid: Option<string>): seq<string>
  {
    if od == [] then []
    else if od[0].0 == fid then od[0].1
    else IdsOf(od[1..], fid)
  }

  lemma {:induction false} AppendAtIdsOf(od: seq<(Option<string>, seq<string>)>, k: Option<string>, v: string, fid: Option<string>)
    ensures IdsOf(AppendAt(od, k, v), fid) == IdsOf(od, fid) + (if k == fid then [v] else [])
  {
    var r := AppendAt(od, k, v);
    if od == [] {
      assert r[1..] == [];
    } else if od[0].0 != k {
      AppendAtIdsOf(od[1..], k, v, fid);
      assert r[1..] == AppendAt(od[1..], k, v);
    } else {
      assert r[1..] == od[1..];
    }
  }

  lemma RepeatMore(base: seq<string>, id: string, c: nat, more: bool)
    ensures base + Repeat(id, c) + (if more then [id] else []) == base + Repeat(id, c + if more then 1 else 0)
  {
    if more {
      assert Repeat(id, c + 1) == Repeat(id, c) + [id];
    }
  }

  /** The defaultdict filled by the nested loops holds, for every object id,
      exactly the ids of the MediaTable rows that reference it, in row order. */
  lemma {:induction false} ByFidGet(rows: seq<MediaRow>, n: nat, fid: Option<string>)
    requires n <= |rows|
    ensures IdsOf(ByFid(rows, n), fid) == MediaIdsFor(rows, n, fid)
  {
    if n > 0 {
      var fids := AsList(rows[n - 1].refs);
      var prev := ByFid(rows, n - 1);
      var more := Repeat(rows[n - 1].id, Count(fids, |fids|, fid));
      calc {
        IdsOf(ByFid(rows, n), fid);
        IdsOf(AttachRow(prev, fids, |fids|, rows[n - 1].id), fid);
        { AttachRowGet(prev, fids, |fids|, rows[n - 1].id, fid); }
        IdsOf(prev, fid) + more;
        { ByFidGet(rows, n - 1, fid);
          assert IdsOf(prev, fid) == MediaIdsFor(rows, n - 1, fid); }
        MediaIdsFor(rows, n - 1, fid) + more;
        MediaIdsFor(rows, n, fid);
      }
    }
  }

  /** A media row id is attached to an object id exactly when the row
      references that object. */
  lemma {:induction false} MediaIdsForMember(rows: seq<MediaRow>, n: nat, fid: Option<string>, x: string)
    requires n <= |rows|
    ensures x in MediaIdsFor(rows, n, fid) <==> exists i :: 0 <= i < n && rows[i].id == x && fid in AsList(rows[i].refs)
  {
    if n > 0 {
      MediaIdsForMember(rows, n - 1, fid, x);
      var fids := AsList(rows[n - 1].refs);
      CountPositive(fids, |fids|, fid);
      RepeatMember(rows[n - 1].id, Count(fids, |fids|, fid), x);
      if rows[n - 1].id == x && fid in fids {
        var k :| 0 <= k < |fids| && fids[k] == fid;
      }
    }
  }

  /** The nested loops over the MediaTable rows and their references. */
  method MediaByFid(rows: seq<MediaRow>) returns (byFid: seq<(Option<string>, seq<string>)>)
    ensures byFid == ByFid(rows, |rows|)
    ensures forall fid :: IdsOf(byFid, fid) == MediaIdsFor(rows, |rows|, fid)
  {
    byFid := [];
    for i := 0 to |rows|
      invariant byFid == ByFid(rows, i)
    {
      var fids := AsList(rows[i].refs);
      for j := 0 to |fids|
        invariant byFid == AttachRow(ByFid(rows, i), fids, j, rows[i].id)
      {
        byFid := AppendAt(byFid, fids[j], rows[i].id);
      }
    }
    forall fid
      ensures IdsOf(byFid, fid) == MediaIdsFor(rows, |rows|, fid)
    {
      ByFidGet(rows, |rows|, fid);
    }
  }

  // ---------------------------------------------------------------------
  // Objects with the media ids they reference
  // ---------------------------------------------------------------------

  function Lift(ids: seq<string>): (r: seq<Option<string>>)
    ensures |r| == |ids|
    ensures forall i :: 0 <= i < |ids| ==> r[i] == Some(ids[i])
  {
    seq(|ids|, i requires 0 <= i < |ids| => Some(ids[i]))
  }

  /** The media ids an object references under the given way of linking. */
  function RefsFor(o: Obj, link: Link): seq<Option<string>>
  {
    match link
    case ByMediaReference => AsList(o.mediaRef)
    case ByMediaTable(rows) => Lift(IdsOf(ByFid(rows, |rows|), Some(o.id)))
    case Unlinked => []
  }

  /** The `(obj, mrefs)` pairs for the first `n` objects. */
  function Pairs(objects: seq<Obj>, n: nat, filter: Option<Obj -> bool>, link: Link): seq<(Obj, seq<Option<string>>)>
    requires n <= |objects|
  {
    if n == 0 then []
    else
      Pairs(objects, n - 1, filter, link)
      + (if Passes(filter, objects[n - 1]) then [(objects[n - 1], RefsFor(objects[n - 1], link))] else [])
  }

  /** `set(s)`. */
  function Elems<T(!new)>(s: seq<T>): (r: set<T>)
    ensures forall x :: x in r <==> x in s
  {
    if s == [] then {} else {s[0]} + Elems(s[1..])
  }

  /** The set `media` of all ids the pairs reference. */
  function MediaIds(objs: seq<(Obj, seq<Option<string>>)>): set<Option<string>>
  {
    if objs == [] then {}
    else MediaIds(objs[..|objs| - 1]) + Elems(objs[|objs| - 1].1)
  }

  lemma {:induction false} MediaIdsContains(objs: seq<(Obj, seq<Option<string>>)>, i: nat, m: Option<string>)
    requires i < |objs| && m in objs[i].1
    ensures m in MediaIds(objs)
  {
    if i < |objs| - 1 {
      MediaIdsContains(objs[..|objs| - 1], i, m);
    }
  }

  /** The pairs are the objects that pass the filter, in table order, each
      with the ids it references. */
  /** The pairs match a sequence of objects: same length, same objects, and
      each object with its references. */
  ghost predicate PairedWith(ps: seq<(Obj, seq<Option<string>>)>, os: seq<Obj>, link: Link)
  {
    |ps| == |os| && forall i :: 0 <= i < |ps| ==> ps[i].0 == os[i] && ps[i].1 == RefsFor(os[i], link)
  }

  lemma PairedWithSnoc(ps: seq<(Obj, seq<Option<string>>)>, os: seq<Obj>, link: Link, o: Obj, keep: bool)
    requires PairedWith(ps, os, link)
    ensures PairedWith(ps + (if keep then [(o, RefsFor(o, link))] else []), os + (if keep then [o] else []), link)
  {
  }

  lemma {:induction false} PairsSpec(objects: seq<Obj>, n: nat, filter: Option<Obj -> bool>, link: Link)
    requires n <= |objects|
    ensures |Pairs(objects, n, filter, link)| == |FilterSeq(objects[..n], PassFn(filter))|
    ensures forall i :: 0 <= i < |Pairs(objects, n, filter, link)| ==>
      Pairs(objects, n, filter, link)[i].0 == FilterSeq(objects[..n], PassFn(filter))[i]
      && Pairs(objects, n, filter, link)[i].1 == RefsFor(Pairs(objects, n, filter, link)[i].0, link)
  {
    PairsPaired(objects, n, filter, link);
  }

  lemma {:induction false} PairsPaired(objects: seq<Obj>, n: nat, filter: Option<Obj -> bool>, link: Link)
    requires n <= |objects|
    ensures PairedWith(Pairs(objects, n, filter, link), FilterSeq(objects[..n], PassFn(filter)), link)
  {
    if n == 0 {
      assert objects[..0] == [];
    } else {
      var o := objects[n - 1];
      PairsPaired(objects, n - 1, filter, link);
      assert objects[..n] == objects[..n - 1] + [o];
      FilterSeqAppend(objects[..n - 1], [o], PassFn(filter));
      assert FilterSeq([o], PassFn(filter)) == if Passes(filter, o) then [o] else [];
      PairedWithSnoc(Pairs(objects, n - 1, filter, link), FilterSeq(objects[..n - 1], PassFn(filter)), link, o, Passes(filter, o));
    }
  }

  /** Under the MediaTable path an object references exactly the ids of the
      MediaTable rows that reference it; without any link it references
      nothing. */
  lemma RefsForSpec(o: Obj, link: Link, m: Option<string>)
    ensures link.Unlinked? ==> RefsFor(o, link) == []
    ensures link.ByMediaReference? ==> RefsFor(o, link) == AsList(o.mediaRef)
    ensures link.ByMediaTable? ==>
      (m in RefsFor(o, link) <==>
        m.Some? && exists i :: 0 <= i < |link.rows| && link.rows[i].id == m.value && Some(o.id) in AsList(link.rows[i].refs))
  {
    if link.ByMediaTable? {
      var rows := link.rows;
      ByFidGet(rows, |rows|, Some(o.id));
      var ids := IdsOf(ByFid(rows, |rows|), Some(o.id));
      if m.Some? {
        MediaIdsForMember(rows, |rows|, Some(o.id), m.value);
        if m in Lift(ids) {
          var k :| 0 <= k < |ids| && Lift(ids)[k] == m;
          assert ids[k] == m.value;
        }
        if m.value in ids {
          var k :| 0 <= k < |ids| && ids[k] == m.value;
          assert Lift(ids)[k] == m;
        }
      } else {
        assert m !in Lift(ids);
      }
    }
  }

  // ---------------------------------------------------------------------
  // Resolving media ids against the MediaTable files
  // ---------------------------------------------------------------------

  /** The file that `media[mid]` holds after the first `n` files: the last
      of them whose id is `mid`. */
  function LastFile(files: seq<File>, n: nat, mid: Option<string>): (r: Option<File>)
    requires n <= |files|
    ensures r.Some? ==> r.value in files[..n] && Some(r.value.id) == mid
    ensures r.None? <==> forall j :: 0 <= j < n ==> Some(files[j].id) != mid
  {
    if n == 0 then None
    else if Some(files[n - 1].id) == mid then Some(files[n - 1])
    else LastFile(files, n - 1, mid)
  }

  /** The files of the referenced ids that resolve, in reference order. */
  function Resolved(mrefs: seq<Option<string>>, files: seq<File>): seq<File>
  {
    if mrefs == [] then []
    else
      (match LastFile(files, |files|, mrefs[0])
       case Some(f) => [f]
       case None => [])
      + Resolved(mrefs[1..], files)
  }

  /** Every kept file is a MediaTable file some reference names, every
      reference that resolves keeps its file, and there is at most one file
      per reference. */
  lemma {:induction false} ResolvedSpec(mrefs: seq<Option<string>>, files: seq<File>)
    ensures |Resolved(mrefs, files)| <= |mrefs|
    ensures forall f :: f in Resolved(mrefs, files) ==> f in files && Some(f.id) in mrefs
    ensures forall m :: m in mrefs && LastFile(files, |files|, m).Some? ==> LastFile(files, |files|, m).value in Resolved(mrefs, files)
  {
    if mrefs != [] {
      ResolvedSpec(mrefs[1..], files);
      assert files[..|files|] == files;
      forall m | m in mrefs && LastFile(files, |files|, m).Some?
        ensures LastFile(files, |files|, m).value in Resolved(mrefs, files)
      {
        if m != mrefs[0] {
          assert m in mrefs[1..];
        }
      }
    }
  }

  /** `[media[mid] for mid in mrefs if media[mid]]` with the filled dict. */
  function Keep(mrefs: seq<Option<string>>, found: map<Option<string>, Option<File>>): seq<File>
    requires forall m :: m in mrefs ==> m in found
  {
    if mrefs == [] then []
    else (if found[mrefs[0]].Some? then [found[mrefs[0]].value] else []) + Keep(mrefs[1..], found)
  }

  lemma {:induction false} KeepResolved(mrefs: seq<Option<string>>, found: map<Option<string>, Option<File>>, files: seq<File>)
    requires forall m :: m in mrefs ==> m in found && found[m] == LastFile(files, |files|, m)
    ensures Keep(mrefs, found) == Resolved(mrefs, files)
  {
    if mrefs != [] {
      KeepResolved(mrefs[1..], found, files);
    }
  }

  /** The result for the first `n` pairs. */
  function Attach(objs: seq<(Obj, seq<Option<string>>)>, n: nat, files: seq<File>): (r: seq<(Obj, seq<File>)>)
    requires n <= |objs|
    ensures |r| == n
    ensures forall i :: 0 <= i < n ==> r[i] == (objs[i].0, Resolved(objs[i].1, files))
  {
    if n == 0 then [] else Attach(objs, n - 1, files) + [(objs[n - 1].0, Resolved(objs[n - 1].1, files))]
  }

  /** What `get_objects_and_media` returns. */
  function ObjectsAndMedia(objects: seq<Obj>, filter: Option<Obj -> bool>, link: Link, files: seq<File>): seq<(Obj, seq<File>)>
  {
    var pairs := Pairs(objects, |objects|, filter, link);
    Attach(pairs, |pairs|, files)
  }

  /** One entry per object that passes the filter, in table order, holding
      the files its references resolve to. */
  lemma ObjectsAndMediaSpec(objects: seq<Obj>, filter: Option<Obj -> bool>, link: Link, files: seq<File>)
    ensures |ObjectsAndMedia(objects, filter, link, files)| == |FilterSeq(objects, PassFn(filter))|
    ensures forall i :: 0 <= i < |ObjectsAndMedia(objects, filter, link, files)| ==>
      ObjectsAndMedia(objects, filter, link, files)[i].0 == FilterSeq(objects, PassFn(filter))[i]
      && ObjectsAndMedia(objects, filter, link, files)[i].1 == Resolved(RefsFor(FilterSeq(objects, PassFn(filter))[i], link), files)
  {
    PairsSpec(objects, |objects|, filter, link);
    assert objects[..|objects|] == objects;
  }

  /** The pairs collected by one of the three loops of the source, with
      `media` the set of the ids they reference. */
  predicate Collected(objects: seq<Obj>, i: nat, filter: Option<Obj -> bool>, link: Link,
                      objs: seq<(Obj, seq<Option<string>>)>, media: set<Option<string>>)
    requires i <= |objects|
  {
    objs == Pairs(objects, i, filter, link) && media == MediaIds(objs)
  }

  /** One iteration of the collecting loops: a passing object is appended
      with its references, which join `media`; any other object changes
      nothing. */
  lemma CollectedStep(objects: seq<Obj>, i: nat, filter: Option<Obj -> bool>, link: Link,
                      objs: seq<(Obj, seq<Option<string>>)>, media: set<Option<string>>)
    requires i < |objects| && Collected(objects, i, filter, link, objs, media)
    ensures var o := objects[i];
      Passes(filter, o) ==> Collected(objects, i + 1, filter, link, objs + [(o, RefsFor(o, link))], media + Elems(RefsFor(o, link)))
    ensures !Passes(filter, objects[i]) ==> Collected(objects, i + 1, filter, link, objs, media)
  {
    var o := objects[i];
    if Passes(filter, o) {
      assert (objs + [(o, RefsFor(o, link))])[..|objs|] == objs;
    }
  }

  /** The loop of the `mediaReference` path. */
  method CollectByReference(objects: seq<Obj>, filter: Option<Obj -> bool>)
    returns (objs: seq<(Obj, seq<Option<string>>)>, media: set<Option<string>>)
    ensures Collected(objects, |objects|, filter, ByMediaReference, objs, media)
  {
    objs, media := [], {};
    for i := 0 to |objects|
      invariant Collected(objects, i, filter, ByMediaReference, objs, media)
    {
      var obj := objects[i];
      CollectedStep(objects, i, filter, ByMediaReference, objs, media);
      if filter.None? || filter.value(obj) {
        var mrefs := AsList(obj.mediaRef);
        media := media + Elems(mrefs);
        objs := objs + [(obj, mrefs)];
      }
    }
  }

  /** The loops of the MediaTable path. */
  method CollectByTable(objects: seq<Obj>, filter: Option<Obj -> bool>, rows: seq<MediaRow>)
    returns (objs: seq<(Obj, seq<Option<string>>)>, media: set<Option<string>>)
    ensures Collected(objects, |objects|, filter, ByMediaTable(rows), objs, media)
  {
    var byFid := MediaByFid(rows);
    objs, media := CollectFromTable(objects, filter, rows, byFid);
  }

  /** The loop over the objects of the MediaTable path, given `media_by_fid`. */
  method CollectFromTable(objects: seq<Obj>, filter: Option<Obj -> bool>, rows: seq<MediaRow>,
                          byFid: seq<(Option<string>, seq<string>)>)
    returns (objs: seq<(Obj, seq<Option<string>>)>, media: set<Option<string>>)
    requires byFid == ByFid(rows, |rows|)
    ensures Collected(objects, |objects|, filter, ByMediaTable(rows), objs, media)
  {
    objs, media := [], {};
    for i := 0 to |objects|
      invariant Collected(objects, i, filter, ByMediaTable(rows), objs, media)
    {
      var obj := objects[i];
      CollectedStep(objects, i, filter, ByMediaTable(rows), objs, media);
      if filter.None? || filter.value(obj) {
        var mrefs := Lift(IdsOf(byFid, Some(obj.id)));
        assert mrefs == RefsFor(obj, ByMediaTable(rows));
        media := media + Elems(mrefs);
        objs := objs + [(obj, mrefs)];
      }
    }
  }

  /** The comprehension used when objects are not linked to media. */
  method CollectUnlinked(objects: seq<Obj>, filter: Option<Obj -> bool>)
    returns (objs: seq<(Obj, seq<Option<string>>)>, media: set<Option<string>>)
    ensures Collected(objects, |objects|, filter, Unlinked, objs, media)
    ensures media == {}
  {
    objs, media := [], {};
    for i := 0 to |objects|
      invariant Collected(objects, i, filter, Unlinked, objs, media)
      invariant media == {}
    {
      var obj := objects[i];
      CollectedStep(objects, i, filter, Unlinked, objs, media);
      assert Elems(RefsFor(obj, Unlinked)) == {};
      if filter.None? || filter.value(obj) {
        objs := objs + [(obj, [])];
      }
    }
  }

  /** `media = {mid: None for mid in media}`, then every MediaTable file whose
      id is referenced is stored under its id, so the last such file wins. */
  method IndexFiles(media: set<Option<string>>, files: seq<File>) returns (found: map<Option<string>, Option<File>>)
    ensures found.Keys == media
    ensures forall m :: m in found ==> found[m] == LastFile(files, |files|, m)
  {
    found := map m | m in media :: None;
    for i := 0 to |files|
      invariant found.Keys == media
      invariant forall m :: m in found ==> found[m] == LastFile(files, i, m)
    {
      if Some(files[i].id) in found {
        found := found[Some(files[i].id) := Some(files[i])];
      }
    }
  }

  /** The final comprehension: each object with the files its ids resolve to. */
  method AttachFiles(objs: seq<(Obj, seq<Option<string>>)>, found: map<Option<string>, Option<File>>, files: seq<File>)
    returns (r: seq<(Obj, seq<File>)>)
    requires found.Keys == MediaIds(objs)
    requires forall m :: m in found ==> found[m] == LastFile(files, |files|, m)
    ensures r == Attach(objs, |objs|, files)
  {
    r := [];
    for i := 0 to |objs|
      invariant r == Attach(objs, i, files)
    {
      forall m | m in objs[i].1
        ensures m in found && found[m] == LastFile(files, |files|, m)
      {
        MediaIdsContains(objs, i, m);
      }
      KeepResolved(objs[i].1, found, files);
      r := r + [(objs[i].0, Keep(objs[i].1, found))];
    }
  }

  /** `get_objects_and_media`: the dataset is given by its component's
      objects, whether that component has a `mediaReference` column, the
      MediaTable rows if MediaTable has the object-reference column, and
      the MediaTable files. */
  method GetObjectsAndMedia(objects: seq<Obj>, filter: Option<Obj -> bool>, hasMediaReference: bool,
                            mediaRows: Option<seq<MediaRow>>, files: seq<File>)
    returns (r: seq<(Obj, seq<File>)>)
    ensures r == ObjectsAndMedia(objects, filter, LinkOf(hasMediaReference, mediaRows), files)
  {
    var objs: seq<(Obj, seq<Option<string>>)>;
    var media: set<Option<string>>;
    if hasMediaReference {
      objs, media := CollectByReference(objects, filter);
    } else if mediaRows.Some? {
      objs, media := CollectByTable(objects, filter, mediaRows.value);
    } else {
      objs, media := CollectUnlinked(objects, filter);
    }
    var found := IndexFiles(media, files);
    r := AttachFiles(objs, found, files);
  }

  // ---------------------------------------------------------------------
  // URLs of media files
  // ---------------------------------------------------------------------

  /** `get_media_url`: with a media directory, the `file://` URL of the
      file's resolved local path if it exists there and nothing otherwise;
      without one, the file's URL. `onDisk(dir, file)` is the resolved local
      path of `file` under `dir` when that path exists. */
  function MediaUrl(file: File, mediaDir: Option<string>, onDisk: (string, File) -> Option<string>): (r: Option<string>)
    ensures mediaDir.None? ==> r == Some(file.url)
    ensures mediaDir.Some? ==> (r.Some? <==> onDisk(mediaDir.value, file).Some?)
    ensures mediaDir.Some? && r.Some? ==> StartsWith(r.value, "file://") && r.value[7..] == onDisk(mediaDir.value, file).value
  {
    match mediaDir
    case Some(dir) =>
      (match onDisk(dir, file)
       case Some(path) => Some("file://" + path)
       case None => None)
    case None => Some(file.url)
  }
}
