/**
 * Shared vocabulary of the model: optional values and results (Python's
 * `None` and raised exceptions), the string operations the Python code
 * relies on (`join`, `strip`, `partition`, `startswith`, `replace`), the
 * ordering Python uses for `str` and for tuples of strings, and a stable
 * insertion sort by such a key (Python's `sorted`).
 */
module Common {

  datatype Option<T> = None | Some(value: T)
  {
    /** `x if x is not None else d` */
    function GetOr(d: T): T
    {
      if Some? then value else d
    }
  }

  /** A Python exception is modelled as an `Err` carrying a short reason. */
  datatype Result<T> = Ok(value: T) | Err(reason: string)

  // ---------------------------------------------------------------------
  // Strings
  // ---------------------------------------------------------------------

  /** `sep.join(parts)` */
  function Join(sep: string, parts: seq<string>): (r: string)
    ensures parts == [] ==> r == ""
    ensures |parts| == 1 ==> r == parts[0]
    decreases |parts|
  {
    if |parts| == 0 then ""
    else if |parts| == 1 then parts[0]
    else parts[0] + sep + Join(sep, parts[1..])
  }

  /** Total length of a sequence of strings. */
  function TotalLength(parts: seq<string>): nat
  {
    if parts == [] then 0 else |parts[0]| + TotalLength(parts[1..])
  }

  /** The length of a join: the parts plus one separator between neighbours. */
  lemma {:induction false} JoinLength(sep: string, parts: seq<string>)
    requires parts != []
    ensures |Join(sep, parts)| == TotalLength(parts) + (|parts| - 1) * |sep|
    decreases |parts|
  {
    if |parts| > 1 {
      JoinLength(sep, parts[1..]);
    }
  }

  /** `"".join(parts)` */
  function Concat(parts: seq<string>): string
  {
    if parts == [] then "" else Concat(parts[..|parts| - 1]) + parts[|parts| - 1]
  }

  lemma {:induction false} ConcatAppend(a: seq<string>, b: seq<string>)
    ensures Concat(a + b) == Concat(a) + Concat(b)
    decreases |b|
  {
    if b != [] {
      assert (a + b)[..|a + b| - 1] == a + b[..|b| - 1];
      ConcatAppend(a, b[..|b| - 1]);
    } else {
      assert a + b == a;
    }
  }

  /** Python's `str.isspace()` on ASCII: space, tab, line feed, vertical tab,
      form feed, carriage return and the four separators `\x1c`-`\x1f`. */
  predicate IsSpace(c: char)
  {
    c == ' ' || c == '\t' || c == '\n' || c == '\r' || c == '\U{000B}' || c == '\U{000C}'
    || '\U{001C}' <= c <= '\U{001F}'
  }

  function LStrip(s: string): (r: string)
    ensures |r| <= |s| && r == s[|s| - |r|..]
    ensures r == [] || !IsSpace(r[0])
    ensures forall i :: 0 <= i < |s| - |r| ==> IsSpace(s[i])
  {
    if s != [] && IsSpace(s[0]) then LStrip(s[1..]) else s
  }

  function RStrip(s: string): (r: string)
    ensures |r| <= |s| && r == s[..|r|]
    ensures r == [] || !IsSpace(r[|r| - 1])
    ensures forall i :: |r| <= i < |s| ==> IsSpace(s[i])
  {
    if s != [] && IsSpace(s[|s| - 1]) then RStrip(s[..|s| - 1]) else s
  }

  /** `s.strip()`: the longest infix with no surrounding whitespace. */
  function Strip(s: string): (r: string)
    ensures r == [] || (!IsSpace(r[0]) && !IsSpace(r[|r| - 1]))
  {
    RStrip(LStrip(s))
  }

  /** A string that neither starts nor ends with whitespace is its own strip. */
  lemma StripTrimmed(s: string)
    requires s == [] || (!IsSpace(s[0]) && !IsSpace(s[|s| - 1]))
    ensures Strip(s) == s
  {
  }

  predicate StartsWith(s: string, prefix: string)
  {
    |prefix| <= |s| && s[..|prefix|] == prefix
  }

  /** `sep` occurs in `s` at index `j`. */
  predicate OccursAt(s: string, sep: string, j: int)
  {
    0 <= j && j + |sep| <= |s| && s[j..j + |sep|] == sep
  }

  /** The first index at or after `from` where `sep` occurs (`str.find`). */
  function FindFrom(s: string, sep: string, from: nat): (r: Option<nat>)
    requires from <= |s|
    ensures r.Some? ==> from <= r.value && OccursAt(s, sep, r.value)
    ensures forall j :: from <= j && (r.None? || j < r.value) ==> !OccursAt(s, sep, j)
    decreases |s| - from
  {
    if from + |sep| > |s| then None
    else if s[from..from + |sep|] == sep then Some(from)
    else if from == |s| then None
    else FindFrom(s, sep, from + 1)
  }

  function Find(s: string, sep: string): (r: Option<nat>)
    ensures r.Some? ==> OccursAt(s, sep, r.value)
    ensures forall j :: (r.None? || j < r.value) ==> !OccursAt(s, sep, j)
  {
    FindFrom(s, sep, 0)
  }

  /** `s.partition(sep)`: the text before the first `sep`, `sep` itself, and the rest;
      `(s, "", "")` when `sep` does not occur. */
  function Partition(s: string, sep: string): (r: (string, string, string))
    requires sep != []
    ensures r.0 + r.1 + r.2 == s
    ensures r.1 == sep || (r.1 == "" && r.2 == "")
    ensures r.1 == sep <==> Find(s, sep).Some?
    ensures r.1 == sep ==> forall j :: 0 <= j < |r.0| ==> !OccursAt(s, sep, j)
  {
    match Find(s, sep)
    case Some(i) =>
      assert s == s[..i] + sep + s[i + |sep|..];
      (s[..i], sep, s[i + |sep|..])
    case None => (s, "", "")
  }

  /** Partitioning `a + sep + b` at `sep` gives back `a` and `b` when `a + sep`
      contains `sep` only at its end, e.g. when neither `a` nor a suffix of `a`
      glued to a prefix of `sep` forms `sep`. */
  lemma {:induction false} PartitionConcat(a: string, sep: string, b: string)
    requires sep != []
    requires forall j :: 0 <= j < |a| ==> !OccursAt(a + sep, sep, j)
    ensures Partition(a + sep + b, sep) == (a, sep, b)
  {
    var s := a + sep + b;
    assert s[|a|..|a| + |sep|] == sep;
    assert OccursAt(s, sep, |a|);
    forall j | 0 <= j < |a|
      ensures !OccursAt(s, sep, j)
    {
      if OccursAt(s, sep, j) {
        assert j + |sep| <= |a| + |sep|;
        assert (a + sep)[j..j + |sep|] == s[j..j + |sep|];
        assert OccursAt(a + sep, sep, j);
      }
    }
    var f := Find(s, sep);
    assert f.Some? && f.value == |a|;
    assert s[..|a|] == a;
    assert s[|a| + |sep|..] == b;
  }

  /** Replaces every occurrence of the character `c` by the string `rep`
      (Python's `str.replace` with a one-character pattern). */
  function ReplaceChar(s: string, c: char, rep: string): (r: string)
    ensures c !in s ==> r == s
  {
    if s == [] then []
    else (if s[0] == c then rep else [s[0]]) + ReplaceChar(s[1..], c, rep)
  }

  lemma {:induction false} ReplaceCharAppend(s: string, t: string, c: char, rep: string)
    ensures ReplaceChar(s + t, c, rep) == ReplaceChar(s, c, rep) + ReplaceChar(t, c, rep)
    decreases |s|
  {
    if s != [] {
      assert (s + t)[1..] == s[1..] + t;
      ReplaceCharAppend(s[1..], t, c, rep);
    } else {
      assert s + t == t;
    }
  }

  /** Removes every occurrence of the string `pat` (`s.replace(pat, '')`),
      scanning left to right as Python does. */
  function RemoveAll(s: string, pat: string): (r: string)
    requires pat != []
    ensures |r| <= |s|
    ensures Find(s, pat).None? ==> r == s
    decreases |s|
  {
    match Find(s, pat)
    case None => s
    case Some(i) => s[..i] + RemoveAll(s[i + |pat|..], pat)
  }

  // ---------------------------------------------------------------------
  // Python's ordering of str (by code point) and of tuples of str
  // ---------------------------------------------------------------------

  /** `a < b` for Python strings: lexicographic by code point, a proper prefix first. */
  predicate StrLt(a: string, b: string)
  {
    if a == [] then b != []
    else if b == [] then false
    else if a[0] != b[0] then a[0] < b[0]
    else StrLt(a[1..], b[1..])
  }

  predicate StrLe(a: string, b: string)
  {
    StrLt(a, b) || a == b
  }

  lemma {:induction false} StrLtIrreflexive(a: string)
    ensures !StrLt(a, a)
  {
    if a != [] { StrLtIrreflexive(a[1..]); }
  }

  lemma {:induction false} StrLtAsymmetric(a: string, b: string)
    ensures !(StrLt(a, b) && StrLt(b, a))
  {
    if a != [] && b != [] && a[0] == b[0] { StrLtAsymmetric(a[1..], b[1..]); }
  }

  lemma {:induction false} StrLtTransitive(a: string, b: string, c: string)
    requires StrLt(a, b) && StrLt(b, c)
    ensures StrLt(a, c)
  {
    if a != [] && b != [] && c != [] && a[0] == b[0] && b[0] == c[0] {
      StrLtTransitive(a[1..], b[1..], c[1..]);
    }
  }

  lemma {:induction false} StrLtTotal(a: string, b: string)
    ensures StrLt(a, b) || a == b || StrLt(b, a)
  {
    if a != [] && b != [] && a[0] == b[0] {
      StrLtTotal(a[1..], b[1..]);
      if a[1..] == b[1..] {
        assert a == [a[0]] + a[1..] && b == [b[0]] + b[1..];
      }
    }
  }

  /** Lexicographic order on sequences of strings: Python's `<` on tuples of str. */
  predicate KeyLt(a: seq<string>, b: seq<string>)
  {
    if a == [] then b != []
    else if b == [] then false
    else if a[0] != b[0] then StrLt(a[0], b[0])
    else KeyLt(a[1..], b[1..])
  }

  predicate KeyLe(a: seq<string>, b: seq<string>)
  {
    KeyLt(a, b) || a == b
  }

  lemma {:induction false} KeyLtIrreflexive(a: seq<string>)
    ensures !KeyLt(a, a)
  {
    if a != [] { KeyLtIrreflexive(a[1..]); }
  }

  lemma {:induction false} KeyLtAsymmetric(a: seq<string>, b: seq<string>)
    ensures !(KeyLt(a, b) && KeyLt(b, a))
  {
    if a != [] && b != [] {
      if a[0] == b[0] { KeyLtAsymmetric(a[1..], b[1..]); }
      else { StrLtAsymmetric(a[0], b[0]); }
    }
  }

  lemma {:induction false} KeyLtTransitive(a: seq<string>, b: seq<string>, c: seq<string>)
    requires KeyLt(a, b) && KeyLt(b, c)
    ensures KeyLt(a, c)
  {
    if a != [] && b != [] && c != [] {
      if a[0] == b[0] && b[0] == c[0] {
        KeyLtTransitive(a[1..], b[1..], c[1..]);
      } else if a[0] != b[0] && b[0] != c[0] {
        StrLtTransitive(a[0], b[0], c[0]);
        if a[0] == c[0] { StrLtAsymmetric(a[0], b[0]); }
      }
    }
  }

  lemma {:induction false} KeyLtTotal(a: seq<string>, b: seq<string>)
    ensures KeyLt(a, b) || a == b || KeyLt(b, a)
  {
    if a != [] && b != [] {
      if a[0] == b[0] {
        KeyLtTotal(a[1..], b[1..]);
        if a[1..] == b[1..] {
          assert a == [a[0]] + a[1..] && b == [b[0]] + b[1..];
        }
      } else {
        StrLtTotal(a[0], b[0]);
      }
    }
  }

  lemma KeyLeTransitive(a: seq<string>, b: seq<string>, c: seq<string>)
    requires KeyLe(a, b) && KeyLe(b, c)
    ensures KeyLe(a, c)
  {
    if KeyLt(a, b) && KeyLt(b, c) { KeyLtTransitive(a, b, c); }
  }

  // ---------------------------------------------------------------------
  // Stable sorting by a key (Python's `sorted(xs, key=...)`)
  // ---------------------------------------------------------------------

  ghost predicate SortedBy<T>(s: seq<T>, key: T -> seq<string>)
  {
    forall i, j :: 0 <= i < j < |s| ==> KeyLe(key(s[i]), key(s[j]))
  }

  /** Inserts `x` after every element whose key is not greater than its own. */
  function InsertBy<T>(x: T, s: seq<T>, key: T -> seq<string>): (r: seq<T>)
    ensures multiset(r) == multiset(s) + multiset{x}
    ensures |r| == |s| + 1
  {
    if s == [] then [x]
    else if KeyLe(key(s[0]), key(x)) then
      assert s == [s[0]] + s[1..];
      [s[0]] + InsertBy(x, s[1..], key)
    else [x] + s
  }

  lemma {:induction false} InsertBySorted<T>(x: T, s: seq<T>, key: T -> seq<string>)
    requires SortedBy(s, key)
    ensures SortedBy(InsertBy(x, s, key), key)
    decreases |s|
  {
    if s == [] {
    } else if KeyLe(key(s[0]), key(x)) {
      InsertBySorted(x, s[1..], key);
      var r := InsertBy(x, s, key);
      var t := InsertBy(x, s[1..], key);
      assert r == [s[0]] + t;
      forall j | 0 < j < |r|
        ensures KeyLe(key(r[0]), key(r[j]))
      {
        assert r[j] in multiset(t);
        assert r[j] in multiset(s[1..]) + multiset{x};
        if r[j] in multiset(s[1..]) {
          var k :| 0 <= k < |s[1..]| && s[1..][k] == r[j];
          assert s[k + 1] == r[j];
        }
      }
    } else {
      var r := [x] + s;
      KeyLtTotal(key(s[0]), key(x));
      forall j | 0 < j < |r|
        ensures KeyLe(key(x), key(r[j]))
      {
        assert r[j] == s[j - 1];
        if j - 1 > 0 {
          assert KeyLe(key(s[0]), key(s[j - 1]));
          KeyLeTransitive(key(x), key(s[0]), key(s[j - 1]));
        }
      }
    }
  }

  /** `sorted(s, key=key)`: stable, so equal keys keep their input order. */
  function SortBy<T>(s: seq<T>, key: T -> seq<string>): (r: seq<T>)
    ensures |r| == |s|
    ensures multiset(r) == multiset(s)
  {
    if s == [] then []
    else
      assert s == s[..|s| - 1] + [s[|s| - 1]];
      InsertBy(s[|s| - 1], SortBy(s[..|s| - 1], key), key)
  }

  /** Sorting yields a sequence ordered by the key. */
  lemma {:induction false} SortBySorted<T>(s: seq<T>, key: T -> seq<string>)
    ensures SortedBy(SortBy(s, key), key)
    decreases |s|
  {
    if s != [] {
      SortBySorted(s[..|s| - 1], key);
      InsertBySorted(s[|s| - 1], SortBy(s[..|s| - 1], key), key);
    }
  }

  /** The elements of `s` that satisfy `p`, in order. */
  function FilterSeq<T(!new)>(s: seq<T>, p: T -> bool): (r: seq<T>)
    ensures |r| <= |s|
    ensures forall x :: x in r <==> x in s && p(x)
  {
    if s == [] then []
    else (if p(s[0]) then [s[0]] else []) + FilterSeq(s[1..], p)
  }

  /** Filters that agree everywhere keep the same elements. */
  lemma {:induction false} FilterSeqPointwise<T(!new)>(s: seq<T>, p: T -> bool, q: T -> bool)
    requires forall x :: p(x) == q(x)
    ensures FilterSeq(s, p) == FilterSeq(s, q)
    decreases |s|
  {
    if s != [] {
      FilterSeqPointwise(s[1..], p, q);
    }
  }

  lemma {:induction false} FilterSeqAppend<T(!new)>(s: seq<T>, t: seq<T>, p: T -> bool)
    ensures FilterSeq(s + t, p) == FilterSeq(s, p) + FilterSeq(t, p)
    decreases |s|
  {
    if s != [] {
      assert (s + t)[1..] == s[1..] + t;
      FilterSeqAppend(s[1..], t, p);
    } else {
      assert s + t == t;
    }
  }

  /** Nothing is kept when no element passes. */
  lemma {:induction false} FilterSeqEmpty<T(!new)>(s: seq<T>, p: T -> bool)
    requires forall y :: y in s ==> !p(y)
    ensures FilterSeq(s, p) == []
  {
    if s != [] {
      assert s[0] in s;
      FilterSeqEmpty(s[1..], p);
    }
  }

  /** The elements whose key is `k`. */
  function HasKey<T>(key: T -> seq<string>, k: seq<string>): T -> bool
  {
    x => key(x) == k
  }

  /** In a sorted sequence, no element has a key that the first element's key
      is not at most. */
  lemma NoKeyBelowHead<T>(s: seq<T>, key: T -> seq<string>, k: seq<string>)
    requires SortedBy(s, key) && s != [] && !KeyLe(key(s[0]), k)
    ensures forall y :: y in s ==> !HasKey(key, k)(y)
  {
    forall y | y in s ensures key(y) != k {
      var j :| 0 <= j < |s| && s[j] == y;
      assert j == 0 || KeyLe(key(s[0]), key(s[j]));
    }
  }

  /** Inserting into a sorted sequence puts `x` after every element with the
      same key. */
  lemma {:induction false} InsertByStable<T(!new)>(x: T, s: seq<T>, key: T -> seq<string>, k: seq<string>)
    requires SortedBy(s, key)
    ensures FilterSeq(InsertBy(x, s, key), HasKey(key, k)) ==
      FilterSeq(s, HasKey(key, k)) + (if key(x) == k then [x] else [])
    decreases |s|
  {
    if s == [] {
    } else if KeyLe(key(s[0]), key(x)) {
      InsertByStable(x, s[1..], key, k);
      FilterCons(s[0], InsertBy(x, s[1..], key), HasKey(key, k));
    } else {
      FilterCons(x, s, HasKey(key, k));
      if key(x) == k {
        NoKeyBelowHead(s, key, k);
        FilterSeqEmpty(s, HasKey(key, k));
      }
    }
  }

  /** `sorted` is stable: the elements with any one key keep their order. */
  lemma {:induction false} SortByStable<T(!new)>(s: seq<T>, key: T -> seq<string>, k: seq<string>)
    ensures FilterSeq(SortBy(s, key), HasKey(key, k)) == FilterSeq(s, HasKey(key, k))
    decreases |s|
  {
    if s != [] {
      SortByStable(s[..|s| - 1], key, k);
      SortBySorted(s[..|s| - 1], key);
      SortBySnoc(s, key);
      StableStep(s, SortBy(s[..|s| - 1], key), key, k);
    }
  }

  /** Inserting the last element of `s` into a sorted sequence whose elements
      with key `k` are those of the rest of `s`, in order, gives the elements
      of `s` with key `k` in order. */
  lemma StableStep<T(!new)>(s: seq<T>, sorted: seq<T>, key: T -> seq<string>, k: seq<string>)
    requires s != [] && SortedBy(sorted, key)
    requires FilterSeq(sorted, HasKey(key, k)) == FilterSeq(s[..|s| - 1], HasKey(key, k))
    ensures FilterSeq(InsertBy(s[|s| - 1], sorted, key), HasKey(key, k)) == FilterSeq(s, HasKey(key, k))
  {
    InsertByStable(s[|s| - 1], sorted, key, k);
    FilterSnoc(s, HasKey(key, k));
  }

  lemma SortBySnoc<T>(s: seq<T>, key: T -> seq<string>)
    requires s != []
    ensures SortBy(s, key) == InsertBy(s[|s| - 1], SortBy(s[..|s| - 1], key), key)
  {
  }

  /** Filtering a sequence with a known head. */
  lemma FilterCons<T(!new)>(y: T, t: seq<T>, p: T -> bool)
    ensures FilterSeq([y] + t, p) == (if p(y) then [y] else []) + FilterSeq(t, p)
  {
    assert ([y] + t)[1..] == t;
  }

  /** Filtering a non-empty sequence filters all but its last element, then
      keeps the last one if it passes. */
  lemma FilterSnoc<T(!new)>(s: seq<T>, p: T -> bool)
    requires s != []
    ensures FilterSeq(s, p) ==
      FilterSeq(s[..|s| - 1], p) + (if p(s[|s| - 1]) then [s[|s| - 1]] else [])
  {
    var init, x := s[..|s| - 1], s[|s| - 1];
    assert s == init + [x];
    FilterSeqAppend(init, [x], p);
    assert FilterSeq([x], p) == (if p(x) then [x] else []) + FilterSeq([], p);
  }

  // ---------------------------------------------------------------------
  // Strictly sorted, duplicate-free sequences of strings (`sorted(set(xs))`)
  // ---------------------------------------------------------------------

  ghost predicate StrictlySorted(s: seq<string>)
  {
    forall i, j :: 0 <= i < j < |s| ==> StrLt(s[i], s[j])
  }

  function InsertUnique(x: string, s: seq<string>): (r: seq<string>)
    ensures forall y :: y in r <==> y in s || y == x
  {
    if s == [] then [x]
    else if s[0] == x then s
    else if StrLt(s[0], x) then
      assert s == [s[0]] + s[1..];
      [s[0]] + InsertUnique(x, s[1..])
    else [x] + s
  }

  lemma {:induction false} InsertUniqueSorted(x: string, s: seq<string>)
    requires StrictlySorted(s)
    ensures StrictlySorted(InsertUnique(x, s))
    decreases |s|
  {
    if s != [] && s[0] != x {
      if StrLt(s[0], x) {
        InsertUniqueSorted(x, s[1..]);
        var t := InsertUnique(x, s[1..]);
        forall j | 0 <= j < |t|
          ensures StrLt(s[0], t[j])
        {
          assert t[j] in t;
          if t[j] != x {
            var k :| 0 <= k < |s[1..]| && s[1..][k] == t[j];
            assert s[k + 1] == t[j];
          }
        }
      } else {
        StrLtTotal(s[0], x);
        forall j | 0 < j < |s|
          ensures StrLt(x, s[j])
        {
          StrLtTransitive(x, s[0], s[j]);
        }
      }
    }
  }

  /** `sorted(set(xs))` for strings: each element once, in ascending order. */
  function SortedDistinct(xs: seq<string>): (r: seq<string>)
    ensures forall y :: y in r <==> y in xs
  {
    if xs == [] then []
    else
      var r := InsertUnique(xs[|xs| - 1], SortedDistinct(xs[..|xs| - 1]));
      assert forall y :: y in xs <==> y in xs[..|xs| - 1] || y == xs[|xs| - 1] by {
        assert xs == xs[..|xs| - 1] + [xs[|xs| - 1]];
      }
      r
  }

  lemma {:induction false} SortedDistinctSorted(xs: seq<string>)
    ensures StrictlySorted(SortedDistinct(xs))
    decreases |xs|
  {
    if xs != [] {
      SortedDistinctSorted(xs[..|xs| - 1]);
      InsertUniqueSorted(xs[|xs| - 1], SortedDistinct(xs[..|xs| - 1]));
    }
  }

  /** A strictly sorted sequence has no repeated element. */
  lemma StrictlySortedDistinct(s: seq<string>, i: int, j: int)
    requires StrictlySorted(s) && 0 <= i < j < |s|
    ensures s[i] != s[j]
  {
    StrLtIrreflexive(s[i]);
  }

  // ---------------------------------------------------------------------
  // Insertion-ordered dictionaries (Python's dict / OrderedDict) as
  // association lists with distinct keys
  // ---------------------------------------------------------------------

  function Keys<K, V>(od: seq<(K, V)>): (r: seq<K>)
    ensures |r| == |od|
    ensures forall i :: 0 <= i < |od| ==> r[i] == od[i].0
  {
    if od == [] then [] else [od[0].0] + Keys(od[1..])
  }

  ghost predicate DistinctKeys<K, V>(od: seq<(K, V)>)
  {
    forall i, j :: 0 <= i < j < |od| ==> od[i].0 != od[j].0
  }

  /** `od.get(k)` */
  function Get<K(==), V>(od: seq<(K, V)>, k: K): (r: Option<V>)
    ensures r.Some? <==> k in Keys(od)
    ensures r.Some? ==> (k, r.value) in od
  {
    if od == [] then None
    else if od[0].0 == k then Some(od[0].1)
    else
      assert Keys(od) == [od[0].0] + Keys(od[1..]);
      Get(od[1..], k)
  }

  /** In a dictionary with distinct keys, the entry for a key is the one stored under it. */
  lemma {:induction false} GetAt<K, V>(od: seq<(K, V)>, i: int)
    requires DistinctKeys(od) && 0 <= i < |od|
    ensures Get(od, od[i].0) == Some(od[i].1)
  {
    if i > 0 {
      GetAt(od[1..], i - 1);
    }
  }

  /** `od[k] = v`: an existing key keeps its position, a new key goes last. */
  function Put<K(==), V>(od: seq<(K, V)>, k: K, v: V): (r: seq<(K, V)>)
    ensures |r| == if k in Keys(od) then |od| else |od| + 1
  {
    if od == [] then [(k, v)]
    else if od[0].0 == k then [(k, v)] + od[1..]
    else
      assert Keys(od) == [od[0].0] + Keys(od[1..]);
      [od[0]] + Put(od[1..], k, v)
  }

  lemma {:induction false} PutKeys<K, V>(od: seq<(K, V)>, k: K, v: V)
    ensures Keys(Put(od, k, v)) == if k in Keys(od) then Keys(od) else Keys(od) + [k]
  {
    if od != [] {
      assert Keys(od) == [od[0].0] + Keys(od[1..]);
      if od[0].0 != k {
        PutKeys(od[1..], k, v);
        var t := Put(od[1..], k, v);
        assert Keys([od[0]] + t) == [od[0].0] + Keys(t);
      } else {
        assert Keys([(k, v)] + od[1..]) == [k] + Keys(od[1..]);
      }
    }
  }

  lemma PutDistinct<K, V>(od: seq<(K, V)>, k: K, v: V)
    requires DistinctKeys(od)
    ensures DistinctKeys(Put(od, k, v))
  {
    PutKeys(od, k, v);
    var r := Put(od, k, v);
    forall i, j | 0 <= i < j < |r| ensures r[i].0 != r[j].0 {
      assert Keys(r)[i] == r[i].0 && Keys(r)[j] == r[j].0;
      if j < |od| { assert Keys(od)[i] == od[i].0 && Keys(od)[j] == od[j].0; }
      else if k !in Keys(od) { assert Keys(od)[i] == od[i].0; }
    }
  }

  lemma {:induction false} PutGet<K, V>(od: seq<(K, V)>, k: K, v: V, k': K)
    ensures Get(Put(od, k, v), k') == if k' == k then Some(v) else Get(od, k')
  {
    if od != [] && od[0].0 != k {
      PutGet(od[1..], k, v, k');
    }
  }

  /** `od.setdefault(k, v)` (the returned value is not used by the callers modelled). */
  function SetDefault<K(==), V>(od: seq<(K, V)>, k: K, v: V): (r: seq<(K, V)>)
    ensures k in Keys(od) ==> r == od
    ensures k !in Keys(od) ==> r == od + [(k, v)]
  {
    if k in Keys(od) then od else od + [(k, v)]
  }

  lemma SetDefaultKeys<K, V>(od: seq<(K, V)>, k: K, v: V)
    ensures Keys(SetDefault(od, k, v)) == if k in Keys(od) then Keys(od) else Keys(od) + [k]
    ensures DistinctKeys(od) ==> DistinctKeys(SetDefault(od, k, v))
    ensures Get(SetDefault(od, k, v), k) == if k in Keys(od) then Get(od, k) else Some(v)
  {
    if k !in Keys(od) {
      AddedKeys(od, k, v);
      if DistinctKeys(od) {
        AddedDistinct(od, k, v);
      }
      GetAppend(od, k, v);
    }
  }

  lemma AddedKeys<K, V>(od: seq<(K, V)>, k: K, v: V)
    ensures Keys(od + [(k, v)]) == Keys(od) + [k]
  {
  }

  lemma AddedDistinct<K, V>(od: seq<(K, V)>, k: K, v: V)
    requires DistinctKeys(od) && k !in Keys(od)
    ensures DistinctKeys(od + [(k, v)])
  {
    var r := od + [(k, v)];
    forall i, j | 0 <= i < j < |r| ensures r[i].0 != r[j].0 {
      if j == |od| { assert Keys(od)[i] == r[i].0; }
    }
  }

  lemma {:induction false} GetAppend<K, V>(od: seq<(K, V)>, k: K, v: V)
    requires k !in Keys(od)
    ensures Get(od + [(k, v)], k) == Some(v)
    ensures forall k' :: k' != k ==> Get(od + [(k, v)], k') == Get(od, k')
  {
    if od != [] {
      assert Keys(od) == [od[0].0] + Keys(od[1..]);
      assert (od + [(k, v)])[1..] == od[1..] + [(k, v)];
      GetAppend(od[1..], k, v);
    }
  }

  /** `d[k].append(v)` on a `defaultdict(list)`: the list of an existing key
      grows in place, a new key goes last with a one-element list. */
  function AppendAt<K(==), V>(od: seq<(K, seq<V>)>, k: K, v: V): seq<(K, seq<V>)>
  {
    if od == [] then [(k, [v])]
    else if od[0].0 == k then [(k, od[0].1 + [v])] + od[1..]
    else [od[0]] + AppendAt(od[1..], k, v)
  }

  lemma {:induction false} AppendAtGet<K, V>(od: seq<(K, seq<V>)>, k: K, v: V, k': K)
    ensures Get(AppendAt(od, k, v), k') == if k' == k then Some(Get(od, k).GetOr([]) + [v]) else Get(od, k')
  {
    var r := AppendAt(od, k, v);
    if od == [] {
      assert r[1..] == [];
      assert Get(od, k).GetOr([]) + [v] == [v];
    } else if od[0].0 != k {
      AppendAtGet(od[1..], k, v, k');
      assert r[1..] == AppendAt(od[1..], k, v);
    } else {
      assert r[1..] == od[1..];
    }
  }

  lemma {:induction false} AppendAtKeys<K, V>(od: seq<(K, seq<V>)>, k: K, v: V)
    ensures Keys(AppendAt(od, k, v)) == if k in Keys(od) then Keys(od) else Keys(od) + [k]
  {
    if od != [] {
      var r := AppendAt(od, k, v);
      assert Keys(od) == [od[0].0] + Keys(od[1..]);
      assert Keys(r) == [r[0].0] + Keys(r[1..]);
      if od[0].0 != k {
        AppendAtKeys(od[1..], k, v);
        assert r[1..] == AppendAt(od[1..], k, v);
      } else {
        assert r[1..] == od[1..];
      }
    }
  }

  /** `list(zip(a, b))`: pairs up to the shorter input. */
  function Zip<A, B>(a: seq<A>, b: seq<B>): (r: seq<(A, B)>)
    ensures |r| == if |a| <= |b| then |a| else |b|
    ensures forall i :: 0 <= i < |r| ==> r[i] == (a[i], b[i])
  {
    if a == [] || b == [] then [] else [(a[0], b[0])] + Zip(a[1..], b[1..])
  }

  /** `dict(pairs)`: a later pair overrides the value of an earlier one with the
      same key, which keeps its first position. */
  function DictFromPairs<K(==), V>(pairs: seq<(K, V)>): seq<(K, V)>
  {
    if pairs == [] then []
    else Put(DictFromPairs(pairs[..|pairs| - 1]), pairs[|pairs| - 1].0, pairs[|pairs| - 1].1)
  }

  /** The value of the last pair with key `k`. */
  function LastValue<K(==), V>(pairs: seq<(K, V)>, k: K): (r: Option<V>)
    ensures r.Some? <==> k in Keys(pairs)
  {
    if pairs == [] then None
    else if pairs[|pairs| - 1].0 == k then Some(pairs[|pairs| - 1].1)
    else
      assert Keys(pairs) == Keys(pairs[..|pairs| - 1]) + [pairs[|pairs| - 1].0];
      LastValue(pairs[..|pairs| - 1], k)
  }

  /** Looking a key up in `dict(pairs)` gives the value of its last pair. */
  lemma {:induction false} DictFromPairsGet<K, V>(pairs: seq<(K, V)>, k: K)
    ensures Get(DictFromPairs(pairs), k) == LastValue(pairs, k)
  {
    if pairs != [] {
      var init, last := pairs[..|pairs| - 1], pairs[|pairs| - 1];
      DictFromPairsGet(init, k);
      PutGet(DictFromPairs(init), last.0, last.1, k);
    }
  }

  /** With distinct keys the last pair of a key is its only pair. */
  lemma {:induction false} LastValueDistinct<K, V>(pairs: seq<(K, V)>, k: K)
    requires DistinctKeys(pairs)
    ensures LastValue(pairs, k) == Get(pairs, k)
  {
    if pairs != [] {
      var init, last := pairs[..|pairs| - 1], pairs[|pairs| - 1];
      assert pairs == init + [last];
      assert Keys(pairs) == Keys(init) + [last.0];
      assert last.0 !in Keys(init) by {
        forall i | 0 <= i < |init| ensures Keys(init)[i] != last.0 {
          assert pairs[i].0 != pairs[|pairs| - 1].0;
        }
      }
      LastValueDistinct(init, k);
      GetAppend(init, last.0, last.1);
    }
  }
  // ---------------------------------------------------------------------
  // Mapping with the first error
  // ---------------------------------------------------------------------

  /** Applies `f` to every element left to right, stopping at the first error. */
  function MapResult<A, B>(xs: seq<A>, f: A -> Result<B>): Result<seq<B>>
  {
    if xs == [] then Ok([])
    else
      match MapResult(xs[..|xs| - 1], f)
      case Err(e) => Err(e)
      case Ok(done) =>
        match f(xs[|xs| - 1])
        case Err(e) => Err(e)
        case Ok(y) => Ok(done + [y])
  }

  /** The traversal succeeds iff `f` succeeds on every element, and then maps each
      element on its own. */
  lemma {:induction false} MapResultSpec<A, B>(xs: seq<A>, f: A -> Result<B>)
    ensures MapResult(xs, f).Ok? <==> forall i :: 0 <= i < |xs| ==> f(xs[i]).Ok?
    ensures MapResult(xs, f).Ok? ==> |MapResult(xs, f).value| == |xs|
    ensures MapResult(xs, f).Ok? ==> forall i :: 0 <= i < |xs| ==> MapResult(xs, f).value[i] == f(xs[i]).value
  {
    if xs != [] {
      var init := xs[..|xs| - 1];
      MapResultSpec(init, f);
      if MapResult(init, f).Ok? && f(xs[|xs| - 1]).Ok? {
        forall i | 0 <= i < |xs| ensures f(xs[i]).Ok? {
          if i < |init| { assert init[i] == xs[i]; }
        }
      } else if MapResult(init, f).Err? {
        var i :| 0 <= i < |init| && !f(init[i]).Ok?;
        assert init[i] == xs[i];
      }
    }
  }

  /** One more element. */
  lemma MapResultStep<A, B>(xs: seq<A>, i: nat, f: A -> Result<B>)
    requires i < |xs|
    ensures MapResult(xs[..i + 1], f) ==
      match MapResult(xs[..i], f)
      case Err(e) => Err(e)
      case Ok(done) =>
        match f(xs[i])
        case Err(e) => Err(e)
        case Ok(y) => Ok(done + [y])
  {
    assert xs[..i + 1][..i] == xs[..i];
  }

  /** Once a prefix fails, the whole traversal fails. */
  lemma {:induction false} MapResultSticky<A, B>(xs: seq<A>, k: nat, f: A -> Result<B>)
    requires k <= |xs| && MapResult(xs[..k], f).Err?
    ensures MapResult(xs, f).Err?
    decreases |xs| - k
  {
    if k < |xs| {
      MapResultStep(xs, k, f);
      MapResultSticky(xs, k + 1, f);
    } else {
      assert xs[..k] == xs;
    }
  }
  /** Replaces every element of `a` by its image under `f`, stopping at the first
      error; on success `a` holds the traversal's result. */
  method MapInPlace<A>(a: array<A>, f: A -> Result<A>) returns (r: Result<()>)
    modifies a
    ensures r.Ok? <==> MapResult(old(a[..]), f).Ok?
    ensures r.Ok? ==> a[..] == MapResult(old(a[..]), f).value
  {
    ghost var orig := a[..];
    var i := 0;
    while i < a.Length
      invariant 0 <= i <= a.Length
      invariant MapResult(orig[..i], f).Ok?
      invariant a[..i] == MapResult(orig[..i], f).value
      invariant a[i..] == orig[i..]
    {
      MapResultStep(orig, i, f);
      var t := f(a[i]);
      assert a[i] == orig[i];
      if t.Err? {
        MapResultSticky(orig, i + 1, f);
        assert orig[..a.Length] == orig;
        return Err(t.reason);
      }
      a[i] := t.value;
      assert a[..i + 1] == a[..i] + [t.value];
      i := i + 1;
    }
    assert orig[..i] == orig;
    assert a[..i] == a[..];
    return Ok(());
  }
  // ---------------------------------------------------------------------
  // Conjunction of checks that may raise
  // ---------------------------------------------------------------------

  /** `for c in cs: if not test(c): return False` then `return True`: the checks
      in order, stopping at the first that fails or raises. */
  function AllHold<C>(cs: seq<C>, test: C -> Result<bool>): Result<bool>
  {
    if cs == [] then Ok(true)
    else
      match test(cs[0])
      case Err(e) => Err(e)
      case Ok(false) => Ok(false)
      case Ok(true) => AllHold(cs[1..], test)
  }

  /** Check `i` is the first that does not hold. */
  ghost predicate FirstFailure<C>(cs: seq<C>, test: C -> Result<bool>, i: int)
  {
    0 <= i < |cs| && test(cs[i]) == Ok(false) && forall j :: 0 <= j < i ==> test(cs[j]) == Ok(true)
  }

  /** The conjunction holds iff every check holds, and is false iff some check
      fails after all earlier ones held (later checks are never run). */
  lemma {:induction false} AllHoldSpec<C>(cs: seq<C>, test: C -> Result<bool>)
    ensures AllHold(cs, test) == Ok(true) <==> forall i :: 0 <= i < |cs| ==> test(cs[i]) == Ok(true)
    ensures AllHold(cs, test) == Ok(false) <==> exists i :: FirstFailure(cs, test, i)
  {
    if cs != [] {
      var tail := cs[1..];
      AllHoldSpec(tail, test);
      assert forall i :: 0 <= i < |tail| ==> tail[i] == cs[i + 1];
      if test(cs[0]) == Ok(true) {
        if AllHold(tail, test) == Ok(false) {
          var i :| FirstFailure(tail, test, i);
          assert FirstFailure(cs, test, i + 1);
        }
        if exists i :: FirstFailure(cs, test, i) {
          var i :| FirstFailure(cs, test, i);
          assert FirstFailure(tail, test, i - 1);
        }
      } else if test(cs[0]) == Ok(false) {
        assert FirstFailure(cs, test, 0);
      } else {
        forall i | 0 < i < |cs| ensures !FirstFailure(cs, test, i) {
          assert test(cs[0]) != Ok(true);
        }
      }
    }
  }
  // ---------------------------------------------------------------------
  // Filtering with a test that may raise
  // ---------------------------------------------------------------------

  /** `[x for x in xs if test(x)]`: the kept elements in order, or the first error. */
  function FilterOk<T>(xs: seq<T>, test: T -> Result<bool>): Result<seq<T>>
  {
    if xs == [] then Ok([])
    else
      match FilterOk(xs[..|xs| - 1], test)
      case Err(e) => Err(e)
      case Ok(kept) =>
        match test(xs[|xs| - 1])
        case Err(e) => Err(e)
        case Ok(b) => Ok(if b then kept + [xs[|xs| - 1]] else kept)
  }

  /** The test as a predicate: it ran and said yes. */
  function Holds<T>(test: T -> Result<bool>): T -> bool
  {
    (x: T) => test(x) == Ok(true)
  }

  /** Filtering succeeds iff the test runs on every element. */
  lemma {:induction false} FilterOkOk<T>(xs: seq<T>, test: T -> Result<bool>)
    ensures FilterOk(xs, test).Ok? <==> forall i :: 0 <= i < |xs| ==> test(xs[i]).Ok?
  {
    if xs != [] {
      var init, last := xs[..|xs| - 1], xs[|xs| - 1];
      FilterOkOk(init, test);
      assert forall i :: 0 <= i < |init| ==> init[i] == xs[i];
      if FilterOk(init, test).Err? {
        var i :| 0 <= i < |init| && !test(init[i]).Ok?;
      }
    }
  }

  /** On success, filtering keeps exactly the elements the test accepts, in order. */
  lemma {:induction false} FilterOkValue<T(!new)>(xs: seq<T>, test: T -> Result<bool>)
    requires FilterOk(xs, test).Ok?
    ensures FilterOk(xs, test).value == FilterSeq(xs, Holds(test))
  {
    if xs != [] {
      var init, last := xs[..|xs| - 1], xs[|xs| - 1];
      FilterOkValue(init, test);
      assert xs == init + [last];
      FilterSeqAppend(init, [last], Holds(test));
      assert FilterSeq([last], Holds(test)) == if Holds(test)(last) then [last] else [];
    }
  }

  lemma FilterOkSpec<T(!new)>(xs: seq<T>, test: T -> Result<bool>)
    ensures FilterOk(xs, test).Ok? <==> forall i :: 0 <= i < |xs| ==> test(xs[i]).Ok?
    ensures FilterOk(xs, test).Ok? ==> FilterOk(xs, test).value == FilterSeq(xs, Holds(test))
  {
    FilterOkOk(xs, test);
    if FilterOk(xs, test).Ok? {
      FilterOkValue(xs, test);
    }
  }

  /** One more element. */
  lemma FilterOkStep<T>(xs: seq<T>, i: nat, test: T -> Result<bool>)
    requires i < |xs|
    ensures FilterOk(xs[..i + 1], test) ==
      match FilterOk(xs[..i], test)
      case Err(e) => Err(e)
      case Ok(kept) =>
        match test(xs[i])
        case Err(e) => Err(e)
        case Ok(b) => Ok(if b then kept + [xs[i]] else kept)
  {
    assert xs[..i + 1][..i] == xs[..i];
  }

  /** Once a prefix raises, the whole filter does. */
  lemma {:induction false} FilterOkSticky<T>(xs: seq<T>, k: nat, test: T -> Result<bool>)
    requires k <= |xs| && FilterOk(xs[..k], test).Err?
    ensures FilterOk(xs, test).Err?
    decreases |xs| - k
  {
    if k < |xs| {
      FilterOkStep(xs, k, test);
      FilterOkSticky(xs, k + 1, test);
    } else {
      assert xs[..k] == xs;
    }
  }
}
