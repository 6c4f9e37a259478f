/** Shared building blocks: optional values, remote reads, and the collection helpers
    every store-backed handler uses (filtering, first match, sums, skip/limit pages). */
module Common {

  /** A value that may be absent (JavaScript `undefined`/`null`). */
  datatype Option<T> = None | Some(value: T) {
    function GetOr(default: T): T {
      match this
      case Some(v) => v
      case None => default
    }
  }

  /** The result of a read from a remote service (payment provider, mailer, language model):
      either the value, or a failure that the handler sees as a thrown error. */
  datatype Fetch<T> = Fetched(value: T) | Unavailable

  /** How the payment provider answers a call whose errors the handler tells apart: a permission
      error, or any other failure. */
  datatype ProviderAnswer<T> = Answered(value: T) | PermissionDenied | ProviderFailed

  /** A required string path passes Mongoose's `required` check only when it is a non-empty string. */
  predicate Present(s: string) {
    s != ""
  }

  predicate PresentOpt(s: Option<string>) {
    s.Some? && s.value != ""
  }

  function Min(a: int, b: int): int {
    if a <= b then a else b
  }

  function Abs(n: int): nat {
    if n < 0 then -n else n
  }
}

module Seqs {
  import opened Common

  /** The elements of `s` satisfying `p`, in order (a Mongo `find` with a filter, or `Array.filter`). */
  function Filter<T(!new)>(s: seq<T>, p: T -> bool): (r: seq<T>)
    ensures |r| <= |s|
    ensures forall i :: 0 <= i < |r| ==> p(r[i])
    ensures forall x :: multiset(r)[x] == if p(x) then multiset(s)[x] else 0
    ensures forall x :: x in r <==> x in s && p(x)
  {
    if |s| == 0 then []
    else
      var rest := Filter(s[1..], p);
      assert s == [s[0]] + s[1..];
      if p(s[0]) then [s[0]] + rest else rest
  }

  /** Filtering keeps everything exactly when every element passes. */
  lemma {:induction false} FilterAll<T(!new)>(s: seq<T>, p: T -> bool)
    requires forall i :: 0 <= i < |s| ==> p(s[i])
    ensures Filter(s, p) == s
  {
    if |s| > 0 {
      FilterAll(s[1..], p);
    }
  }

  /** Filtering distributes over concatenation. */
  lemma {:induction false} FilterAppend<T(!new)>(a: seq<T>, b: seq<T>, p: T -> bool)
    ensures Filter(a + b, p) == Filter(a, p) + Filter(b, p)
  {
    if |a| == 0 {
      assert a + b == b;
    } else {
      assert (a + b)[1..] == a[1..] + b;
      FilterAppend(a[1..], b, p);
    }
  }

  /** How many elements satisfy `p`, counted from the front as a loop over the array does. */
  function Count<T>(s: seq<T>, p: T -> bool): (n: nat)
    ensures n <= |s|
  {
    if |s| == 0 then 0 else Count(s[..|s| - 1], p) + if p(s[|s| - 1]) then 1 else 0
  }

  /** The count is the length of the filtered sequence. */
  lemma {:induction false} CountIsFilterLength<T(!new)>(s: seq<T>, p: T -> bool)
    ensures Count(s, p) == |Filter(s, p)|
  {
    if |s| > 0 {
      var j := |s| - 1;
      CountIsFilterLength(s[..j], p);
      assert s == s[..j] + [s[j]];
      FilterAppend(s[..j], [s[j]], p);
    }
  }

  /** The index of the first element satisfying `p` (Mongo `findOne` on an unsorted collection). */
  function FirstIndex<T>(s: seq<T>, p: T -> bool): (r: Option<nat>)
    ensures r.Some? ==> r.value < |s| && p(s[r.value])
    ensures r.Some? ==> forall j :: 0 <= j < r.value ==> !p(s[j])
    ensures r.None? <==> forall j :: 0 <= j < |s| ==> !p(s[j])
  {
    if |s| == 0 then None
    else if p(s[0]) then Some(0)
    else
      match FirstIndex(s[1..], p)
      case None => None
      case Some(i) => Some(i + 1)
  }

  function Sum(s: seq<int>): int {
    if |s| == 0 then 0 else s[0] + Sum(s[1..])
  }

  lemma {:induction false} SumAppend(a: seq<int>, b: seq<int>)
    ensures Sum(a + b) == Sum(a) + Sum(b)
  {
    if |a| == 0 {
      assert a + b == b;
    } else {
      assert (a + b)[1..] == a[1..] + b;
      SumAppend(a[1..], b);
    }
  }

  /** Mongo's `.skip(skip).limit(limit)`: drop the first `skip` elements and keep at most `limit`;
      a limit of 0 means "no limit". */
  function Page<T>(s: seq<T>, skip: nat, limit: nat): (r: seq<T>)
    ensures skip >= |s| ==> |r| == 0
    ensures skip < |s| && limit == 0 ==> |r| == |s| - skip
    ensures skip < |s| && limit > 0 ==> |r| == Min(limit, |s| - skip)
    ensures forall i :: 0 <= i < |r| ==> skip + i < |s| && r[i] == s[skip + i]
  {
    if skip >= |s| then []
    else if limit == 0 || skip + limit >= |s| then s[skip..]
    else s[skip..skip + limit]
  }

  /** Two adjacent windows of sizes `n` and `m` make up the window of size `n + m`. */
  lemma PageSplit<T>(s: seq<T>, skip: nat, n: nat, m: nat)
    requires n > 0 && m > 0
    ensures Page(s, skip, n) + Page(s, skip + n, m) == Page(s, skip, n + m)
  {
    var a, b, c := Page(s, skip, n), Page(s, skip + n, m), Page(s, skip, n + m);
    assert |a + b| == |c|;
    forall i | 0 <= i < |c| ensures (a + b)[i] == c[i] {
      if i >= |a| {
        assert |a| == n;
      }
    }
  }

  /** `s` without its element at `i` (a delete of one document found by index). */
  function RemoveAt<T>(s: seq<T>, i: nat): (r: seq<T>)
    requires i < |s|
    ensures |r| == |s| - 1
    ensures forall j :: 0 <= j < |r| ==> r[j] == if j < i then s[j] else s[j + 1]
    ensures forall j :: 0 <= j < |s| && j != i ==> s[j] in r
    ensures forall x :: x in r ==> x in s
  {
    var r := s[..i] + s[i + 1..];
    assert forall j :: 0 <= j < |r| ==> r[j] == if j < i then s[j] else s[j + 1];
    assert forall j :: 0 <= j < |s| && j != i ==> s[j] == r[if j < i then j else j - 1];
    r
  }

  /** The number of documents a page-numbered listing skips: `(page - 1) * limit`. */
  function PageSkip(page: int, limit: int): int {
    (page - 1) * limit
  }

  /** `Math.ceil(count / size)` for a positive page size. */
  function CeilDiv(count: int, size: int): (r: int)
    requires size > 0
    ensures (r - 1) * size < count <= r * size
  {
    -((-count) / size)
  }
}

module Sorting {
  import opened Common
  import Seqs

  /** `le` orders every pair and is transitive: what a sort comparator must be. */
  ghost predicate TotalPreorder<T(!new)>(le: (T, T) -> bool) {
    && (forall a, b :: le(a, b) || le(b, a))
    && (forall a, b, c :: le(a, b) && le(b, c) ==> le(a, c))
  }

  predicate SortedBy<T>(s: seq<T>, le: (T, T) -> bool) {
    forall i, j :: 0 <= i < j < |s| ==> le(s[i], s[j])
  }

  /** Inserts `x` before the first element it may precede; earlier elements stay first among equals. */
  function Insert<T(!new)>(x: T, s: seq<T>, le: (T, T) -> bool): (r: seq<T>)
    requires TotalPreorder(le)
    requires SortedBy(s, le)
    ensures multiset(r) == multiset(s) + multiset{x}
    ensures SortedBy(r, le)
  {
    if |s| == 0 then [x]
    else if le(x, s[0]) then
      assert forall j :: 0 <= j < |s| ==> le(x, s[j]);
      [x] + s
    else
      var rest := Insert(x, s[1..], le);
      assert s == [s[0]] + s[1..];
      assert forall e :: e in rest ==> e == x || e in s[1..] by {
        forall e | e in rest ensures e == x || e in s[1..] {
          assert multiset(rest)[e] > 0;
        }
      }
      assert forall e :: e in rest ==> le(s[0], e);
      assert forall i :: 0 < i < |[s[0]] + rest| ==> ([s[0]] + rest)[i] == rest[i - 1];
      [s[0]] + rest
  }

  /** Filtering a sorted sequence leaves it sorted (a query sorted first and filtered after). */
  lemma {:induction false} FilterKeepsSorted<T(!new)>(s: seq<T>, le: (T, T) -> bool, p: T -> bool)
    requires SortedBy(s, le)
    ensures SortedBy(Seqs.Filter(s, p), le)
  {
    if |s| > 0 {
      var tail := s[1..];
      assert SortedBy(tail, le) by {
        forall i, j | 0 <= i < j < |tail| ensures le(tail[i], tail[j]) {
          assert tail[i] == s[i + 1] && tail[j] == s[j + 1];
        }
      }
      FilterKeepsSorted(tail, le, p);
      if p(s[0]) {
        var rest := Seqs.Filter(tail, p);
        forall y | y in rest ensures le(s[0], y) {
          var k :| 0 <= k < |tail| && tail[k] == y;
          assert tail[k] == s[k + 1];
        }
        ConsSorted(s[0], rest, le);
      }
    }
  }

  lemma ConsSorted<T>(x: T, rest: seq<T>, le: (T, T) -> bool)
    requires SortedBy(rest, le) && forall y :: y in rest ==> le(x, y)
    ensures SortedBy([x] + rest, le)
  {
    var r := [x] + rest;
    forall i, j | 0 <= i < j < |r| ensures le(r[i], r[j]) {
      assert r[j] == rest[j - 1];
      if i > 0 {
        assert r[i] == rest[i - 1];
      }
    }
  }

  /** Sequences with the same multiset hold the same elements. */
  lemma SameElements<T>(a: seq<T>, b: seq<T>)
    requires multiset(a) == multiset(b)
    ensures forall x :: x in a <==> x in b
  {
    assert forall x :: x in a <==> x in multiset(a);
    assert forall x :: x in b <==> x in multiset(b);
  }

  /** In a sorted sequence, the first `n` elements come before every element left out of them. */
  lemma PrefixComesFirst<T>(s: seq<T>, le: (T, T) -> bool, n: nat)
    requires SortedBy(s, le) && n <= |s|
    ensures forall t, i :: t in s && t !in s[..n] && 0 <= i < n ==> le(s[i], t)
  {
    forall t, i | t in s && t !in s[..n] && 0 <= i < n
      ensures le(s[i], t)
    {
      var k :| 0 <= k < |s| && s[k] == t;
      assert k >= n;
    }
  }

  /** Mongo's `.sort(...).limit(n)`: the first `n` after sorting, so nothing left out precedes
      anything taken. */
  function TopBy<T(!new)>(s: seq<T>, le: (T, T) -> bool, n: nat): (r: seq<T>)
    requires TotalPreorder(le)
    ensures |r| == Min(n, |s|)
    ensures forall i :: 0 <= i < |r| ==> r[i] in s
    ensures multiset(r) <= multiset(s)
    ensures SortedBy(r, le)
    ensures forall t, i :: t in s && t !in r && 0 <= i < |r| ==> le(r[i], t)
  {
    var sorted := SortBy(s, le);
    var k := Min(n, |sorted|);
    SameElements(sorted, s);
    PrefixComesFirst(sorted, le, k);
    assert sorted == sorted[..k] + sorted[k..];
    sorted[..k]
  }

  /** A stable insertion sort (JavaScript's `Array.prototype.sort` and Mongo's `.sort()` both order by a key). */
  function SortBy<T(!new)>(s: seq<T>, le: (T, T) -> bool): (r: seq<T>)
    requires TotalPreorder(le)
    ensures multiset(r) == multiset(s)
    ensures |r| == |s|
    ensures SortedBy(r, le)
  {
    if |s| == 0 then []
    else
      assert s == [s[0]] + s[1..];
      var r := Insert(s[0], SortBy(s[1..], le), le);
      assert |r| == |multiset(r)| == |multiset(s)| == |s|;
      r
  }
}

module Text {
  import opened Common
  import Seqs

  predicate StartsWith(s: string, prefix: string) {
    |prefix| <= |s| && s[..|prefix|] == prefix
  }

  function LowerChar(c: char): char {
    if 'A' <= c <= 'Z' then (c as int + 32) as char else c
  }

  function UpperChar(c: char): char {
    if 'a' <= c <= 'z' then (c as int - 32) as char else c
  }

  /** `toLowerCase()` on the ASCII letters. */
  function Lower(s: string): (r: string)
    ensures |r| == |s|
    ensures forall i :: 0 <= i < |s| ==> r[i] == LowerChar(s[i])
  {
    seq(|s|, i requires 0 <= i < |s| => LowerChar(s[i]))
  }

  /** `toUpperCase()` on the ASCII letters. */
  function Upper(s: string): (r: string)
    ensures |r| == |s|
    ensures forall i :: 0 <= i < |s| ==> r[i] == UpperChar(s[i])
  {
    seq(|s|, i requires 0 <= i < |s| => UpperChar(s[i]))
  }

  /** Binary string order, character by character with a prefix first (Mongo's default collation
      on a `.sort()` by a string field). */
  predicate LexLe(a: string, b: string) {
    |a| == 0 || (|b| > 0 && (a[0] < b[0] || (a[0] == b[0] && LexLe(a[1..], b[1..]))))
  }

  lemma {:induction false} LexTotal(a: string, b: string)
    ensures LexLe(a, b) || LexLe(b, a)
  {
    if |a| > 0 && |b| > 0 && a[0] == b[0] {
      LexTotal(a[1..], b[1..]);
    }
  }

  lemma {:induction false} LexTrans(a: string, b: string, c: string)
    requires LexLe(a, b) && LexLe(b, c)
    ensures LexLe(a, c)
  {
    if |a| > 0 && a[0] == b[0] && b[0] == c[0] {
      LexTrans(a[1..], b[1..], c[1..]);
    }
  }

  /** Strings that order both ways are equal. */
  lemma {:induction false} LexAntisymmetric(a: string, b: string)
    requires LexLe(a, b) && LexLe(b, a)
    ensures a == b
  {
    if |a| > 0 {
      LexAntisymmetric(a[1..], b[1..]);
      assert a == [a[0]] + a[1..] && b == [b[0]] + b[1..];
    }
  }

  /** The characters matched by the regular-expression class `\s`: ECMAScript's WhiteSpace (tab,
      vertical tab, form feed, space, no-break space, byte-order mark and the Unicode space
      separators) and its LineTerminators (line feed, carriage return, line and paragraph separator). */
  predicate IsSpace(c: char) {
    c == ' ' || c == '\t' || c == '\n' || c == '\r' || c == '\U{000B}' || c == '\U{000C}'
    || c == '\U{00A0}' || c == '\U{FEFF}' || c == '\U{1680}' || ('\U{2000}' <= c <= '\U{200A}')
    || c == '\U{2028}' || c == '\U{2029}' || c == '\U{202F}' || c == '\U{205F}' || c == '\U{3000}'
  }

  function NotSpace(c: char): bool {
    !IsSpace(c)
  }

  /** Lower-casing works character by character, so it distributes over concatenation. */
  lemma LowerAppend(a: string, b: string)
    ensures Lower(a + b) == Lower(a) + Lower(b)
  {
    assert forall i :: 0 <= i < |a + b| ==> Lower(a + b)[i] == (Lower(a) + Lower(b))[i];
  }

  /** `s.replace(/\s+/g, '')`. */
  function RemoveWhitespace(s: string): (r: string)
    ensures forall i :: 0 <= i < |r| ==> !IsSpace(r[i])
    ensures forall c :: c in r <==> c in s && !IsSpace(c)
  {
    Seqs.Filter(s, NotSpace)
  }

  /** A separator that occurs in neither piece on the right fixes where the left side splits. */
  lemma SeparatorUnique(a: string, b: string, p: string, c: string, sep: char)
    requires sep !in p && sep !in c
    requires a + [sep] + b == p + [sep] + c
    ensures a == p && b == c
  {
    var s := p + [sep] + c;
    assert forall i :: 0 <= i < |p| ==> s[i] == p[i] != sep;
    assert forall i :: |p| < i < |s| ==> s[i] == c[i - |p| - 1] != sep;
    assert s[|a|] == sep;
    assert |a| == |p|;
    assert a == s[..|a|];
    assert b == s[|a| + 1..];
  }

  /** JavaScript `s.split(sep)` for a one-character separator: at least one piece, and no piece holds
      the separator. */
  function Split(s: string, sep: char): (r: seq<string>)
    ensures |r| > 0
    ensures forall i :: 0 <= i < |r| ==> sep !in r[i]
  {
    if |s| == 0 then [""]
    else
      var rest := Split(s[1..], sep);
      if s[0] == sep then [""] + rest else [[s[0]] + rest[0]] + rest[1..]
  }

  /** JavaScript `parts.join(sep)`. */
  function Join(parts: seq<string>, sep: char): string {
    if |parts| == 0 then ""
    else if |parts| == 1 then parts[0]
    else parts[0] + [sep] + Join(parts[1..], sep)
  }

  /** Joining the pieces of a split with the same separator gives the string back. */
  lemma {:induction false} JoinSplit(s: string, sep: char)
    ensures Join(Split(s, sep), sep) == s
  {
    if |s| > 0 {
      var rest := Split(s[1..], sep);
      JoinSplit(s[1..], sep);
      if s[0] != sep {
        JoinConsFirst(s[0], rest, sep);
      }
      assert [s[0]] + s[1..] == s;
    }
  }

  /** Putting a character in front of the first piece puts it in front of the join. */
  lemma JoinConsFirst(c: char, parts: seq<string>, sep: char)
    requires |parts| > 0
    ensures Join([[c] + parts[0]] + parts[1..], sep) == [c] + Join(parts, sep)
  {
    var q := [[c] + parts[0]] + parts[1..];
    assert q[0] == [c] + parts[0] && q[1..] == parts[1..];
  }

  lemma {:induction false} SplitNoSeparator(p: string, sep: char)
    requires sep !in p
    ensures Split(p, sep) == [p]
  {
    if |p| > 0 {
      SplitNoSeparator(p[1..], sep);
      assert [p[0]] + p[1..] == p;
    }
  }

  lemma {:induction false} SplitAfterPiece(p: string, sep: char, t: string)
    requires sep !in p
    ensures Split(p + [sep] + t, sep) == [p] + Split(t, sep)
  {
    if |p| == 0 {
      assert p + [sep] + t == [sep] + t;
      assert ([sep] + t)[1..] == t;
    } else {
      assert (p + [sep] + t)[1..] == p[1..] + [sep] + t;
      SplitAfterPiece(p[1..], sep, t);
      assert [p[0]] + p[1..] == p;
    }
  }

  /** Splitting a join gives the pieces back when no piece contains the separator. */
  lemma {:induction false} SplitJoin(parts: seq<string>, sep: char)
    requires |parts| > 0
    requires forall i :: 0 <= i < |parts| ==> sep !in parts[i]
    ensures Split(Join(parts, sep), sep) == parts
  {
    if |parts| == 1 {
      SplitNoSeparator(parts[0], sep);
    } else {
      SplitJoin(parts[1..], sep);
      SplitAfterPiece(parts[0], sep, Join(parts[1..], sep));
      assert [parts[0]] + parts[1..] == parts;
    }
  }
}
