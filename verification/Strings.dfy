/** The string functions of Go's standard library that the manager relies on: byte order, sorting,
joining, splitting and trimming. */
module Strings {

  /** Go's order on strings: lexicographic by byte, a proper prefix first. */
  predicate Less(a: string, b: string) {
    b != [] && (a == [] || a[0] < b[0] || (a[0] == b[0] && Less(a[1..], b[1..])))
  }

  /** In other words: `a` is a proper prefix of `b`, or has the smaller character where they first differ. */
  lemma {:induction false} LessIff(a: string, b: string)
    ensures Less(a, b) <==> (a <= b && |a| < |b|) || exists i :: DifferAt(a, b, i) && a[i] < b[i]
  {
    if a != [] && b != [] && a[0] == b[0] {
      LessIff(a[1..], b[1..]);
      assert a == [a[0]] + a[1..] && b == [b[0]] + b[1..];
      if i :| DifferAt(a[1..], b[1..], i) && a[1..][i] < b[1..][i] {
        assert DifferAt(a, b, i + 1) && a[i + 1] < b[i + 1];
      }
      if i :| DifferAt(a, b, i) && a[i] < b[i] {
        assert DifferAt(a[1..], b[1..], i - 1) && a[1..][i - 1] < b[1..][i - 1];
      }
    } else if a != [] && b != [] {
      if a[0] < b[0] {
        assert DifferAt(a, b, 0);
      }
      assert forall i :: DifferAt(a, b, i) ==> i == 0;
    }
  }

  /** `a` and `b` first differ at place `i`. */
  ghost predicate DifferAt(a: string, b: string, i: int) {
    0 <= i < |a| && i < |b| && a[i] != b[i] && forall k :: 0 <= k < i ==> a[k] == b[k]
  }

  lemma {:induction false} LessIrreflexive(a: string)
    ensures !Less(a, a)
  {
    if a != [] {
      LessIrreflexive(a[1..]);
    }
  }

  lemma {:induction false} LessTransitive(a: string, b: string, c: string)
    requires Less(a, b) && Less(b, c)
    ensures Less(a, c)
  {
    if a != [] && a[0] == b[0] && b[0] == c[0] {
      LessTransitive(a[1..], b[1..], c[1..]);
    }
  }

  lemma {:induction false} LessTotal(a: string, b: string)
    ensures a == b || Less(a, b) || Less(b, a)
  {
    if a != [] && b != [] && a[0] == b[0] {
      LessTotal(a[1..], b[1..]);
      assert a == [a[0]] + a[1..] && b == [b[0]] + b[1..];
    }
  }

  ghost predicate Increasing(s: seq<string>) {
    forall i, j :: 0 <= i < j < |s| ==> Less(s[i], s[j])
  }

  function ElementsOf(s: seq<string>): set<string> {
    set k | k in s
  }

  /** A strictly increasing sequence is determined by its elements. */
  lemma {:induction false} IncreasingIsUnique(s: seq<string>, t: seq<string>)
    requires Increasing(s) && Increasing(t) && ElementsOf(s) == ElementsOf(t)
    ensures s == t
  {
    EmptyElements(s);
    EmptyElements(t);
    if s != [] {
      if s[0] != t[0] {
        assert s[0] in ElementsOf(t) && t[0] in ElementsOf(s);
        var i :| 0 <= i < |t| && t[i] == s[0];
        var j :| 0 <= j < |s| && s[j] == t[0];
        LessTransitive(s[0], t[0], s[0]);
        LessIrreflexive(s[0]);
        assert false;
      }
      TailElements(s);
      TailElements(t);
      IncreasingIsUnique(s[1..], t[1..]);
      assert s == [s[0]] + s[1..] && t == [t[0]] + t[1..];
    }
  }

  lemma {:induction false} EmptyElements(s: seq<string>)
    ensures ElementsOf(s) == {} <==> s == []
  {
    if s != [] {
      assert s[0] in ElementsOf(s);
    }
  }

  lemma {:induction false} TailElements(s: seq<string>)
    requires s != [] && Increasing(s)
    ensures Increasing(s[1..]) && ElementsOf(s[1..]) == ElementsOf(s) - {s[0]}
  {
    forall k | k in s[1..]
      ensures k != s[0]
    {
      LessIrreflexive(k);
    }
    forall k | k in ElementsOf(s) - {s[0]}
      ensures k in s[1..]
    {
      var i :| 0 <= i < |s| && s[i] == k;
      assert s[1..][i - 1] == k;
    }
  }

  /** sort.Strings on keys without duplicates: the elements, in increasing order. */
  method SortStrings(keys: seq<string>) returns (sorted: seq<string>)
    requires forall i, j :: 0 <= i < j < |keys| ==> keys[i] != keys[j]
    ensures Increasing(sorted) && ElementsOf(sorted) == ElementsOf(keys)
    ensures |sorted| == |keys|
  {
    sorted := [];
    for n := 0 to |keys|
      invariant Increasing(sorted) && ElementsOf(sorted) == ElementsOf(keys[..n])
      invariant |sorted| == n
    {
      var k := keys[n];
      assert forall x :: x in sorted ==> x in ElementsOf(keys[..n]);
      var at := |sorted|;
      while at > 0 && Less(k, sorted[at - 1])
        invariant 0 <= at <= |sorted|
        invariant forall i :: at <= i < |sorted| ==> Less(k, sorted[i])
      {
        at := at - 1;
      }
      InsertKeepsIncreasing(sorted, k, at);
      assert keys[..n + 1] == keys[..n] + [k];
      sorted := sorted[..at] + [k] + sorted[at..];
    }
    assert keys[..|keys|] == keys;
  }

  lemma {:induction false} InsertKeepsIncreasing(s: seq<string>, k: string, at: nat)
    requires Increasing(s) && k !in s && at <= |s|
    requires at > 0 ==> !Less(k, s[at - 1])
    requires forall i :: at <= i < |s| ==> Less(k, s[i])
    ensures Increasing(s[..at] + [k] + s[at..])
    ensures ElementsOf(s[..at] + [k] + s[at..]) == ElementsOf(s) + {k}
  {
    forall i | 0 <= i < at
      ensures Less(s[i], k)
    {
      LessTotal(k, s[at - 1]);
      if i < at - 1 {
        LessTransitive(s[i], s[at - 1], k);
      }
    }
    forall x | x in ElementsOf(s) + {k}
      ensures x in s[..at] + [k] + s[at..]
    {
      if x in s {
        assert s == s[..at] + s[at..];
      }
    }
  }

  lemma {:induction false} PrependLeast(k: string, rest: seq<string>)
    requires Increasing(rest) && forall x :: x in ElementsOf(rest) ==> Less(k, x)
    ensures Increasing([k] + rest) && ElementsOf([k] + rest) == ElementsOf(rest) + {k}
  {
    forall j | 0 <= j < |rest|
      ensures Less(k, rest[j])
    {
      assert rest[j] in ElementsOf(rest);
    }
  }

  ghost function Least(keys: set<string>): (k: string)
    requires keys != {}
    ensures k in keys && forall x :: x in keys && x != k ==> Less(k, x)
    decreases |keys|
  {
    var k :| k in keys;
    if keys == {k} then k
    else
      var l := Least(keys - {k});
      LessTotal(k, l);
      if Less(k, l) then
        LessThanLeast(k, l, keys - {k});
        k
      else l
  }

  lemma {:induction false} LessThanLeast(k: string, l: string, keys: set<string>)
    requires Less(k, l) && forall x :: x in keys && x != l ==> Less(l, x)
    ensures forall x :: x in keys ==> Less(k, x)
  {
    forall x | x in keys && x != l
      ensures Less(k, x)
    {
      LessTransitive(k, l, x);
    }
  }

  lemma {:induction false} CanBeSorted(keys: set<string>)
    ensures exists s :: Increasing(s) && ElementsOf(s) == keys
    decreases |keys|
  {
    if keys == {} {
      assert Increasing([]) && ElementsOf([]) == {};
    } else {
      var k := Least(keys);
      CanBeSorted(keys - {k});
      var rest :| Increasing(rest) && ElementsOf(rest) == keys - {k};
      PrependLeast(k, rest);
    }
  }

  /** The keys of a Go map as slices.Sorted(maps.Keys(m)) lists them. */
  ghost function SortedKeys(keys: set<string>): (s: seq<string>)
    ensures Increasing(s) && ElementsOf(s) == keys
  {
    CanBeSorted(keys);
    var s :| Increasing(s) && ElementsOf(s) == keys;
    s
  }

  /** slices.Sorted(maps.Keys(m)): the keys come out of the map in any order. */
  method SortKeys(keys: set<string>) returns (sorted: seq<string>)
    ensures sorted == SortedKeys(keys)
  {
    var left, listed := keys, [];
    while left != {}
      invariant left <= keys && ElementsOf(listed) == keys - left
      invariant forall i, j :: 0 <= i < j < |listed| ==> listed[i] != listed[j]
      decreases left
    {
      var k :| k in left;
      assert forall x :: x in listed ==> x in ElementsOf(listed);
      assert ElementsOf(listed + [k]) == ElementsOf(listed) + {k};
      left, listed := left - {k}, listed + [k];
    }
    sorted := SortStrings(listed);
    IncreasingIsUnique(sorted, SortedKeys(keys));
  }

  /** strings.Join with a one-character separator. */
  function Join(parts: seq<string>, sep: char): string {
    if parts == [] then "" else if |parts| == 1 then parts[0] else parts[0] + [sep] + Join(parts[1..], sep)
  }

  /** strings.Split by a one-character separator: never empty. */
  function Split(s: string, sep: char): (parts: seq<string>)
    ensures parts != []
  {
    if s == [] then [""]
    else
      var rest := Split(s[1..], sep);
      if s[0] == sep then [""] + rest else [[s[0]] + rest[0]] + rest[1..]
  }

  lemma {:induction false} SplitWithoutSeparator(s: string, sep: char)
    requires sep !in s
    ensures Split(s, sep) == [s]
  {
    if s != [] {
      SplitWithoutSeparator(s[1..], sep);
      assert [s[0]] + s[1..] == s;
    }
  }

  lemma {:induction false} SplitHead(a: string, b: string, sep: char)
    requires sep !in a
    ensures Split(a + [sep] + b, sep) == [a] + Split(b, sep)
  {
    var s := a + [sep] + b;
    if a == [] {
      assert s[1..] == b;
    } else {
      assert s[1..] == a[1..] + [sep] + b;
      SplitHead(a[1..], b, sep);
      assert [a[0]] + a[1..] == a;
    }
  }

  /** Splitting undoes joining, except that an empty list joins to the same text as [""]. */
  lemma {:induction false} SplitJoin(parts: seq<string>, sep: char)
    requires forall p :: p in parts ==> sep !in p
    ensures Split(Join(parts, sep), sep) == if parts == [] then [""] else parts
  {
    if |parts| == 1 {
      SplitWithoutSeparator(parts[0], sep);
    } else if |parts| > 1 {
      SplitJoin(parts[1..], sep);
      SplitHead(parts[0], Join(parts[1..], sep), sep);
    }
  }

  /** Joining undoes splitting. */
  lemma {:induction false} JoinSplit(s: string, sep: char)
    ensures Join(Split(s, sep), sep) == s
  {
    if s != [] {
      var rest := Split(s[1..], sep);
      JoinSplit(s[1..], sep);
      if s[0] == sep {
        assert ([""] + rest)[1..] == rest;
        assert Join([""] + rest, sep) == [sep] + s[1..];
      } else {
        var parts := [[s[0]] + rest[0]] + rest[1..];
        assert parts[1..] == rest[1..];
        assert Join(parts, sep) == [s[0]] + Join(rest, sep);
      }
      assert s == [s[0]] + s[1..];
    }
  }

  /** strings.TrimPrefix(v, "v"). */
  function TrimV(v: string): string {
    if v != [] && v[0] == 'v' then v[1..] else v
  }

  /** `t` is `v` without its leading "v", if it has one. */
  ghost predicate WithoutV(v: string, t: string) {
    if "v" <= v then v == "v" + t else v == t
  }

  lemma {:induction false} TrimVIff(v: string, t: string)
    ensures WithoutV(v, t) <==> t == TrimV(v)
  {
    assert v != "" && v[0] == 'v' ==> v == "v" + v[1..];
    assert ("v" + t)[1..] == t;
  }

  ghost predicate AllSlashes(p: string) {
    forall i :: 0 <= i < |p| ==> p[i] == '/'
  }

  /** `t` is what is left of `p` without its leading and trailing slashes. */
  ghost predicate IsTrimOf(p: string, t: string) {
    && (t != "" ==> t[0] != '/' && t[|t| - 1] != '/')
    && exists i, j :: 0 <= i <= j <= |p| && t == p[i..j] && AllSlashes(p[..i]) && AllSlashes(p[j..])
  }

  /** The first place from `i` on that is not a slash, and the end of the last one before `j` that is not. */
  function SkipSlashes(p: string, i: nat): (r: nat)
    requires i <= |p|
    ensures i <= r <= |p|
    decreases |p| - i
  {
    if i < |p| && p[i] == '/' then SkipSlashes(p, i + 1) else i
  }

  function DropSlashes(p: string, i: nat, j: nat): (r: nat)
    requires i <= j <= |p|
    ensures i <= r <= j
  {
    if i < j && p[j - 1] == '/' then DropSlashes(p, i, j - 1) else j
  }

  /** strings.Trim(p, "/") */
  function TrimSlashes(p: string): string {
    var i := SkipSlashes(p, 0);
    p[i..DropSlashes(p, i, |p|)]
  }

  method Trim(p: string) returns (t: string)
    ensures t == TrimSlashes(p)
  {
    var i := 0;
    while i < |p| && p[i] == '/'
      invariant i <= |p| && SkipSlashes(p, 0) == SkipSlashes(p, i)
    {
      i := i + 1;
    }
    var j := |p|;
    while j > i && p[j - 1] == '/'
      invariant i <= j <= |p| && DropSlashes(p, i, |p|) == DropSlashes(p, i, j)
    {
      j := j - 1;
    }
    t := p[i..j];
  }

  lemma {:induction false} SkippedAreSlashes(p: string, i: nat)
    requires i <= |p|
    ensures forall x :: i <= x < SkipSlashes(p, i) ==> p[x] == '/'
    ensures SkipSlashes(p, i) < |p| ==> p[SkipSlashes(p, i)] != '/'
    decreases |p| - i
  {
    if i < |p| && p[i] == '/' {
      SkippedAreSlashes(p, i + 1);
    }
  }

  lemma {:induction false} DroppedAreSlashes(p: string, i: nat, j: nat)
    requires i <= j <= |p|
    ensures forall x :: DropSlashes(p, i, j) <= x < j ==> p[x] == '/'
    ensures DropSlashes(p, i, j) > i ==> p[DropSlashes(p, i, j) - 1] != '/'
  {
    if i < j && p[j - 1] == '/' {
      DroppedAreSlashes(p, i, j - 1);
    }
  }

  /** Trimming leaves the text without its leading and trailing slashes, and there is one such text. */
  lemma {:induction false} TrimSlashesIsTheTrim(p: string, t: string)
    ensures IsTrimOf(p, t) <==> t == TrimSlashes(p)
  {
    var i := SkipSlashes(p, 0);
    var j := DropSlashes(p, i, |p|);
    SkippedAreSlashes(p, 0);
    DroppedAreSlashes(p, i, |p|);
    assert AllSlashes(p[..i]) && AllSlashes(p[j..]) && TrimSlashes(p) == p[i..j];
    assert IsTrimOf(p, TrimSlashes(p));
    if IsTrimOf(p, t) {
      TrimIsUnique(p, t, TrimSlashes(p));
    }
  }

  lemma {:induction false} TrimIsUnique(p: string, t: string, u: string)
    requires IsTrimOf(p, t) && IsTrimOf(p, u)
    ensures t == u
  {
    var i, j := TrimCore(p, t);
    var k, l := TrimCore(p, u);
    SameCore(p, i, j, k, l);
  }

  lemma {:induction false} TrimCore(p: string, t: string) returns (i: nat, j: nat)
    requires IsTrimOf(p, t)
    ensures Core(p, i, j) && t == p[i..j] && (i < j ==> p[i] != '/' && p[j - 1] != '/')
  {
    var i', j' :| 0 <= i' <= j' <= |p| && t == p[i'..j'] && AllSlashes(p[..i']) && AllSlashes(p[j'..]);
    SlashesOutside(p, i', j');
    i, j := i', j';
    if i < j {
      assert t[0] == p[i..j][0] == p[i];
      assert t[|t| - 1] == p[i..j][j - i - 1] == p[j - 1];
    }
  }

  /** Everything outside of `p[i..j]` is a slash. */
  ghost predicate Core(p: string, i: int, j: int) {
    0 <= i <= j <= |p| && forall x :: 0 <= x < |p| && (x < i || j <= x) ==> p[x] == '/'
  }

  lemma {:induction false} SlashesOutside(p: string, i: nat, j: nat)
    requires i <= j <= |p| && AllSlashes(p[..i]) && AllSlashes(p[j..])
    ensures Core(p, i, j)
  {
    forall x | 0 <= x < |p| && (x < i || j <= x)
      ensures p[x] == '/'
    {
      if x < i {
        assert p[..i][x] == '/';
      } else {
        assert p[j..][x - j] == '/';
      }
    }
  }

  lemma {:induction false} SameCore(p: string, i: nat, j: nat, k: nat, l: nat)
    requires Core(p, i, j) && Core(p, k, l)
    requires i < j ==> p[i] != '/' && p[j - 1] != '/'
    requires k < l ==> p[k] != '/' && p[l - 1] != '/'
    ensures p[i..j] == p[k..l]
  {
  }

  /** A text that neither starts nor ends with a slash is kept; so trimming twice is trimming once. */
  lemma {:induction false} TrimmedStays(p: string)
    requires p != "" ==> p[0] != '/' && p[|p| - 1] != '/'
    ensures TrimSlashes(p) == p
  {
    assert p == p[0..|p|] && p[..0] == "" && p[|p|..] == "";
    assert AllSlashes(p[..0]) && AllSlashes(p[|p|..]);
    TrimSlashesIsTheTrim(p, p);
  }
}
