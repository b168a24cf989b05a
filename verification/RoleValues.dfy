/** Comparing a declared role value with the one Vault reads back: internal/vault/roles.go,
sameRoleValue and roleUpToDate. */
module RoleValues {
  import opened Requests

  /** A float64.  Signed zeros are one number, as Go's == has it. */
  datatype Float = NaN | Finite(r: real) | Infinite(positive: bool)

  predicate FloatEquals(a: Float, b: Float) {
    a != NaN && a == b
  }

  /** A value decoded from the ConfigMap's YAML or from Vault's JSON. */
  datatype Value =
    | Null
    | Number(f: Float)
    | JsonNumber(text: string)
    | Text(s: string)
    | Bool(b: bool)
    | Time(t: string)
    | List(items: seq<Value>)
    | Object(fields: map<string, Value>)

  type Body = map<string, Value>

  /** Number and duration parsing: `number` is json.Number.Float64, `seconds` is what asSeconds reads
      in a string with time.ParseDuration or strconv.ParseFloat. */
  datatype Reader = Reader(number: string -> Option<Float>, seconds: string -> Option<Float>)

  function AsNumber(rd: Reader, v: Value): Option<Float> {
    match v
    case Number(f) => Some(f)
    case JsonNumber(text) => rd.number(text)
    case _ => None
  }

  function AsSeconds(rd: Reader, v: Value): Option<Float> {
    if v.Text? then rd.seconds(v.s) else None
  }

  /** `w` is `v` or lies in it at some depth. */
  ghost predicate PartOf(w: Value, v: Value)
    decreases v
  {
    || w == v
    || (v.List? && exists i :: 0 <= i < |v.items| && PartOf(w, v.items[i]))
    || (v.Object? && exists k :: k in v.fields && PartOf(w, v.fields[k]))
  }

  predicate EmptyList(v: Value) {
    v.Null? || (v.List? && v.items == [])
  }

  // ----- The reference: equality of canonical forms -----

  datatype Canon =
    | CNumber(f: Float)
    | CJsonNumber(text: string)
    | CText(s: string)
    | CBool(b: bool)
    | CTime(t: string)
    | CList(items: multiset<Canon>)
    | CObject(fields: map<string, Canon>)

  /** The number a value stands for: itself, or the seconds of a duration. */
  function Quantity(rd: Reader, v: Value): Option<Float> {
    if AsNumber(rd, v).Some? then AsNumber(rd, v) else AsSeconds(rd, v)
  }

  /** Numbers and durations by seconds, null as the empty list, lists as multisets, objects key for key. */
  function Canonical(rd: Reader, v: Value): Canon
    decreases v
  {
    if Quantity(rd, v).Some? then CNumber(Quantity(rd, v).value)
    else
      match v
      case Null => CList(multiset{})
      case Number(f) => CNumber(f)
      case JsonNumber(text) => CJsonNumber(text)
      case Text(s) => CText(s)
      case Bool(b) => CBool(b)
      case Time(t) => CTime(t)
      case List(items) => CList(multiset(CanonicalItems(rd, items)))
      case Object(fields) => CObject(map k | k in fields :: Canonical(rd, fields[k]))
  }

  function CanonicalItems(rd: Reader, items: seq<Value>): (cs: seq<Canon>)
    ensures |cs| == |items|
    ensures forall i :: 0 <= i < |items| ==> cs[i] == Canonical(rd, items[i])
    decreases items
  {
    if items == [] then [] else [Canonical(rd, items[0])] + CanonicalItems(rd, items[1..])
  }

  /** No part of the value is a NaN, which differs even from itself. */
  predicate NaNFree(rd: Reader, v: Value)
    decreases v
  {
    && Quantity(rd, v) != Some(NaN)
    && (v.List? ==> forall i :: 0 <= i < |v.items| ==> NaNFree(rd, v.items[i]))
    && (v.Object? ==> forall k :: k in v.fields ==> NaNFree(rd, v.fields[k]))
  }

  ghost predicate Same(rd: Reader, got: Value, want: Value) {
    NaNFree(rd, got) && NaNFree(rd, want) && Canonical(rd, got) == Canonical(rd, want)
  }

  ghost predicate UpToDate(rd: Reader, existing: Body, desired: Body) {
    forall k :: k in desired ==> k in existing && Same(rd, existing[k], desired[k])
  }

  // ----- The code -----

  /** sameRoleValue: equality of canonical forms, and nothing equals a NaN. */
  method SameRoleValue(rd: Reader, got: Value, want: Value) returns (same: bool)
    ensures same == Same(rd, got, want) == Alike(rd, got, want)
    decreases want, 2
  {
    SameIsAlike(rd, got, want);
    if got.Null? || want.Null? {
      CanonicalEmptyList(rd, got);
      CanonicalEmptyList(rd, want);
      return EmptyList(got) && EmptyList(want);
    }
    if AsNumber(rd, want).Some? {
      var wn := AsNumber(rd, want).value;
      if AsNumber(rd, got).Some? {
        return FloatEquals(AsNumber(rd, got).value, wn);
      }
      if AsSeconds(rd, got).Some? {
        return FloatEquals(AsSeconds(rd, got).value, wn);
      }
      return false;
    }
    if AsSeconds(rd, want).Some? {
      var ws := AsSeconds(rd, want).value;
      if AsNumber(rd, got).Some? {
        return FloatEquals(AsNumber(rd, got).value, ws);
      }
      if AsSeconds(rd, got).Some? {
        return FloatEquals(AsSeconds(rd, got).value, ws);
      }
      return false;
    }
    if want.List? {
      if !got.List? || |got.items| != |want.items| {
        assert got.List? ==> |multiset(CanonicalItems(rd, got.items))| != |multiset(CanonicalItems(rd, want.items))|;
        return false;
      }
      same := SameItems(rd, got.items, want.items, want);
      return;
    }
    if want.Object? {
      if !got.Object? || |got.fields| != |want.fields| {
        if got.Object? {
          CanonicalKeepsKeys(rd, got);
          CanonicalKeepsKeys(rd, want);
          assert |got.fields.Keys| != |want.fields.Keys|;
        }
        return false;
      }
      same := RoleUpToDate(rd, got.fields, want.fields, want);
      UpToDateObjects(rd, got, want);
      return;
    }
    same := got == want;
  }

  /** The list case of sameRoleValue: every wanted item takes the first unused equal item. */
  method SameItems(rd: Reader, gl: seq<Value>, wl: seq<Value>, ghost whole: Value) returns (same: bool)
    requires |gl| == |wl|
    requires forall w :: w in wl ==> w < whole
    ensures same == Same(rd, List(gl), List(wl))
    decreases whole, 1
  {
    var used := new bool[|gl|](_ => false);
    NothingMatchedYet(rd, gl, wl, used[..]);
    for n := 0 to |wl|
      invariant Matched(rd, gl, wl, used[..], n)
    {
      assert wl[n] in wl;
      var i := FirstUnused(rd, gl, used, wl[n], whole);
      if i < 0 {
        NoMatchMeansDifferent(rd, gl, wl, used[..], n);
        return false;
      }
      MatchOneMore(rd, gl, wl, used[..], n, i);
      used[i] := true;
    }
    AllUsed(rd, gl, wl, used[..]);
    return true;
  }

  /** The search of one wanted item: the first unused equal item, or -1. */
  method FirstUnused(rd: Reader, gl: seq<Value>, used: array<bool>, w: Value, ghost whole: Value) returns (i: int)
    requires used.Length == |gl| && w < whole
    ensures i >= 0 ==> i < |gl| && !used[i] && Same(rd, gl[i], w)
    ensures i < 0 ==> forall j :: 0 <= j < |gl| && !used[j] ==> !Same(rd, gl[j], w)
    decreases whole, 0
  {
    i := 0;
    while i < |gl|
      invariant 0 <= i <= |gl|
      invariant forall j :: 0 <= j < i && !used[j] ==> !Same(rd, gl[j], w)
    {
      if !used[i] {
        var equal := SameRoleValue(rd, gl[i], w);
        if equal {
          return;
        }
      }
      i := i + 1;
    }
    i := -1;
  }

  /** roleUpToDate: every declared key holds the declared value. */
  method RoleUpToDate(rd: Reader, existing: Body, desired: Body, ghost whole: Value) returns (upToDate: bool)
    requires forall k :: k in desired ==> desired[k] < whole
    ensures upToDate == UpToDate(rd, existing, desired)
    decreases whole, 1
  {
    var left := desired.Keys;
    while left != {}
      invariant left <= desired.Keys
      invariant forall k :: k in desired.Keys - left ==> k in existing && Same(rd, existing[k], desired[k])
      decreases left
    {
      var k :| k in left;
      if k !in existing {
        return false;
      }
      var same := SameRoleValue(rd, existing[k], desired[k]);
      if !same {
        return false;
      }
      left := left - {k};
    }
    return true;
  }

  // ----- Greedy matching -----

  /** The items not yet taken, as a multiset. */
  ghost function Unused<T>(xs: seq<T>, used: seq<bool>): multiset<T>
    requires |xs| == |used|
  {
    if xs == [] then multiset{}
    else (if used[0] then multiset{} else multiset{xs[0]}) + Unused(xs[1..], used[1..])
  }

  lemma {:induction false} Leftover<T>(xs: seq<T>, used: seq<bool>)
    requires |xs| == |used| && true !in used
    ensures Unused(xs, used) == multiset(xs)
  {
    if xs != [] {
      Leftover(xs[1..], used[1..]);
      assert xs == [xs[0]] + xs[1..];
    }
  }

  lemma {:induction false} TakeUnused<T>(xs: seq<T>, used: seq<bool>, i: nat)
    requires |xs| == |used| && i < |used| && !used[i]
    ensures Unused(xs, used) == Unused(xs, used[i := true]) + multiset{xs[i]}
  {
    if i > 0 {
      TakeUnused(xs[1..], used[1..], i - 1);
      assert used[i := true][1..] == used[1..][i - 1 := true];
    } else {
      assert used[0 := true][1..] == used[1..];
    }
  }

  lemma {:induction false} UnusedMember<T>(xs: seq<T>, used: seq<bool>, x: T) returns (i: nat)
    requires |xs| == |used| && x in Unused(xs, used)
    ensures i < |xs| && !used[i] && xs[i] == x
  {
    if !used[0] && xs[0] == x {
      i := 0;
    } else {
      i := UnusedMember(xs[1..], used[1..], x);
      i := i + 1;
    }
  }

  lemma {:induction false} UnusedSize<T>(xs: seq<T>, used: seq<bool>)
    requires |xs| == |used| && false in used
    ensures |Unused(xs, used)| > 0
  {
    if used[0] {
      UnusedSize(xs[1..], used[1..]);
    }
  }

  /** After `n` wanted items: the used items are, as a multiset, the first `n` wanted ones. */
  ghost predicate Matched(rd: Reader, gl: seq<Value>, wl: seq<Value>, used: seq<bool>, n: nat) {
    && |used| == |gl| == |wl| && n <= |wl|
    && (forall j :: 0 <= j < n ==> NaNFree(rd, wl[j]))
    && (forall i :: 0 <= i < |gl| && used[i] ==> NaNFree(rd, gl[i]))
    && multiset(CanonicalItems(rd, gl)) ==
       multiset(CanonicalItems(rd, wl)[..n]) + Unused(CanonicalItems(rd, gl), used)
  }

  lemma {:induction false} NothingMatchedYet(rd: Reader, gl: seq<Value>, wl: seq<Value>, used: seq<bool>)
    requires |used| == |gl| == |wl| && forall i :: 0 <= i < |used| ==> !used[i]
    ensures Matched(rd, gl, wl, used, 0)
  {
    Leftover(CanonicalItems(rd, gl), used);
  }

  lemma {:induction false} MatchOneMore(rd: Reader, gl: seq<Value>, wl: seq<Value>, used: seq<bool>, n: nat, i: nat)
    requires Matched(rd, gl, wl, used, n) && n < |wl|
    requires i < |gl| && !used[i] && Same(rd, gl[i], wl[n])
    ensures Matched(rd, gl, wl, used[i := true], n + 1)
  {
    var gs, ws := CanonicalItems(rd, gl), CanonicalItems(rd, wl);
    TakeUnused(gs, used, i);
    MoveOne(multiset(gs), ws, n, Unused(gs, used), Unused(gs, used[i := true]));
  }

  lemma {:induction false} MoveOne<T>(all: multiset<T>, ws: seq<T>, n: nat, unused: multiset<T>, unused': multiset<T>)
    requires n < |ws| && all == multiset(ws[..n]) + unused && unused == unused' + multiset{ws[n]}
    ensures all == multiset(ws[..n + 1]) + unused'
  {
    assert ws[..n + 1] == ws[..n] + [ws[n]];
  }

  lemma {:induction false} MissingFromPrefix<T>(gs: seq<T>, ws: seq<T>, unused: multiset<T>, n: nat)
    requires n < |ws| && multiset(gs) == multiset(ws) == multiset(ws[..n]) + unused
    ensures ws[n] in unused
  {
    assert ws == ws[..n] + ([ws[n]] + ws[n + 1..]);
    assert multiset(ws) == multiset(ws[..n]) + multiset([ws[n]] + ws[n + 1..]);
    assert multiset(ws)[ws[n]] == multiset(ws[..n])[ws[n]] + multiset([ws[n]] + ws[n + 1..])[ws[n]];
    assert ws[n] in [ws[n]] + ws[n + 1..];
  }

  /** The greedy search misses nothing: an item without an unused equal means the lists differ. */
  lemma {:induction false} NoMatchMeansDifferent(rd: Reader, gl: seq<Value>, wl: seq<Value>, used: seq<bool>, n: nat)
    requires Matched(rd, gl, wl, used, n) && n < |wl|
    requires forall i :: 0 <= i < |gl| && !used[i] ==> !Same(rd, gl[i], wl[n])
    ensures !Same(rd, List(gl), List(wl))
  {
    var gs, ws := CanonicalItems(rd, gl), CanonicalItems(rd, wl);
    if Same(rd, List(gl), List(wl)) {
      MissingFromPrefix(gs, ws, Unused(gs, used), n);
      var i := UnusedMember(gs, used, ws[n]);
    }
  }

  lemma {:induction false} NothingLeft<T>(xs: seq<T>, ys: seq<T>, used: seq<bool>)
    requires |xs| == |ys| == |used| && multiset(xs) == multiset(ys) + Unused(xs, used)
    ensures false !in used && multiset(xs) == multiset(ys)
  {
    assert |multiset(xs)| == |multiset(ys)| + |Unused(xs, used)|;
    if false in used {
      UnusedSize(xs, used);
    }
  }

  lemma {:induction false} AllUsed(rd: Reader, gl: seq<Value>, wl: seq<Value>, used: seq<bool>)
    requires Matched(rd, gl, wl, used, |wl|)
    ensures Same(rd, List(gl), List(wl))
  {
    var gs, ws := CanonicalItems(rd, gl), CanonicalItems(rd, wl);
    assert ws[..|wl|] == ws;
    NothingLeft(gs, ws, used);
    assert forall i :: 0 <= i < |used| ==> used[i];
    SameLists(rd, gl, wl);
  }

  lemma {:induction false} SameLists(rd: Reader, gl: seq<Value>, wl: seq<Value>)
    requires forall i :: 0 <= i < |gl| ==> NaNFree(rd, gl[i])
    requires forall i :: 0 <= i < |wl| ==> NaNFree(rd, wl[i])
    requires multiset(CanonicalItems(rd, gl)) == multiset(CanonicalItems(rd, wl))
    ensures Same(rd, List(gl), List(wl))
  {
  }

  // ----- Objects -----

  lemma {:induction false} CanonicalEmptyList(rd: Reader, v: Value)
    ensures EmptyList(v) <==> Canonical(rd, v) == CList(multiset{})
    ensures EmptyList(v) ==> NaNFree(rd, v)
  {
    if v.List? && v.items != [] {
      assert Canonical(rd, v.items[0]) in CanonicalItems(rd, v.items);
    }
  }

  lemma {:induction false} CanonicalKeepsKeys(rd: Reader, v: Value)
    requires v.Object?
    ensures Canonical(rd, v).CObject? && Canonical(rd, v).fields.Keys == v.fields.Keys
  {
  }

  lemma {:induction false} UpToDateObjects(rd: Reader, got: Value, want: Value)
    requires got.Object? && want.Object? && |got.fields| == |want.fields|
    ensures UpToDate(rd, got.fields, want.fields) == Same(rd, got, want)
  {
    var gm, wm := got.fields, want.fields;
    CanonicalKeepsKeys(rd, got);
    CanonicalKeepsKeys(rd, want);
    if UpToDate(rd, gm, wm) {
      SubsetOfSameSize(wm.Keys, gm.Keys);
      assert Canonical(rd, got).fields == Canonical(rd, want).fields;
    }
    if Same(rd, got, want) {
      forall k | k in wm
        ensures k in gm && Same(rd, gm[k], wm[k])
      {
        assert Canonical(rd, got).fields[k] == Canonical(rd, want).fields[k];
      }
    }
  }

  lemma {:induction false} SubsetOfSameSize<T>(a: set<T>, b: set<T>)
    requires a <= b && |a| == |b|
    ensures a == b
  {
    assert |b - a| == 0;
    assert b == a + (b - a);
  }

  // ----- What equality of canonical forms gives -----

  /** On values without NaN the comparison is an equivalence; a value with one is not even equal to itself. */
  lemma {:induction false} SameIsAnEquivalence(rd: Reader, a: Value, b: Value, c: Value)
    ensures Same(rd, a, a) <==> NaNFree(rd, a)
    ensures Same(rd, a, b) ==> Same(rd, b, a)
    ensures Same(rd, a, b) && Same(rd, b, c) ==> Same(rd, a, c)
  {
  }

  // ----- The same, value by value -----

  /** A number is itself, a JSON number what Float64 reads in it, a text what it reads as seconds. */
  ghost predicate ReadsAs(rd: Reader, v: Value, f: Float) {
    match v
    case Number(g) => f == g
    case JsonNumber(text) => rd.number(text) == Some(f)
    case Text(s) => rd.seconds(s) == Some(f)
    case _ => false
  }

  ghost predicate Unread(rd: Reader, v: Value) {
    forall f :: !ReadsAs(rd, v, f)
  }

  /** Both read as one number that is not a NaN, or neither reads as any and they are alike part by part: null is the
      empty list, lists pair up one to one in any order, objects key by key, and the rest is equal. */
  ghost predicate Alike(rd: Reader, a: Value, b: Value)
    decreases a
  {
    || (exists f :: f != NaN && ReadsAs(rd, a, f) && ReadsAs(rd, b, f))
    || (Unread(rd, a) && Unread(rd, b)
        && match a
           case Null => b == Null || b == List([])
           case List(items) => (b == Null && items == []) || (b.List? && PairUp(rd, items, b.items))
           case Object(fields) =>
             && b.Object? && fields.Keys == b.fields.Keys
             && forall k :: k in fields ==> Alike(rd, fields[k], b.fields[k])
           case _ => a == b)
  }

  ghost predicate PairUp(rd: Reader, xs: seq<Value>, ys: seq<Value>)
    decreases xs
  {
    |xs| == |ys| && (xs != [] ==> exists j :: 0 <= j < |ys| && Alike(rd, xs[0], ys[j])
                                              && PairUp(rd, xs[1..], ys[..j] + ys[j + 1..]))
  }

  lemma {:induction false} QuantityIff(rd: Reader, v: Value, f: Float)
    ensures Quantity(rd, v) == Some(f) <==> ReadsAs(rd, v, f)
  {
  }

  /** What the comparison decides, by constructor. */
  lemma {:induction false} SameIsAlike(rd: Reader, a: Value, b: Value)
    ensures Same(rd, a, b) <==> Alike(rd, a, b)
    decreases a, 1
  {
    forall v, f
      ensures Quantity(rd, v) == Some(f) <==> ReadsAs(rd, v, f)
    {
      QuantityIff(rd, v, f);
    }
    if Unread(rd, a) && Unread(rd, b) {
      UnreadAlike(rd, a, b);
    }
  }

  lemma {:induction false} UnreadAlike(rd: Reader, a: Value, b: Value)
    requires Unread(rd, a) && Unread(rd, b) && Quantity(rd, a).None? && Quantity(rd, b).None?
    ensures Same(rd, a, b) <==> Alike(rd, a, b)
    decreases a, 0
  {
    CanonicalEmptyList(rd, a);
    CanonicalEmptyList(rd, b);
    if a.List? && b.List? {
      ListsAlike(rd, a.items, b.items);
    } else if a.Object? && b.Object? {
      CanonicalKeepsKeys(rd, a);
      CanonicalKeepsKeys(rd, b);
      forall k | k in a.fields && k in b.fields
        ensures Same(rd, a.fields[k], b.fields[k]) <==> Alike(rd, a.fields[k], b.fields[k])
      {
        SameIsAlike(rd, a.fields[k], b.fields[k]);
      }
      ObjectsSameIff(rd, a, b);
    }
  }

  lemma {:induction false} ObjectsSameIff(rd: Reader, a: Value, b: Value)
    requires a.Object? && b.Object?
    ensures Same(rd, a, b) <==> && a.fields.Keys == b.fields.Keys
                                && forall k :: k in a.fields ==> Same(rd, a.fields[k], b.fields[k])
  {
    CanonicalKeepsKeys(rd, a);
    CanonicalKeepsKeys(rd, b);
    if a.fields.Keys == b.fields.Keys {
      UpToDateObjects(rd, a, b);
    }
  }

  lemma {:induction false} ListsAlike(rd: Reader, xs: seq<Value>, ys: seq<Value>)
    ensures Same(rd, List(xs), List(ys)) <==> PairUp(rd, xs, ys)
    decreases xs
  {
    if Same(rd, List(xs), List(ys)) {
      SameSize(rd, xs, ys);
    }
    if xs != [] && |xs| == |ys| {
      if Same(rd, List(xs), List(ys)) {
        var j := PartnerOf(rd, xs, ys);
        SameIsAlike(rd, xs[0], ys[j]);
        ListsAlike(rd, xs[1..], Without(ys, j));
      }
      if PairUp(rd, xs, ys) {
        var j :| 0 <= j < |ys| && Alike(rd, xs[0], ys[j]) && PairUp(rd, xs[1..], ys[..j] + ys[j + 1..]);
        SameIsAlike(rd, xs[0], ys[j]);
        ListsAlike(rd, xs[1..], Without(ys, j));
        SameButOne(rd, xs, ys, j);
      }
    }
  }

  ghost function Without<T>(ys: seq<T>, j: nat): seq<T>
    requires j < |ys|
  {
    ys[..j] + ys[j + 1..]
  }

  lemma {:induction false} SameSize(rd: Reader, xs: seq<Value>, ys: seq<Value>)
    requires multiset(CanonicalItems(rd, xs)) == multiset(CanonicalItems(rd, ys))
    ensures |xs| == |ys|
  {
    assert |multiset(CanonicalItems(rd, xs))| == |multiset(CanonicalItems(rd, ys))|;
  }

  /** Taking one item out of a list. */
  lemma {:induction false} TakeOne(rd: Reader, ys: seq<Value>, j: nat)
    requires j < |ys|
    ensures multiset(CanonicalItems(rd, ys))
         == multiset(CanonicalItems(rd, Without(ys, j))) + multiset{Canonical(rd, ys[j])}
  {
    var cs := CanonicalItems(rd, ys);
    assert CanonicalItems(rd, Without(ys, j)) == Without(cs, j);
    assert cs == cs[..j] + [cs[j]] + cs[j + 1..];
  }

  lemma {:induction false} NaNFreeWithout(rd: Reader, ys: seq<Value>, j: nat)
    requires j < |ys|
    ensures NaNFree(rd, List(ys)) <==> NaNFree(rd, ys[j]) && NaNFree(rd, List(Without(ys, j)))
  {
    var rest := Without(ys, j);
    forall i | 0 <= i < |ys| && i != j
      ensures ys[i] in rest
    {
      assert rest[if i < j then i else i - 1] == ys[i];
    }
  }

  lemma {:induction false} CancelOne<T>(a: multiset<T>, b: multiset<T>, a': multiset<T>, b': multiset<T>, x: T)
    requires a == a' + multiset{x} && b == b' + multiset{x}
    ensures a == b <==> a' == b'
  {
    assert a' == a - multiset{x} && b' == b - multiset{x};
  }

  lemma {:induction false} SameListsIff(rd: Reader, xs: seq<Value>, ys: seq<Value>)
    ensures Same(rd, List(xs), List(ys)) <==>
              && NaNFree(rd, List(xs)) && NaNFree(rd, List(ys))
              && multiset(CanonicalItems(rd, xs)) == multiset(CanonicalItems(rd, ys))
  {
    CanonicalList(rd, xs);
    CanonicalList(rd, ys);
  }

  lemma {:induction false} CanonicalList(rd: Reader, xs: seq<Value>)
    ensures Canonical(rd, List(xs)) == CList(multiset(CanonicalItems(rd, xs)))
  {
  }

  lemma {:induction false} PartnerOf(rd: Reader, xs: seq<Value>, ys: seq<Value>) returns (j: nat)
    requires xs != [] && |xs| == |ys| && Same(rd, List(xs), List(ys))
    ensures j < |ys| && Same(rd, xs[0], ys[j]) && Same(rd, List(xs[1..]), List(Without(ys, j)))
  {
    j := FindCanonical(rd, xs, ys);
    SameButOne(rd, xs, ys, j);
  }

  lemma {:induction false} FindCanonical(rd: Reader, xs: seq<Value>, ys: seq<Value>) returns (j: nat)
    requires xs != [] && multiset(CanonicalItems(rd, xs)) == multiset(CanonicalItems(rd, ys))
    ensures j < |ys| && Canonical(rd, ys[j]) == Canonical(rd, xs[0])
  {
    var cs, ds := CanonicalItems(rd, xs), CanonicalItems(rd, ys);
    assert cs[0] in multiset(cs);
    assert cs[0] in multiset(ds);
    j :| 0 <= j < |ds| && ds[j] == cs[0];
  }

  /** Taking items of one canonical form out of both lists changes nothing. */
  lemma {:induction false} SameButOne(rd: Reader, xs: seq<Value>, ys: seq<Value>, j: nat)
    requires xs != [] && j < |ys| && Canonical(rd, ys[j]) == Canonical(rd, xs[0])
    ensures Same(rd, List(xs), List(ys)) <==>
              Same(rd, xs[0], ys[j]) && Same(rd, List(xs[1..]), List(Without(ys, j)))
  {
    var rest, others := xs[1..], Without(ys, j);
    assert Without(xs, 0) == rest;
    TakeOne(rd, ys, j);
    TakeOne(rd, xs, 0);
    CancelOne(multiset(CanonicalItems(rd, xs)), multiset(CanonicalItems(rd, ys)),
              multiset(CanonicalItems(rd, rest)), multiset(CanonicalItems(rd, others)), Canonical(rd, xs[0]));
    NaNFreeWithout(rd, ys, j);
    NaNFreeWithout(rd, xs, 0);
    SameListsIff(rd, xs, ys);
    SameListsIff(rd, rest, others);
  }

  /** Of values that read as numbers: equal iff the floats are, and no NaN. */
  lemma {:induction false} ReadValuesSameIff(rd: Reader, a: Value, b: Value, f: Float, g: Float)
    requires ReadsAs(rd, a, f) && ReadsAs(rd, b, g)
    ensures Same(rd, a, b) <==> f == g && f != NaN
  {
    QuantityIff(rd, a, f);
    QuantityIff(rd, b, g);
  }
}
