/** Masking of Secret values in error text: internal/reconcile/engineconfig.go, scrubSecrets.

The source masks bytes in place with a boolean array, then prints the message byte by byte.  Here
the printer is proved equal to a definition by maximal runs, and the mask to a definition by
occurrences. */
module Scrub {
  import opened Requests

  newtype byte = b: int | 0 <= b < 256
  type Bytes = seq<byte>

  /** "<redacted>" in ASCII. */
  const REDACTED_MARKER: Bytes := [60, 114, 101, 100, 97, 99, 116, 101, 100, 62]

  lemma {:induction false} MarkerSpells()
    ensures |REDACTED_MARKER| == |"<redacted>"|
    ensures forall i :: 0 <= i < |REDACTED_MARKER| ==> REDACTED_MARKER[i] as int == "<redacted>"[i] as int
  {
  }

  predicate OccursAt(s: Bytes, p: Bytes, i: int) {
    0 <= i && i + |p| <= |s| && s[i..i + |p|] == p
  }

  lemma {:induction false} OccursBytewise(s: Bytes, p: Bytes, i: int)
    requires 0 <= i && i + |p| <= |s|
    ensures OccursAt(s, p, i) <==> forall j :: i <= j < i + |p| ==> s[j] == p[j - i]
  {
    if OccursAt(s, p, i) {
      assert forall j :: i <= j < i + |p| ==> s[i..i + |p|][j - i] == s[j];
    }
  }

  /** Byte `k` lies inside an occurrence of `p` that starts before `limit`. */
  ghost predicate CoveredBy(msg: Bytes, p: Bytes, k: int, limit: int) {
    exists i :: OccursAt(msg, p, i) && i <= k < i + |p| && i < limit
  }

  /** Byte `k` lies inside an occurrence of one of the patterns. */
  ghost predicate Covered(msg: Bytes, patterns: seq<Bytes>, k: int) {
    exists p :: p in patterns && CoveredBy(msg, p, k, |msg|)
  }

  ghost function Mask(msg: Bytes, patterns: seq<Bytes>): (m: seq<bool>)
    ensures |m| == |msg|
  {
    seq(|msg|, k => Covered(msg, patterns, k))
  }

  /** Length of the maximal run of equal entries at the front. */
  function RunLength(mask: seq<bool>): (n: nat)
    requires mask != []
    ensures 1 <= n <= |mask|
    ensures forall k :: 0 <= k < n ==> mask[k] == mask[0]
    ensures n < |mask| ==> mask[n] != mask[0]
  {
    if |mask| == 1 || mask[1] != mask[0] then 1 else 1 + RunLength(mask[1..])
  }

  /** The unmasked runs of `msg` in order, with one marker for each maximal masked run. */
  function Redact(msg: Bytes, mask: seq<bool>, marker: Bytes): Bytes
    requires |mask| == |msg|
    decreases |msg|
  {
    if msg == [] then []
    else
      var n := RunLength(mask);
      (if mask[0] then marker else msg[..n]) + Redact(msg[n..], mask[n..], marker)
  }

  ghost function Scrubbed(msg: Bytes, patterns: seq<Bytes>, marker: Bytes): Bytes {
    Redact(msg, Mask(msg, patterns), marker)
  }

  /** strings.Index(s[from:], p) with the offset added back. */
  method IndexFrom(s: Bytes, p: Bytes, from: nat) returns (start: int)
    requires from <= |s|
    ensures start < 0 ==> forall i :: from <= i ==> !OccursAt(s, p, i)
    ensures start >= 0 ==> from <= start && OccursAt(s, p, start)
    ensures start >= 0 ==> forall i :: from <= i < start ==> !OccursAt(s, p, i)
  {
    start := from;
    while start + |p| <= |s|
      invariant from <= start
      invariant forall i :: from <= i < start ==> !OccursAt(s, p, i)
    {
      if s[start..start + |p|] == p {
        return;
      }
      start := start + 1;
    }
    start := -1;
  }

  /** The inner loops of scrubSecrets: mask every occurrence of one pattern, overlapping ones too. */
  method MaskPattern(msg: Bytes, p: Bytes, masked: array<bool>)
    requires masked.Length == |msg|
    modifies masked
    ensures forall k :: 0 <= k < |msg| ==>
      masked[k] == (old(masked[k]) || CoveredBy(msg, p, k, |msg|))
  {
    var from := 0;
    while from < |msg|
      invariant 0 <= from <= |msg|
      invariant forall k :: 0 <= k < |msg| ==>
        masked[k] == (old(masked[k]) || CoveredBy(msg, p, k, from))
    {
      var start := IndexFrom(msg, p, from);
      if start < 0 {
        break;
      }
      assert start < |msg| by {
        if p == [] {
          assert OccursAt(msg, p, from);
        }
      }
      ghost var before := masked[..];
      var j := start;
      while j < start + |p|
        invariant start <= j <= start + |p|
        invariant forall k :: 0 <= k < |msg| ==> masked[k] == (before[k] || start <= k < j)
      {
        masked[j] := true;
        j := j + 1;
      }
      forall k | 0 <= k < |msg|
        ensures CoveredBy(msg, p, k, start + 1) == (CoveredBy(msg, p, k, from) || start <= k < start + |p|)
      {
        CoverStep(msg, p, k, from, start);
      }
      from := start + 1;
    }
    forall k | 0 <= k < |msg|
      ensures CoveredBy(msg, p, k, from) == CoveredBy(msg, p, k, |msg|)
    {
      if CoveredBy(msg, p, k, |msg|) {
        var i :| OccursAt(msg, p, i) && i <= k < i + |p| && i < |msg|;
        assert i < from;
      }
    }
  }

  lemma {:induction false} CoverStep(msg: Bytes, p: Bytes, k: int, from: nat, start: nat)
    requires from <= start && OccursAt(msg, p, start)
    requires forall i :: from <= i < start ==> !OccursAt(msg, p, i)
    ensures CoveredBy(msg, p, k, start + 1) == (CoveredBy(msg, p, k, from) || start <= k < start + |p|)
  {
    if CoveredBy(msg, p, k, start + 1) {
      var i :| OccursAt(msg, p, i) && i <= k < i + |p| && i < start + 1;
      assert i < from || i == start;
    }
    if CoveredBy(msg, p, k, from) {
      var i :| OccursAt(msg, p, i) && i <= k < i + |p| && i < from;
      assert i < start + 1;
    }
  }

  /** scrubSecrets on an error's text, with the pattern list of every value concatenated; no error stays none. */
  method ScrubSecrets(err: Option<Bytes>, patterns: seq<Bytes>) returns (scrubbed: Option<Bytes>)
    ensures scrubbed == if err.None? then None else Some(Scrubbed(err.value, patterns, REDACTED_MARKER))
  {
    if err.None? {
      return None;
    }
    var msg := err.value;
    var masked := new bool[|msg|](_ => false);
    for n := 0 to |patterns|
      invariant forall k :: 0 <= k < |msg| ==> masked[k] == Covered(msg, patterns[..n], k)
    {
      MaskPattern(msg, patterns[n], masked);
      assert patterns[..n + 1] == patterns[..n] + [patterns[n]];
    }
    assert patterns[..|patterns|] == patterns;
    assert masked[..] == Mask(msg, patterns);
    var out := PrintRuns(msg, masked, REDACTED_MARKER);
    scrubbed := Some(out);
  }

  /** The printing loop of scrubSecrets. */
  method PrintRuns(msg: Bytes, masked: array<bool>, marker: Bytes) returns (out: Bytes)
    requires masked.Length == |msg|
    ensures out == Redact(msg, masked[..], marker)
  {
    ghost var mask := masked[..];
    out := [];
    var i := 0;
    while i < |msg|
      invariant 0 <= i <= |msg|
      invariant out + PrintedFrom(msg, mask, i, marker) == PrintedFrom(msg, mask, 0, marker)
    {
      ghost var printed := PrintedAt(msg, mask, i, marker);
      Associate(out, printed, PrintedFrom(msg, mask, i + 1, marker));
      if !masked[i] {
        out := out + [msg[i]];
      } else if i == 0 || !masked[i - 1] {
        out := out + marker;
      }
      assert printed == [] ==> out + printed == out;
      i := i + 1;
    }
    PrintedIsRedacted(msg, mask, marker);
  }

  /** What the loop prints at byte `i`. */
  function PrintedAt(msg: Bytes, mask: seq<bool>, i: nat, marker: Bytes): Bytes
    requires |mask| == |msg| && i < |msg|
  {
    if !mask[i] then [msg[i]] else if i == 0 || !mask[i - 1] then marker else []
  }

  /** What the loop prints from byte `i` on. */
  function PrintedFrom(msg: Bytes, mask: seq<bool>, i: nat, marker: Bytes): Bytes
    requires |mask| == |msg| && i <= |msg|
    decreases |msg| - i
  {
    if i == |msg| then [] else PrintedAt(msg, mask, i, marker) + PrintedFrom(msg, mask, i + 1, marker)
  }

  /** What is left to print: a masked run already announced prints nothing more. */
  ghost function Rest(s: Bytes, m: seq<bool>, announced: bool, marker: Bytes): Bytes
    requires |m| == |s|
  {
    if announced && s != [] && m[0] then Redact(s, m, marker)[|marker|..] else Redact(s, m, marker)
  }

  lemma {:induction false} PrintedIsRedacted(msg: Bytes, mask: seq<bool>, marker: Bytes)
    requires |mask| == |msg|
    ensures PrintedFrom(msg, mask, 0, marker) == Redact(msg, mask, marker)
  {
    assert msg[0..] == msg && mask[0..] == mask;
    PrintedIsRest(msg, mask, 0, msg, mask, marker);
  }

  lemma {:induction false} PrintedIsRest(msg: Bytes, mask: seq<bool>, i: nat, s: Bytes, m: seq<bool>, marker: Bytes)
    requires |mask| == |msg| && i <= |msg| && s == msg[i..] && m == mask[i..]
    ensures PrintedFrom(msg, mask, i, marker) == Rest(s, m, i > 0 && mask[i - 1], marker)
    decreases |msg| - i
  {
    if i < |msg| {
      PrintedIsRest(msg, mask, i + 1, s[1..], m[1..], marker);
      HeadStep(s, m, i > 0 && mask[i - 1], marker);
    }
  }

  lemma {:induction false} HeadStep(s: Bytes, m: seq<bool>, announced: bool, marker: Bytes)
    requires |m| == |s| && s != []
    ensures Rest(s, m, announced, marker)
         == (if !m[0] then [s[0]] else if !announced then marker else []) + Rest(s[1..], m[1..], m[0], marker)
  {
    if |s| > 1 && m[1] == m[0] {
      RedactHeadInRun(s, m, marker);
    } else {
      RedactHeadSingle(s, m, marker);
    }
    if m[0] {
      AnnouncedStep(s, m, marker);
    }
  }

  lemma {:induction false} AnnouncedStep(s: Bytes, m: seq<bool>, marker: Bytes)
    requires |m| == |s| && s != [] && m[0]
    ensures Redact(s, m, marker) == marker + Rest(s[1..], m[1..], true, marker)
    ensures Rest(s, m, true, marker) == Rest(s[1..], m[1..], true, marker)
  {
    if |s| > 1 && m[1] {
      RedactHeadInRun(s, m, marker);
      RedactStartsWithMarker(s[1..], m[1..], marker);
    } else {
      RedactHeadSingle(s, m, marker);
    }
    assert (marker + Rest(s[1..], m[1..], true, marker))[|marker|..] == Rest(s[1..], m[1..], true, marker);
  }

  /** A byte that starts a run of length one. */
  lemma {:induction false} RedactHeadSingle(s: Bytes, m: seq<bool>, marker: Bytes)
    requires |s| == |m| && s != []
    requires |s| == 1 || m[1] != m[0]
    ensures Redact(s, m, marker) == (if m[0] then marker else [s[0]]) + Redact(s[1..], m[1..], marker)
  {
    assert RunLength(m) == 1;
    assert s[..1] == [s[0]];
  }

  lemma {:induction false} RedactUnfold(s: Bytes, m: seq<bool>, n: nat, rest: Bytes, marker: Bytes)
    requires |s| == |m| && s != [] && n == RunLength(m) && rest == Redact(s[n..], m[n..], marker)
    ensures Redact(s, m, marker) == (if m[0] then marker else s[..n]) + rest
  {
  }

  /** A byte followed by another of its run. */
  lemma {:induction false} RedactHeadInRun(s: Bytes, m: seq<bool>, marker: Bytes)
    requires |s| == |m| > 1 && m[1] == m[0]
    ensures if m[0] then Redact(s, m, marker) == Redact(s[1..], m[1..], marker)
            else Redact(s, m, marker) == [s[0]] + Redact(s[1..], m[1..], marker)
  {
    var n := RunLength(m[1..]);
    DropTwice(s, 1, n);
    DropTwice(m, 1, n);
    var rest := Redact(s[n + 1..], m[n + 1..], marker);
    RedactUnfold(s, m, n + 1, rest, marker);
    RedactUnfold(s[1..], m[1..], n, rest, marker);
    if !m[0] {
      PrefixStep(s, n, rest);
    }
  }

  lemma Associate<T>(a: seq<T>, b: seq<T>, c: seq<T>)
    ensures a + (b + c) == (a + b) + c
  {
  }

  lemma PrefixStep<T>(s: seq<T>, n: nat, rest: seq<T>)
    requires n < |s|
    ensures s[..n + 1] + rest == [s[0]] + (s[1..][..n] + rest)
  {
  }

  lemma {:induction false} DropTwice<T>(s: seq<T>, a: nat, b: nat)
    requires a + b <= |s|
    ensures s[a..][b..] == s[a + b..]
  {
  }

  lemma {:induction false} RedactStartsWithMarker(msg: Bytes, mask: seq<bool>, marker: Bytes)
    requires |mask| == |msg| && msg != [] && mask[0]
    ensures marker <= Redact(msg, mask, marker)
    ensures Redact(msg, mask, marker) == marker + Redact(msg, mask, marker)[|marker|..]
  {
  }

  /** The scrubbed text does not depend on the order or the repetition of the patterns. */
  lemma {:induction false} OrderAndRepetitionDoNotMatter(msg: Bytes, ps: seq<Bytes>, qs: seq<Bytes>, marker: Bytes)
    requires forall p :: p in ps <==> p in qs
    ensures Scrubbed(msg, ps, marker) == Scrubbed(msg, qs, marker)
  {
    forall k | 0 <= k < |msg|
      ensures Mask(msg, ps)[k] == Mask(msg, qs)[k]
    {
    }
    assert Mask(msg, ps) == Mask(msg, qs);
  }

  /** Two messages that agree outside the masked bytes print the same: no masked byte leaks. */
  lemma {:induction false} MaskedBytesLeaveNoTrace(a: Bytes, b: Bytes, mask: seq<bool>, marker: Bytes)
    requires |a| == |b| == |mask|
    requires forall k :: 0 <= k < |mask| && !mask[k] ==> a[k] == b[k]
    ensures Redact(a, mask, marker) == Redact(b, mask, marker)
    decreases |a|
  {
    if a != [] {
      var n := RunLength(mask);
      MaskedBytesLeaveNoTrace(a[n..], b[n..], mask[n..], marker);
      if !mask[0] {
        assert a[..n] == b[..n];
      }
    }
  }

  /** Where each byte printed from byte `i` on comes from: its index in the message, or -1 for a marker's byte. */
  ghost function OriginsFrom(mask: seq<bool>, i: nat, marker: Bytes): seq<int>
    requires i <= |mask|
    decreases |mask| - i
  {
    if i == |mask| then [] else OriginsAt(mask, i, marker) + OriginsFrom(mask, i + 1, marker)
  }

  ghost function OriginsAt(mask: seq<bool>, i: nat, marker: Bytes): (o: seq<int>)
    requires i < |mask|
    ensures if !mask[i] then o == [i] else forall j :: 0 <= j < |o| ==> o[j] == -1
  {
    if !mask[i] then [i as int] else if i == 0 || !mask[i - 1] then seq(|marker|, _ => -1) else []
  }

  ghost function Origins(mask: seq<bool>, marker: Bytes): seq<int> {
    OriginsFrom(mask, 0, marker)
  }

  /** Every printed byte is a marker's or the unmasked message byte it comes from. */
  ghost predicate BytesFromOrigins(origins: seq<int>, out: Bytes, msg: Bytes, mask: seq<bool>, marker: Bytes)
    requires |mask| == |msg|
  {
    && |origins| == |out|
    && forall j :: 0 <= j < |out| ==>
         if origins[j] == -1 then out[j] in marker
         else 0 <= origins[j] < |msg| && !mask[origins[j]] && out[j] == msg[origins[j]]
  }

  ghost function Unmasked(mask: seq<bool>, i: nat): set<nat> {
    set k: nat | i <= k < |mask| && !mask[k]
  }

  /** A masked run begins at `k`. */
  ghost predicate Begins(mask: seq<bool>, k: nat) {
    k < |mask| && mask[k] && (k > 0 ==> !mask[k - 1])
  }

  ghost function Runs(mask: seq<bool>, i: nat): set<nat> {
    set k: nat | i <= k < |mask| && Begins(mask, k)
  }

  /** Each unmasked byte is printed once, and one marker for each masked run, and nothing else. */
  lemma {:induction false} OneMarkerPerRun(msg: Bytes, mask: seq<bool>, marker: Bytes)
    requires |mask| == |msg|
    ensures |Redact(msg, mask, marker)| == |Unmasked(mask, 0)| + |Runs(mask, 0)| * |marker|
  {
    PrintedIsRedacted(msg, mask, marker);
    PrintedLength(msg, mask, 0, marker);
  }

  lemma {:induction false} CountsStep(mask: seq<bool>, i: nat)
    requires i < |mask|
    ensures |Unmasked(mask, i)| == |Unmasked(mask, i + 1)| + if mask[i] then 0 else 1
    ensures |Runs(mask, i)| == |Runs(mask, i + 1)| + if Begins(mask, i) then 1 else 0
  {
    assert Unmasked(mask, i) == Unmasked(mask, i + 1) + if mask[i] then {} else {i};
    assert Runs(mask, i) == Runs(mask, i + 1) + if Begins(mask, i) then {i} else {};
  }

  lemma {:induction false} PrintedLength(msg: Bytes, mask: seq<bool>, i: nat, marker: Bytes)
    requires |mask| == |msg| && i <= |mask|
    ensures |PrintedFrom(msg, mask, i, marker)| == |Unmasked(mask, i)| + |Runs(mask, i)| * |marker|
    decreases |mask| - i
  {
    if i == |mask| {
      assert Unmasked(mask, i) == {} && Runs(mask, i) == {};
    } else {
      PrintedLength(msg, mask, i + 1, marker);
      CountsStep(mask, i);
      OneMore(|Runs(mask, i + 1)|, |marker|);
      assert |PrintedAt(msg, mask, i, marker)| == if !mask[i] then 1 else if Begins(mask, i) then |marker| else 0;
    }
  }

  lemma {:induction false} OneMore(n: nat, m: nat)
    ensures (n + 1) * m == n * m + m
  {
  }

  /** Printed neighbours that come from the message are neighbours there. */
  ghost predicate NeighboursStay(origins: seq<int>) {
    forall j :: 0 < j < |origins| && origins[j - 1] != -1 && origins[j] != -1 ==> origins[j] == origins[j - 1] + 1
  }

  /** The message bytes printed keep their order. */
  ghost predicate OrderStays(origins: seq<int>) {
    forall i, j :: 0 <= i < j < |origins| && origins[i] != -1 && origins[j] != -1 ==> origins[i] < origins[j]
  }

  lemma {:induction false} PrintedBytesComeFromOrigins(msg: Bytes, mask: seq<bool>, i: nat, marker: Bytes)
    requires |mask| == |msg| && i <= |msg|
    ensures BytesFromOrigins(OriginsFrom(mask, i, marker), PrintedFrom(msg, mask, i, marker), msg, mask, marker)
    decreases |mask| - i
  {
    if i < |mask| {
      PrintedBytesComeFromOrigins(msg, mask, i + 1, marker);
      ConcatFromOrigins(OriginsAt(mask, i, marker), PrintedAt(msg, mask, i, marker),
                        OriginsFrom(mask, i + 1, marker), PrintedFrom(msg, mask, i + 1, marker), msg, mask, marker);
    }
  }

  lemma {:induction false} ConcatFromOrigins(o: seq<int>, out: Bytes, o': seq<int>, out': Bytes, msg: Bytes,
                                             mask: seq<bool>, marker: Bytes)
    requires |mask| == |msg| && BytesFromOrigins(o, out, msg, mask, marker)
             && BytesFromOrigins(o', out', msg, mask, marker)
    ensures BytesFromOrigins(o + o', out + out', msg, mask, marker)
  {
  }

  /** No later byte is printed earlier. */
  lemma {:induction false} OriginsKeepOrder(mask: seq<bool>, i: nat, marker: Bytes)
    requires i <= |mask|
    ensures OrderStays(OriginsFrom(mask, i, marker))
    ensures forall j :: 0 <= j < |OriginsFrom(mask, i, marker)| ==>
              OriginsFrom(mask, i, marker)[j] == -1 || OriginsFrom(mask, i, marker)[j] >= i
    decreases |mask| - i
  {
    if i < |mask| {
      OriginsKeepOrder(mask, i + 1, marker);
    }
  }

  /** Every unmasked byte is printed. */
  lemma {:induction false} UnmaskedBytesArePrinted(mask: seq<bool>, i: nat, k: nat, marker: Bytes)
    requires i <= k < |mask| && !mask[k]
    ensures k in OriginsFrom(mask, i, marker)
    decreases k - i
  {
    if k > i {
      UnmaskedBytesArePrinted(mask, i + 1, k, marker);
    }
  }

  lemma {:induction false} OriginsKeepNeighbours(mask: seq<bool>, i: nat, marker: Bytes)
    requires i <= |mask| && marker != []
    ensures NeighboursStay(OriginsFrom(mask, i, marker)) && StartsAt(OriginsFrom(mask, i, marker), mask, i)
    decreases |mask| - i
  {
    if i < |mask| {
      OriginsKeepNeighbours(mask, i + 1, marker);
      NeighboursConcat(OriginsAt(mask, i, marker), OriginsFrom(mask, i + 1, marker), mask, i);
    }
  }

  /** A printed text that does not begin within a masked run begins with a marker or its first byte. */
  ghost predicate StartsAt(origins: seq<int>, mask: seq<bool>, i: nat)
    requires i <= |mask|
  {
    origins == [] || origins[0] == -1 || origins[0] == i || (i > 0 && mask[i - 1])
  }

  lemma {:induction false} NeighboursConcat(head: seq<int>, rest: seq<int>, mask: seq<bool>, i: nat)
    requires i < |mask| && NeighboursStay(rest) && StartsAt(rest, mask, i + 1)
    requires if !mask[i] then head == [i as int] else (i > 0 && mask[i - 1]) || head != []
    requires mask[i] ==> forall j :: 0 <= j < |head| ==> head[j] == -1
    ensures NeighboursStay(head + rest) && StartsAt(head + rest, mask, i)
  {
  }

  /** Whatever a printed stretch free of marker bytes holds was in the message, unmasked. */
  lemma {:induction false} StretchComesFromMessage(origins: seq<int>, out: Bytes, msg: Bytes, mask: seq<bool>,
                                                   p: Bytes, i: nat, marker: Bytes)
    requires |mask| == |msg| && BytesFromOrigins(origins, out, msg, mask, marker) && NeighboursStay(origins)
    requires p != [] && OccursAt(out, p, i) && forall k :: i <= k < i + |p| ==> origins[k] != -1
    ensures OccursAt(msg, p, origins[i]) && !mask[origins[i]]
  {
    var o := origins[i];
    StretchIsConsecutive(origins, i, |p|);
    OccursBytewise(out, p, i);
    assert origins[i + |p| - 1] == o + |p| - 1;
    forall j | o <= j < o + |p|
      ensures msg[j] == p[j - o]
    {
      assert origins[i + j - o] == j;
      assert out[i + j - o] == p[j - o];
    }
    OccursBytewise(msg, p, o);
  }

  lemma {:induction false} StretchIsConsecutive(origins: seq<int>, i: nat, len: nat)
    requires NeighboursStay(origins) && i + len <= |origins| && forall k :: i <= k < i + len ==> origins[k] != -1
    ensures forall k :: i <= k < i + len ==> origins[k] == origins[i] + k - i
  {
    for n := 0 to len
      invariant forall k :: i <= k < i + n ==> origins[k] == origins[i] + k - i
    {
      assert n > 0 ==> origins[i + n] == origins[i + n - 1] + 1;
    }
  }

  /** Every place where the scrubbed text still reads as one of the patterns touches a marker. */
  lemma {:induction false} SurvivorsTouchAMarker(msg: Bytes, patterns: seq<Bytes>, p: Bytes, i: nat, marker: Bytes)
    returns (j: nat)
    requires p in patterns && p != [] && marker != []
    requires OccursAt(Scrubbed(msg, patterns, marker), p, i)
    ensures i <= j < i + |p| && |Origins(Mask(msg, patterns), marker)| == |Scrubbed(msg, patterns, marker)|
    ensures Origins(Mask(msg, patterns), marker)[j] == -1
  {
    var mask := Mask(msg, patterns);
    var origins := Origins(mask, marker);
    PrintedBytesComeFromOrigins(msg, mask, 0, marker);
    PrintedIsRedacted(msg, mask, marker);
    OriginsKeepNeighbours(mask, 0, marker);
    if k :| i <= k < i + |p| && origins[k] == -1 {
      j := k;
    } else {
      StretchComesFromMessage(origins, Redact(msg, mask, marker), msg, mask, p, i, marker);
      OccurrenceIsMasked(msg, patterns, p, origins[i]);
      assert false;
    }
  }

  lemma {:induction false} OccurrenceIsMasked(msg: Bytes, patterns: seq<Bytes>, p: Bytes, at: nat)
    requires p in patterns && p != [] && OccursAt(msg, p, at)
    ensures Mask(msg, patterns)[at]
  {
    assert CoveredBy(msg, p, at, |msg|);
  }

  /** Every marker byte printed belongs to a whole marker. */
  lemma {:induction false} MarkersAreWhole(msg: Bytes, mask: seq<bool>, i: nat, j: nat, marker: Bytes)
    returns (start: nat)
    requires |mask| == |msg| && i <= |mask| && j < |OriginsFrom(mask, i, marker)|
             && OriginsFrom(mask, i, marker)[j] == -1
    ensures start <= j < start + |marker| && OccursAt(PrintedFrom(msg, mask, i, marker), marker, start)
    decreases |mask| - i
  {
    var later := OriginLater(mask, i, j, marker);
    if later < 0 {
      start := MarkerHere(msg, mask, i, j, marker);
    } else {
      var at := MarkersAreWhole(msg, mask, i + 1, later, marker);
      start := j - later + at;
      MarkerLater(msg, mask, i, at, marker);
    }
  }

  /** Where a printed byte is among those printed after message byte `i`. */
  lemma {:induction false} OriginLater(mask: seq<bool>, i: nat, j: nat, marker: Bytes) returns (later: int)
    requires i <= |mask| && j < |OriginsFrom(mask, i, marker)|
    ensures i < |mask| && later == j - |OriginsAt(mask, i, marker)|
    ensures later >= 0 ==> later < |OriginsFrom(mask, i + 1, marker)|
                             && OriginsFrom(mask, i + 1, marker)[later] == OriginsFrom(mask, i, marker)[j]
  {
    later := j - |OriginsAt(mask, i, marker)|;
    IndexConcat(OriginsAt(mask, i, marker), OriginsFrom(mask, i + 1, marker), j);
  }

  lemma {:induction false} MarkerLater(msg: Bytes, mask: seq<bool>, i: nat, at: nat, marker: Bytes)
    requires |mask| == |msg| && i < |mask| && OccursAt(PrintedFrom(msg, mask, i + 1, marker), marker, at)
    ensures OccursAt(PrintedFrom(msg, mask, i, marker), marker, |OriginsAt(mask, i, marker)| + at)
  {
    MarkersAtOneByte(msg, mask, i, marker);
    OccursLater(PrintedAt(msg, mask, i, marker), PrintedFrom(msg, mask, i + 1, marker), marker, at);
  }

  lemma {:induction false} MarkerHere(msg: Bytes, mask: seq<bool>, i: nat, j: nat, marker: Bytes) returns (start: nat)
    requires |mask| == |msg| && i < |mask| && j < |OriginsAt(mask, i, marker)| && OriginsFrom(mask, i, marker)[j] == -1
    ensures start <= j < start + |marker| && OccursAt(PrintedFrom(msg, mask, i, marker), marker, start)
  {
    start := 0;
    IndexConcat(OriginsAt(mask, i, marker), OriginsFrom(mask, i + 1, marker), j);
    MarkersAtOneByte(msg, mask, i, marker);
    OccursFirst(marker, PrintedFrom(msg, mask, i + 1, marker));
  }

  lemma {:induction false} MarkersAtOneByte(msg: Bytes, mask: seq<bool>, i: nat, marker: Bytes)
    requires |mask| == |msg| && i < |mask|
    ensures |OriginsAt(mask, i, marker)| == |PrintedAt(msg, mask, i, marker)|
    ensures OriginsAt(mask, i, marker) != [] ==>
              (PrintedAt(msg, mask, i, marker) == marker && mask[i]) || OriginsAt(mask, i, marker) == [i as int]
  {
  }

  lemma {:induction false} IndexConcat<T>(a: seq<T>, b: seq<T>, j: nat)
    requires j < |a + b|
    ensures (a + b)[j] == if j < |a| then a[j] else b[j - |a|]
  {
  }

  lemma {:induction false} OccursFirst(p: Bytes, b: Bytes)
    ensures OccursAt(p + b, p, 0)
  {
    assert (p + b)[0..0 + |p|] == p;
  }

  lemma {:induction false} OccursLater(a: Bytes, b: Bytes, p: Bytes, at: nat)
    requires OccursAt(b, p, at)
    ensures OccursAt(a + b, p, |a| + at)
  {
    assert (a + b)[|a| + at..|a| + at + |p|] == b[at..at + |p|];
  }

  /** Laid over the marker at some offset, the two overlap and agree wherever they do. */
  ghost predicate FitsTheMarker(p: Bytes, marker: Bytes) {
    exists at: int :: FitsAt(p, at, marker)
  }

  ghost predicate FitsAt(p: Bytes, at: int, marker: Bytes) {
    -|p| < at < |marker| && forall k :: 0 <= k < |p| && 0 <= at + k < |marker| ==> p[k] == marker[at + k]
  }

  ghost predicate Survives(msg: Bytes, patterns: seq<Bytes>, p: Bytes, i: nat, marker: Bytes) {
    p in patterns && OccursAt(Scrubbed(msg, patterns, marker), p, i)
  }

  /** A pattern is gone from every scrubbed text, whatever the message and the other patterns, iff it does not fit
      the marker; one that shares no byte with the marker does not. */
  lemma {:induction false} NeverSurvivesIffItCannotFit(p: Bytes, marker: Bytes)
    requires p != [] && marker != []
    ensures (forall msg, patterns, i :: !Survives(msg, patterns, p, i, marker)) <==> !FitsTheMarker(p, marker)
    ensures (forall b :: b in p ==> b !in marker) ==> !FitsTheMarker(p, marker)
  {
    if at :| FitsAt(p, at, marker) {
      var k := if at < 0 then -at else 0;
      assert p[k] == marker[at + k] && p[k] in p && marker[at + k] in marker;
    }
    forall msg, patterns, i | Survives(msg, patterns, p, i, marker)
      ensures FitsTheMarker(p, marker)
    {
      SurvivorsFitTheMarker(msg, patterns, p, i, marker);
    }
    if at :| FitsAt(p, at, marker) {
      var msg, patterns, i := FittingPatternSurvives(p, at, marker);
    }
  }

  lemma {:induction false} SurvivorsFitTheMarker(msg: Bytes, patterns: seq<Bytes>, p: Bytes, i: nat, marker: Bytes)
    requires p != [] && marker != [] && Survives(msg, patterns, p, i, marker)
    ensures FitsTheMarker(p, marker)
  {
    var mask, out := Mask(msg, patterns), Scrubbed(msg, patterns, marker);
    var origins := Origins(mask, marker);
    var j := SurvivorsTouchAMarker(msg, patterns, p, i, marker);
    var start := MarkersAreWhole(msg, mask, 0, j, marker);
    PrintedIsRedacted(msg, mask, marker);
    OccursBytewise(out, p, i);
    OccursBytewise(out, marker, start);
    forall k | 0 <= k < |p| && 0 <= i - start + k < |marker|
      ensures p[k] == marker[i - start + k]
    {
      assert out[i + k] == p[k];
    }
    assert FitsAt(p, i - start, marker);
  }

  /** The parts of a fitting pattern to the left and to the right of the marker. */
  function LeftOf(p: Bytes, at: int): (left: Bytes)
    requires -|p| < at
    ensures |left| < |p| || p == []
  {
    if at < 0 then p[..-at] else []
  }

  function RightOf(p: Bytes, at: int, marker: Bytes): (right: Bytes)
    requires at < |marker|
    ensures |right| < |p| || p == []
  {
    if |marker| - at < |p| then p[|marker| - at..] else []
  }

  lemma {:induction false} ConcatAt<T>(a: seq<T>, b: seq<T>, c: seq<T>, k: nat)
    requires k < |a + b + c|
    ensures (a + b + c)[k] == if k < |a| then a[k] else if k < |a| + |b| then b[k - |a|] else c[k - |a| - |b|]
  {
  }

  lemma {:induction false} FitsAround(p: Bytes, at: int, marker: Bytes)
    requires p != [] && FitsAt(p, at, marker)
    ensures OccursAt(LeftOf(p, at) + marker + RightOf(p, at, marker), p, if at < 0 then 0 else at)
  {
    var left, right, i := LeftOf(p, at), RightOf(p, at, marker), if at < 0 then 0 else at;
    var out := left + marker + right;
    assert i + |p| <= |out|;
    forall j | i <= j < i + |p|
      ensures out[j] == p[j - i]
    {
      ConcatAt(left, marker, right, j);
      assert j - |left| == at + (j - i);
    }
    OccursBytewise(out, p, i);
  }

  /** The message that brings it back: the parts of `p` outside of the marker, around a long run of one byte that
      is itself a pattern. */
  lemma {:induction false} FittingPatternSurvives(p: Bytes, at: int, marker: Bytes)
    returns (msg: Bytes, patterns: seq<Bytes>, i: nat)
    requires p != [] && FitsAt(p, at, marker)
    ensures Survives(msg, patterns, p, i, marker)
  {
    var left, right := LeftOf(p, at), RightOf(p, at, marker);
    var b := OtherByte(p[0], p[|p| - 1],
                       if left == [] then p[0] else left[|left| - 1], if right == [] then p[0] else right[0]);
    var run: Bytes := seq(|p| + 1, _ => b);
    msg, patterns, i := left + run + right, [p, run], if at < 0 then 0 else at;
    var mask := Mask(msg, patterns);
    PatternsAround(p, b, left, run, right);
    forall k | 0 <= k < |msg|
      ensures mask[k] <==> |left| <= k < |left| + |run|
    {
      OnlyTheRunIsMasked(p, left, run, right, k);
    }
    RedactAround(left, run, right, mask, marker);
    FitsAround(p, at, marker);
  }

  lemma {:induction false} OtherByte(a: byte, b: byte, c: byte, d: byte) returns (e: byte)
    ensures e !in {a, b, c, d}
  {
    e := if 0 !in {a, b, c, d} then 0 else if 1 !in {a, b, c, d} then 1 else if 2 !in {a, b, c, d} then 2
         else if 3 !in {a, b, c, d} then 3 else 4;
  }

  /** In that message `p` does not occur, and the run in its own place only. */
  lemma {:induction false} PatternsAround(p: Bytes, b: byte, left: Bytes, run: Bytes, right: Bytes)
    requires |left| < |p| && |right| < |p| && |run| == |p| + 1 && forall n :: 0 <= n < |run| ==> run[n] == b
    requires p[0] != b && p[|p| - 1] != b && (left == [] || left[|left| - 1] != b) && (right == [] || right[0] != b)
    ensures forall i :: !OccursAt(left + run + right, p, i)
    ensures forall i :: OccursAt(left + run + right, run, i) <==> i == |left|
  {
    var msg := left + run + right;
    forall i
      ensures !OccursAt(msg, p, i)
    {
      if 0 <= i && i + |p| <= |msg| {
        assert msg[i] == b || msg[i + |p| - 1] == b;
        assert msg[i..i + |p|][0] == msg[i] && msg[i..i + |p|][|p| - 1] == msg[i + |p| - 1];
      }
    }
    assert msg[|left|..|left| + |run|] == run;
    forall i
      ensures OccursAt(msg, run, i) <==> i == |left|
    {
      if 0 <= i && i + |run| <= |msg| && i != |left| {
        var n := if i < |left| then |left| - 1 else |left| + |run|;
        assert msg[n] != b && msg[i..i + |run|][n - i] == msg[n];
      }
    }
  }

  lemma {:induction false} OnlyTheRunIsMasked(p: Bytes, left: Bytes, run: Bytes, right: Bytes, k: nat)
    requires forall i :: !OccursAt(left + run + right, p, i)
    requires forall i :: OccursAt(left + run + right, run, i) <==> i == |left|
    requires k < |left + run + right| && run != []
    ensures Covered(left + run + right, [p, run], k) <==> |left| <= k < |left| + |run|
  {
    var msg := left + run + right;
    assert run in [p, run];
    if |left| <= k < |left| + |run| {
      assert OccursAt(msg, run, |left|);
      assert CoveredBy(msg, run, k, |msg|);
    }
  }

  lemma {:induction false} RunLengthIs(mask: seq<bool>, n: nat)
    requires 1 <= n <= |mask| && (forall k :: 0 <= k < n ==> mask[k] == mask[0]) && (n < |mask| ==> mask[n] != mask[0])
    ensures RunLength(mask) == n
  {
  }

  lemma {:induction false} RedactPlain(msg: Bytes, mask: seq<bool>, marker: Bytes)
    requires |mask| == |msg| && forall k :: 0 <= k < |mask| ==> !mask[k]
    ensures Redact(msg, mask, marker) == msg
  {
    if msg != [] {
      RunLengthIs(mask, |msg|);
      RedactUnfold(msg, mask, |msg|, [], marker);
      assert Redact([], [], marker) == [];
      assert msg[..|msg|] == msg && msg[|msg|..] == [] && mask[|msg|..] == [];
    }
  }

  lemma {:induction false} RedactRun(run: Bytes, right: Bytes, mask: seq<bool>, marker: Bytes)
    requires run != [] && |mask| == |run + right|
    requires forall k :: 0 <= k < |mask| ==> (mask[k] <==> k < |run|)
    ensures Redact(run + right, mask, marker) == marker + right
  {
    RunLengthIs(mask, |run|);
    assert (run + right)[|run|..] == right;
    RedactPlain(right, mask[|run|..], marker);
    RedactUnfold(run + right, mask, |run|, right, marker);
  }

  lemma {:induction false} RedactAround(left: Bytes, run: Bytes, right: Bytes, mask: seq<bool>, marker: Bytes)
    requires run != [] && |mask| == |left + run + right|
    requires forall k :: 0 <= k < |mask| ==> (mask[k] <==> |left| <= k < |left| + |run|)
    ensures Redact(left + run + right, mask, marker) == left + marker + right
  {
    if left == [] {
      assert left + run + right == run + right && left + marker + right == marker + right;
      RedactRun(run, right, mask, marker);
    } else {
      var msg := left + run + right;
      assert msg[..|left|] == left && msg[|left|..] == run + right;
      RunLengthIs(mask, |left|);
      RedactRun(run, right, mask[|left|..], marker);
      RedactUnfold(msg, mask, |left|, marker + right, marker);
      Associate(left, marker, right);
    }
  }
}
