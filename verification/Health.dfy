/** The health clocks behind the liveness and readiness probes: internal/health/health.go. */
module Health {
  import opened Requests

  /** Times and durations in nanoseconds. */
  const SECOND := 1_000_000_000

  /** client-go retries a failing watch at least this often. */
  const WATCH_RETRY_CYCLE := 60 * SECOND

  function Min(a: int, b: int): int {
    if a < b then a else b
  }

  /** The fields of State that decide the probes. */
  datatype View = View(
    deadline: int,
    ready: bool,
    tokenValid: bool,
    tokenInvalidAt: Option<int>,
    tokenGrace: int,
    tokenFailAfter: int,
    watchErrorAt: Option<int>,
    watchLastErr: Option<int>,
    watchGrace: int)

  datatype Event =
    | Heartbeat(at: int, within: int)
    | ReconcileDone(clean: bool)
    | ReconcileSkipped
    | TokenGraceSet(grace: int, failAfter: int)
    | TokenValid
    | TokenInvalid(at: int)
    | WatchGraceSet(grace: int)
    | WatchError(at: int)
    | WatchHealthy

  /** The silence that ends a failure episode under a grace. */
  function QuietWindow(grace: int): int {
    Min(WATCH_RETRY_CYCLE, grace)
  }

  function Apply(v: View, e: Event): View {
    match e
    case Heartbeat(at, within) => v.(deadline := at + within)
    case ReconcileDone(clean) => if clean then v.(ready := true) else v
    case ReconcileSkipped => v
    case TokenGraceSet(grace, failAfter) => v.(tokenGrace := grace, tokenFailAfter := failAfter)
    case TokenValid => v.(tokenValid := true, tokenInvalidAt := None)
    case TokenInvalid(at) =>
      v.(tokenValid := false,
         tokenInvalidAt := if v.tokenValid || v.tokenInvalidAt.None? then Some(at) else v.tokenInvalidAt)
    case WatchGraceSet(grace) => v.(watchGrace := grace)
    case WatchError(at) =>
      var starts := v.watchErrorAt.None?
        || (v.watchLastErr.Some? && at - v.watchLastErr.value > QuietWindow(v.watchGrace));
      v.(watchErrorAt := if starts then Some(at) else v.watchErrorAt, watchLastErr := Some(at))
    case WatchHealthy => v.(watchErrorAt := None, watchLastErr := None)
  }

  function LoopLive(v: View, now: int): bool {
    now <= v.deadline
  }

  /** A valid token is inside every window; an invalid one while it has not been so for too long. */
  function TokenWithin(v: View, now: int, window: int): bool {
    v.tokenValid || v.tokenInvalidAt.None? || now - v.tokenInvalidAt.value <= window
  }

  function WatchReady(v: View, now: int): bool {
    var failing := v.watchErrorAt.Some? && v.watchLastErr.Some?
      && now - v.watchLastErr.value <= QuietWindow(v.watchGrace);
    !failing || now - v.watchErrorAt.value <= v.watchGrace
  }

  /** How a process starts. */
  datatype Origin = Origin(now: int, startupGrace: int, tokenGrace: int, tokenFailAfter: int, watchGrace: int)

  function Started(o: Origin): View {
    View(o.now + o.startupGrace, false, false, Some(o.now), o.tokenGrace, o.tokenFailAfter, None, None, o.watchGrace)
  }

  function Replay(v: View, h: seq<Event>): View {
    if h == [] then v else Apply(Replay(v, h[..|h| - 1]), h[|h| - 1])
  }

  /** The fields are real; where they started and what was reported since is ghost. */
  class State {
    ghost const origin: Origin
    ghost var history: seq<Event>
    var deadline: int
    var ready: bool
    var tokenValid: bool
    var tokenInvalidAt: Option<int>
    var tokenGrace: int
    var tokenFailAfter: int
    var watchErrorAt: Option<int>
    var watchLastErr: Option<int>
    var watchGrace: int

    function Fields(): View
      reads this
    {
      View(deadline, ready, tokenValid, tokenInvalidAt, tokenGrace, tokenFailAfter, watchErrorAt, watchLastErr,
           watchGrace)
    }

    ghost predicate Valid()
      reads this
    {
      Fields() == Replay(Started(origin), history)
    }

    constructor (now: int, startupGrace: int, tokenGrace: int, tokenFailAfter: int, watchGrace: int)
      ensures Valid() && history == []
      ensures origin == Origin(now, startupGrace, tokenGrace, tokenFailAfter, watchGrace)
    {
      origin, history := Origin(now, startupGrace, tokenGrace, tokenFailAfter, watchGrace), [];
      deadline, ready := now + startupGrace, false;
      tokenValid, tokenInvalidAt := false, Some(now);
      this.tokenGrace, this.tokenFailAfter := tokenGrace, tokenFailAfter;
      watchErrorAt, watchLastErr := None, None;
      this.watchGrace := watchGrace;
    }

    ghost method Note(e: Event)
      modifies `history
      ensures history == old(history) + [e]
      ensures Replay(Started(origin), history) == Apply(Replay(Started(origin), old(history)), e)
    {
      assert (history + [e])[..|history|] == history;
      history := history + [e];
    }

    method Beat(now: int, within: int)
      requires Valid()
      modifies this
      ensures Valid() && history == old(history) + [Heartbeat(now, within)]
    {
      Note(Heartbeat(now, within));
      deadline := now + within;
    }

    method SetWatchGrace(d: int)
      requires Valid()
      modifies this
      ensures Valid() && history == old(history) + [WatchGraceSet(d)]
    {
      Note(WatchGraceSet(d));
      watchGrace := d;
    }

    method SetTokenGrace(grace: int, failAfter: int)
      requires Valid()
      modifies this
      ensures Valid() && history == old(history) + [TokenGraceSet(grace, failAfter)]
    {
      Note(TokenGraceSet(grace, failAfter));
      tokenGrace, tokenFailAfter := grace, failAfter;
    }

    method RecordWatchError(now: int)
      requires Valid()
      modifies this
      ensures Valid() && history == old(history) + [WatchError(now)]
    {
      Note(WatchError(now));
      if watchErrorAt.None? || (watchLastErr.Some? && now - watchLastErr.value > QuietWindow(watchGrace)) {
        watchErrorAt := Some(now);
      }
      watchLastErr := Some(now);
    }

    method RecordWatchHealthy()
      requires Valid()
      modifies this
      ensures Valid() && history == old(history) + [WatchHealthy]
    {
      Note(WatchHealthy);
      watchErrorAt, watchLastErr := None, None;
    }

    method RecordTokenValid()
      requires Valid()
      modifies this
      ensures Valid() && history == old(history) + [TokenValid]
    {
      Note(TokenValid);
      tokenValid := true;
      tokenInvalidAt := None;
    }

    method RecordTokenInvalid(now: int)
      requires Valid()
      modifies this
      ensures Valid() && history == old(history) + [TokenInvalid(now)]
    {
      Note(TokenInvalid(now));
      if tokenValid || tokenInvalidAt.None? {
        tokenInvalidAt := Some(now);
      }
      tokenValid := false;
    }

    method RecordReconcile(failed: bool)
      requires Valid()
      modifies this
      ensures Valid() && history == old(history) + [ReconcileDone(!failed)]
    {
      Note(ReconcileDone(!failed));
      if failed {
        return;
      }
      ready := true;
    }

    /** The decision part of snapshot; `watcherRunning` is what the informer says. */
    method Snapshot(now: int, watcherRunning: bool) returns (live: bool, isReady: bool)
      requires Valid()
      ensures live <==> watcherRunning && LoopInTime(origin, history, now) && !TokenPastLimit(origin, history, now)
      ensures isReady <==> watcherRunning && ReconcileDone(true) in history && !TokenPastGrace(origin, history, now)
                           && !WatchPastGrace(origin, history, now)
    {
      ClocksAreConsistent(Started(origin), history);
      FieldsMean(origin, history, now);
      var loopLive := !(now > deadline);
      var tokenDown := 0;
      if !tokenValid {
        tokenDown := now - tokenInvalidAt.value;
      }
      var tokenReady := tokenValid || tokenDown <= tokenGrace;
      var tokenLive := tokenValid || tokenDown <= tokenFailAfter;
      var watchDown := 0;
      if watchErrorAt.Some? {
        watchDown := now - watchErrorAt.value;
      }
      var watchFailing := watchErrorAt.Some? && now - watchLastErr.value <= QuietWindow(watchGrace);
      var watchReady := !watchFailing || watchDown <= watchGrace;
      live := loopLive && tokenLive && watcherRunning;
      isReady := ready && tokenReady && watchReady && watcherRunning;
    }
  }

  // ----- Over every history -----

  /** The loop promised its next sign of life by `due`: with its last heartbeat, or at the start. */
  ghost predicate LoopDue(o: Origin, h: seq<Event>, due: int) {
    || (due == o.now + o.startupGrace && forall j :: 0 <= j < |h| ==> !h[j].Heartbeat?)
    || exists i :: LastHeartbeat(h, i) && due == h[i].at + h[i].within
  }

  ghost predicate LastHeartbeat(h: seq<Event>, i: int) {
    0 <= i < |h| && h[i].Heartbeat? && forall j :: i < j < |h| ==> !h[j].Heartbeat?
  }

  ghost predicate LoopInTime(o: Origin, h: seq<Event>, now: int) {
    exists due :: LoopDue(o, h, due) && now <= due
  }

  lemma {:induction false} DeadlineIsTheLastHeartbeat(o: Origin, h: seq<Event>, due: int)
    ensures LoopDue(o, h, due) <==> Replay(Started(o), h).deadline == due
  {
    if h != [] {
      var before, last := h[..|h| - 1], |h| - 1;
      DeadlineIsTheLastHeartbeat(o, before, due);
      if h[last].Heartbeat? {
        assert LastHeartbeat(h, last) && forall i :: LastHeartbeat(h, i) ==> i == last;
      } else {
        assert forall i :: LastHeartbeat(h, i) <==> LastHeartbeat(before, i);
      }
    }
  }

  /** The startup gate opens on the first clean pass and never closes; failed and skipped passes do not
      open it. */
  lemma {:induction false} ReadyIffSomeCleanPass(v: View, h: seq<Event>)
    requires !v.ready
    ensures Replay(v, h).ready <==> ReconcileDone(true) in h
  {
    if h != [] {
      ReadyIffSomeCleanPass(v, h[..|h| - 1]);
      assert h == h[..|h| - 1] + [h[|h| - 1]];
    }
  }

  // ----- The token -----

  /** The windows in force: those set last, or those of the start. */
  ghost predicate TokenWindows(o: Origin, h: seq<Event>, grace: int, failAfter: int) {
    || (grace == o.tokenGrace && failAfter == o.tokenFailAfter && forall j :: 0 <= j < |h| ==> !h[j].TokenGraceSet?)
    || exists i :: && 0 <= i < |h| && h[i] == TokenGraceSet(grace, failAfter)
                   && forall j :: i < j < |h| ==> !h[j].TokenGraceSet?
  }

  lemma {:induction false} TokenWindowsAreTheLastSet(o: Origin, h: seq<Event>, grace: int, failAfter: int)
    ensures var now := Replay(Started(o), h);
            TokenWindows(o, h, grace, failAfter) <==> now.tokenGrace == grace && now.tokenFailAfter == failAfter
  {
    if h != [] {
      var before, last := h[..|h| - 1], |h| - 1;
      TokenWindowsAreTheLastSet(o, before, grace, failAfter);
      assert forall j :: 0 <= j < last ==> before[j] == h[j];
      assert h[last].TokenGraceSet? ==>
               (TokenWindows(o, h, grace, failAfter) <==> h[last] == TokenGraceSet(grace, failAfter));
    }
  }

  /** Event `i` is the first token failure after `v`, the last event that made the token valid; `v` is
      -1 when none did. */
  ghost predicate LastValid(h: seq<Event>, v: int) {
    -1 <= v < |h| && (v >= 0 ==> h[v] == TokenValid) && forall j :: v < j < |h| ==> h[j] != TokenValid
  }

  ghost predicate FirstInvalidAfter(h: seq<Event>, v: int, i: int) {
    v < i < |h| && i >= 0 && h[i].TokenInvalid? && forall j :: v < j < i && j >= 0 ==> !h[j].TokenInvalid?
  }

  /** The token has been failing since `t`: since the first failure after it was last valid, or since the start of the
      process if it never was. */
  ghost predicate TokenDownSince(o: Origin, h: seq<Event>, t: int) {
    exists v :: && LastValid(h, v)
                && if v == -1 then t == o.now else exists i :: FirstInvalidAfter(h, v, i) && t == h[i].at
  }

  ghost predicate TokenPastGrace(o: Origin, h: seq<Event>, now: int) {
    exists t, grace, failAfter ::
      TokenDownSince(o, h, t) && TokenWindows(o, h, grace, failAfter) && now - t > grace
  }

  ghost predicate TokenPastLimit(o: Origin, h: seq<Event>, now: int) {
    exists t, grace, failAfter ::
      TokenDownSince(o, h, t) && TokenWindows(o, h, grace, failAfter) && now - t > failAfter
  }

  /** The token clock always reads the first failure since the token was last valid, or the start of the
      process if it never was; repeated failures never restart it. */
  lemma {:induction false} TokenClockIsTheFirstFailure(start: int, v: View, h: seq<Event>) returns (valid: int)
    requires !v.tokenValid && v.tokenInvalidAt == Some(start)
    ensures LastValid(h, valid)
    ensures var now := Replay(v, h);
            && (valid == -1 ==> !now.tokenValid && now.tokenInvalidAt == Some(start))
            && (valid >= 0 ==> (now.tokenValid <==> forall j :: valid < j < |h| ==> !h[j].TokenInvalid?))
            && (now.tokenValid ==> now.tokenInvalidAt == None)
            && (valid >= 0 && !now.tokenValid ==>
                  exists i :: FirstInvalidAfter(h, valid, i) && now.tokenInvalidAt == Some(h[i].at))
  {
    valid := -1;
    if h != [] {
      var e, before := h[|h| - 1], h[..|h| - 1];
      valid := TokenClockIsTheFirstFailure(start, v, before);
      if e.TokenValid? {
        valid := |h| - 1;
      } else if valid >= 0 {
        if Replay(v, before).tokenValid {
          if e.TokenInvalid? {
            assert FirstInvalidAfter(h, valid, |h| - 1);
          }
        } else {
          var i :| FirstInvalidAfter(before, valid, i) && Replay(v, before).tokenInvalidAt == Some(before[i].at);
          assert FirstInvalidAfter(h, valid, i);
          assert h[i].TokenInvalid?;
        }
      }
    }
  }

  lemma {:induction false} TokenDownIff(o: Origin, h: seq<Event>, t: int)
    ensures var now := Replay(Started(o), h);
            TokenDownSince(o, h, t) <==> !now.tokenValid && now.tokenInvalidAt == Some(t)
  {
    var v := TokenClockIsTheFirstFailure(o.now, Started(o), h);
    assert forall u :: LastValid(h, u) ==> u == v;
    var now := Replay(Started(o), h);
    if v >= 0 && !now.tokenValid {
      var i :| FirstInvalidAfter(h, v, i) && now.tokenInvalidAt == Some(h[i].at);
      assert forall k :: FirstInvalidAfter(h, v, k) ==> k == i;
    }
  }

  // ----- The watch -----

  /** The watch grace in force: the one set last, or that of the start. */
  ghost predicate WatchGraceIn(o: Origin, h: seq<Event>, grace: int) {
    || (grace == o.watchGrace && forall j :: 0 <= j < |h| ==> !h[j].WatchGraceSet?)
    || exists i :: && 0 <= i < |h| && h[i] == WatchGraceSet(grace)
                   && forall j :: i < j < |h| ==> !h[j].WatchGraceSet?
  }

  lemma {:induction false} WatchGraceIsTheLastSet(o: Origin, h: seq<Event>, grace: int)
    ensures WatchGraceIn(o, h, grace) <==> Replay(Started(o), h).watchGrace == grace
  {
    if h != [] {
      var before, last := h[..|h| - 1], |h| - 1;
      WatchGraceIsTheLastSet(o, before, grace);
      assert forall j :: 0 <= j < last ==> before[j] == h[j];
      assert h[last].WatchGraceSet? ==> (WatchGraceIn(o, h, grace) <==> h[last] == WatchGraceSet(grace));
    }
  }

  /** Two failures with nothing of the watch in between. */
  ghost predicate NextFailure(h: seq<Event>, a: int, b: int) {
    && 0 <= a < b < |h| && h[a].WatchError? && h[b].WatchError?
    && forall j :: a < j < b ==> !h[j].WatchError? && h[j] != WatchHealthy
  }

  /** They are of one episode: no further apart than a minute, nor than the grace in force. */
  ghost predicate Joined(o: Origin, h: seq<Event>, a: int, b: int) {
    NextFailure(h, a, b) && exists grace ::
      WatchGraceIn(o, h[..b], grace) && h[b].at - h[a].at <= grace && h[b].at - h[a].at <= 60_000_000_000
  }

  /** The last episode began with failure `s`, and nothing was delivered since. */
  ghost predicate EpisodeFrom(o: Origin, h: seq<Event>, s: int) {
    && 0 <= s < |h| && h[s].WatchError? && (forall j :: s < j < |h| ==> h[j] != WatchHealthy)
    && (forall a :: !Joined(o, h, a, s))
    && forall a, b :: s <= a && NextFailure(h, a, b) ==> Joined(o, h, a, b)
  }

  ghost predicate LastFailure(h: seq<Event>, l: int) {
    0 <= l < |h| && h[l].WatchError? && forall j :: l < j < |h| ==> !h[j].WatchError? && h[j] != WatchHealthy
  }

  /** The last failure is no older than a minute, nor than the grace, and its episode began more than the grace ago. */
  ghost predicate WatchPastGrace(o: Origin, h: seq<Event>, now: int) {
    exists s, l, grace ::
      && EpisodeFrom(o, h, s) && LastFailure(h, l) && WatchGraceIn(o, h, grace)
      && now - h[l].at <= grace && now - h[l].at <= 60_000_000_000 && now - h[s].at > grace
  }

  lemma {:induction false} JoinedStays(o: Origin, before: seq<Event>, e: Event, a: int, b: int)
    requires b < |before|
    ensures NextFailure(before + [e], a, b) <==> NextFailure(before, a, b)
    ensures Joined(o, before + [e], a, b) <==> Joined(o, before, a, b)
  {
    if 0 <= b {
      assert (before + [e])[..b] == before[..b];
    }
  }

  /** Of two failures in a row the later begins an episode, or belongs to that of the earlier, by the grace then in
      force. */
  lemma {:induction false} JoinedIff(o: Origin, before: seq<Event>, at: int, l: int)
    requires LastFailure(before, l)
    ensures var (h, n, v) := (before + [WatchError(at)], |before|, Replay(Started(o), before));
            && NextFailure(h, l, n) && (forall a :: NextFailure(h, a, n) ==> a == l)
            && (Joined(o, h, l, n) <==> at - before[l].at <= QuietWindow(v.watchGrace))
  {
    var h, n, v := before + [WatchError(at)], |before|, Replay(Started(o), before);
    assert h[..n] == before;
    forall grace
      ensures WatchGraceIn(o, before, grace) <==> v.watchGrace == grace
    {
      WatchGraceIsTheLastSet(o, before, grace);
    }
    assert WatchGraceIn(o, before, v.watchGrace);
    assert forall a :: 0 <= a < n ==> h[a] == before[a];
  }

  /** The watch clock is the first failure of the last episode, and the last failure. */
  lemma {:induction false} WatchClockIsTheEpisode(o: Origin, h: seq<Event>) returns (s: int, l: int)
    ensures var now := Replay(Started(o), h);
            if now.watchErrorAt.None? then now.watchLastErr.None? && forall k :: !LastFailure(h, k)
            else && EpisodeFrom(o, h, s) && LastFailure(h, l)
                 && now.watchErrorAt == Some(h[s].at) && now.watchLastErr == Some(h[l].at)
  {
    s, l := -1, -1;
    if h != [] {
      var before, e := h[..|h| - 1], h[|h| - 1];
      assert h == before + [e];
      s, l := WatchClockIsTheEpisode(o, before);
      forall a, b | b < |before|
        ensures NextFailure(h, a, b) <==> NextFailure(before, a, b)
        ensures Joined(o, h, a, b) <==> Joined(o, before, a, b)
      {
        JoinedStays(o, before, e, a, b);
      }
      if e.WatchError? {
        s := EpisodeOf(o, before, e.at, s, l);
        l := |before|;
      } else if !e.WatchHealthy? {
        assert forall k :: LastFailure(h, k) <==> LastFailure(before, k);
      }
    }
  }

  /** Where the episode of one more failure begins. */
  lemma {:induction false} EpisodeOf(o: Origin, before: seq<Event>, at: int, s: int, l: int) returns (start: int)
    requires var v := Replay(Started(o), before);
             if v.watchErrorAt.None? then v.watchLastErr.None? && forall k :: !LastFailure(before, k)
             else && EpisodeFrom(o, before, s) && LastFailure(before, l)
                  && v.watchErrorAt == Some(before[s].at) && v.watchLastErr == Some(before[l].at)
    ensures var h, now := before + [WatchError(at)], Apply(Replay(Started(o), before), WatchError(at));
            && EpisodeFrom(o, h, start) && LastFailure(h, |before|) && now.watchErrorAt == Some(h[start].at)
  {
    var h, n, v := before + [WatchError(at)], |before|, Replay(Started(o), before);
    if v.watchErrorAt.None? {
      start := n;
      forall a
        ensures !NextFailure(h, a, n)
      {
        assert NextFailure(h, a, n) ==> LastFailure(before, a);
      }
    } else {
      JoinedIff(o, before, at, l);
      start := if Joined(o, h, l, n) then s else n;
      forall a, b | b < n
        ensures NextFailure(h, a, b) <==> NextFailure(before, a, b)
        ensures Joined(o, h, a, b) <==> Joined(o, before, a, b)
      {
        JoinedStays(o, before, WatchError(at), a, b);
      }
    }
  }

  /** There is one last episode at most. */
  lemma {:induction false} EpisodeIsUnique(o: Origin, h: seq<Event>, s: int, t: int)
    requires EpisodeFrom(o, h, s) && EpisodeFrom(o, h, t)
    ensures s == t
  {
    if s < t {
      var a := FailureBefore(h, s, t);
    } else if t < s {
      var a := FailureBefore(h, t, s);
    }
  }

  lemma {:induction false} FailureBefore(h: seq<Event>, s: int, t: int) returns (a: int)
    requires 0 <= s < t < |h| && h[s].WatchError? && h[t].WatchError?
    requires forall j :: s < j < |h| ==> h[j] != WatchHealthy
    ensures s <= a && NextFailure(h, a, t)
  {
    a := t - 1;
    while !h[a].WatchError?
      invariant s <= a < t && forall j :: a < j < t ==> !h[j].WatchError?
      decreases a
    {
      a := a - 1;
    }
  }

  /** The watch half of readiness fails at `now` exactly when the last episode is still on and began more than the grace
      ago. */
  lemma {:induction false} WatchUnreadyIff(o: Origin, h: seq<Event>, now: int)
    ensures !WatchReady(Replay(Started(o), h), now) <==> WatchPastGrace(o, h, now)
  {
    var v := Replay(Started(o), h);
    var s, l := WatchClockIsTheEpisode(o, h);
    forall grace
      ensures WatchGraceIn(o, h, grace) <==> v.watchGrace == grace
    {
      WatchGraceIsTheLastSet(o, h, grace);
    }
    if v.watchErrorAt.Some? {
      forall t | EpisodeFrom(o, h, t)
        ensures t == s
      {
        EpisodeIsUnique(o, h, s, t);
      }
      assert forall k :: LastFailure(h, k) ==> k == l;
      assert WatchGraceIn(o, h, v.watchGrace);
    }
  }

  // ----- The probes -----

  /** The probes' preconditions hold after every history: a token without a clock is a valid one, and
      the two watch clocks run together. */
  lemma {:induction false} ClocksAreConsistent(v: View, h: seq<Event>)
    requires v.tokenValid || v.tokenInvalidAt.Some?
    requires v.watchErrorAt.Some? <==> v.watchLastErr.Some?
    ensures var now := Replay(v, h);
            (now.tokenValid || now.tokenInvalidAt.Some?) && (now.watchErrorAt.Some? <==> now.watchLastErr.Some?)
  {
    if h != [] {
      ClocksAreConsistent(v, h[..|h| - 1]);
    }
  }

  /** What the fields say at `now`, in terms of what was reported. */
  lemma {:induction false} FieldsMean(o: Origin, h: seq<Event>, now: int)
    ensures var v := Replay(Started(o), h);
            && (LoopLive(v, now) <==> LoopInTime(o, h, now))
            && (v.ready <==> ReconcileDone(true) in h)
            && (TokenWithin(v, now, v.tokenGrace) <==> !TokenPastGrace(o, h, now))
            && (TokenWithin(v, now, v.tokenFailAfter) <==> !TokenPastLimit(o, h, now))
            && (WatchReady(v, now) <==> !WatchPastGrace(o, h, now))
  {
    var v := Replay(Started(o), h);
    DeadlineIsTheLastHeartbeat(o, h, v.deadline);
    forall due
      ensures LoopDue(o, h, due) <==> v.deadline == due
    {
      DeadlineIsTheLastHeartbeat(o, h, due);
    }
    ReadyIffSomeCleanPass(Started(o), h);
    TokenMeans(o, h, now);
    WatchUnreadyIff(o, h, now);
  }

  lemma {:induction false} TokenMeans(o: Origin, h: seq<Event>, now: int)
    ensures var v := Replay(Started(o), h);
            && (TokenWithin(v, now, v.tokenGrace) <==> !TokenPastGrace(o, h, now))
            && (TokenWithin(v, now, v.tokenFailAfter) <==> !TokenPastLimit(o, h, now))
  {
    var v := Replay(Started(o), h);
    forall grace, failAfter
      ensures TokenWindows(o, h, grace, failAfter) <==> v.tokenGrace == grace && v.tokenFailAfter == failAfter
    {
      TokenWindowsAreTheLastSet(o, h, grace, failAfter);
    }
    forall t
      ensures TokenDownSince(o, h, t) <==> !v.tokenValid && v.tokenInvalidAt == Some(t)
    {
      TokenDownIff(o, h, t);
    }
    if v.tokenInvalidAt.Some? {
      assert TokenWindows(o, h, v.tokenGrace, v.tokenFailAfter);
      assert !v.tokenValid ==> TokenDownSince(o, h, v.tokenInvalidAt.value);
    }
  }
}
