/** The role client: internal/vault/roles.go, EnsureRole and its memory of written key sets. */
module RoleWrites {
  import opened Requests
  import opened RoleValues
  import opened Strings

  const NUL: char := '\0'

  /** roleKeySet: a body's key names as one comparable string. */
  ghost function RoleKeySet(keys: set<string>): string {
    Join(SortedKeys(keys), NUL)
  }

  method ComputeRoleKeySet(data: Body) returns (s: string)
    ensures s == RoleKeySet(data.Keys)
  {
    var sorted := SortKeys(data.Keys);
    s := Join(sorted, NUL);
  }

  /** Two key sets render alike iff they are equal, but for the empty set and the set of one empty
      name, which both render as the empty string. */
  lemma {:induction false} KeySetsAreToldApart(a: set<string>, b: set<string>)
    requires forall k :: k in a + b ==> '\0' !in k
    ensures RoleKeySet(a) == RoleKeySet(b) <==> a == b || (a <= {""} && b <= {""})
  {
    var s, t := SortedKeys(a), SortedKeys(b);
    assert forall k :: k in s ==> k in ElementsOf(s);
    assert forall k :: k in t ==> k in ElementsOf(t);
    SplitJoin(s, NUL);
    SplitJoin(t, NUL);
    if a <= {""} {
      RendersEmpty(a);
    }
    if b <= {""} {
      RendersEmpty(b);
    }
    if RoleKeySet(a) == RoleKeySet(b) && s != t {
      assert s == [""] || t == [""];
      assert ElementsOf([""]) == {""} && ElementsOf([]) == {};
    }
  }

  lemma {:induction false} RendersEmpty(a: set<string>)
    requires a <= {""}
    ensures RoleKeySet(a) == ""
  {
    var t := if a == {} then [] else [""];
    assert ElementsOf([""]) == {""} && ElementsOf([]) == {};
    IncreasingIsUnique(SortedKeys(a), t);
  }

  // ----- A smaller key set renders shorter -----

  ghost function Weight(keys: seq<string>): nat {
    if keys == [] then 0 else |keys[0]| + 1 + Weight(keys[1..])
  }

  lemma {:induction false} JoinLength(keys: seq<string>, sep: char)
    requires keys != []
    ensures |Join(keys, sep)| == Weight(keys) - 1
  {
    if |keys| > 1 {
      JoinLength(keys[1..], sep);
    }
  }

  lemma {:induction false} WeightWithout(keys: seq<string>, i: nat)
    requires i < |keys|
    ensures Weight(keys) == Weight(keys[..i] + keys[i + 1..]) + |keys[i]| + 1
  {
    if i == 0 {
      assert keys[..0] + keys[1..] == keys[1..];
    } else {
      var rest := keys[1..];
      WeightWithout(rest, i - 1);
      assert keys[..i] + keys[i + 1..] == [keys[0]] + (rest[..i - 1] + rest[i..]);
    }
  }

  ghost predicate NoneTwice(keys: seq<string>) {
    forall i, j :: 0 <= i < j < |keys| ==> keys[i] != keys[j]
  }

  lemma {:induction false} FewerWeighLess(some: seq<string>, all: seq<string>)
    requires NoneTwice(some) && NoneTwice(all) && forall k :: k in some ==> k in all
    ensures Weight(some) <= Weight(all)
    ensures Weight(some) == Weight(all) ==> forall k :: k in all ==> k in some
  {
    if some == [] {
      assert all != [] ==> Weight(all) > 0;
    } else {
      assert some[0] in all;
      var i :| 0 <= i < |all| && all[i] == some[0];
      var rest, others := some[1..], all[..i] + all[i + 1..];
      WeightWithout(all, i);
      OthersAre(all, i);
      assert forall k :: k in rest ==> k in some && k != some[0];
      FewerWeighLess(rest, others);
      assert forall k :: k in rest ==> k in some;
    }
  }

  lemma {:induction false} OthersAre(all: seq<string>, i: nat)
    requires NoneTwice(all) && i < |all|
    ensures var others := all[..i] + all[i + 1..];
            NoneTwice(others) && forall k :: k in others <==> k in all && k != all[i]
  {
    var others := all[..i] + all[i + 1..];
    forall j | 0 <= j < |all| && j != i
      ensures all[j] in others
    {
      assert others[if j < i then j else j - 1] == all[j];
    }
  }

  lemma {:induction false} IncreasingNoneTwice(keys: seq<string>)
    requires Increasing(keys)
    ensures NoneTwice(keys)
  {
    forall i, j | 0 <= i < j < |keys|
      ensures keys[i] != keys[j]
    {
      LessIrreflexive(keys[i]);
    }
  }

  /** A proper subset of the key names renders differently, whatever the names are, unless the empty name was the only
      one. */
  lemma {:induction false} SubsetRendersAlikeIff(some: set<string>, all: set<string>)
    requires some < all
    ensures RoleKeySet(some) == RoleKeySet(all) <==> all == {""}
  {
    var s, t := SortedKeys(some), SortedKeys(all);
    assert forall k :: k in s <==> k in ElementsOf(s);
    assert forall k :: k in t <==> k in ElementsOf(t);
    if all == {""} {
      RendersEmpty(some);
      RendersEmpty(all);
    } else {
      IncreasingNoneTwice(s);
      IncreasingNoneTwice(t);
      FewerWeighLess(s, t);
      JoinLength(t, NUL);
      if s == [] {
        OnlyTheEmptyNameIsWeightless(t, all);
      } else {
        JoinLength(s, NUL);
      }
    }
  }

  lemma {:induction false} OnlyTheEmptyNameIsWeightless(t: seq<string>, all: set<string>)
    requires t != [] && ElementsOf(t) == all && all != {""} && NoneTwice(t)
    ensures Weight(t) > 1
  {
    assert t == [t[0]] + t[1..];
    if |t| == 1 {
      assert ElementsOf(t) == {t[0]};
    } else {
      assert Weight(t[1..]) > 0;
    }
  }

  /** Vault's side of the role paths: what each role reads back as.  A plugin merges a written body
      into the stored one or replaces it, fills in defaults, and may respell every value. */
  datatype Plugin = Plugin(roles: map<string, Body>, merges: bool, defaults: Body, readBack: Value -> Value)

  function Respelled(pl: Plugin, body: Body): Body {
    map k | k in body :: pl.readBack(body[k])
  }

  function WriteRole(pl: Plugin, path: string, body: Body): Plugin {
    var base := if pl.merges && path in pl.roles then pl.roles[path] else pl.defaults;
    pl.(roles := pl.roles[path := base + Respelled(pl, body)])
  }

  /** Values without NaN read back canonically equal to what was written. */
  ghost predicate FaithfulReadBack(rd: Reader, pl: Plugin) {
    forall v :: NaNFree(rd, v) ==> Same(rd, pl.readBack(v), v)
  }

  ghost predicate BodyNaNFree(rd: Reader, body: Body) {
    forall k :: k in body ==> NaNFree(rd, body[k])
  }

  datatype Report = Unchanged | Wrote | Failed

  /** A manager process and the plugin it writes to. */
  datatype Session = Session(roleKeys: map<string, string>, plugin: Plugin)

  /** What one EnsureRole call does; `readable` is false when the read fails or serves no role. */
  ghost function EnsureStep(rd: Reader, s: Session, path: string, data: Body, readable: bool, fate: Fate)
    : (Session, Report)
  {
    if && path in s.roleKeys && s.roleKeys[path] == RoleKeySet(data.Keys)
       && readable && path in s.plugin.roles && UpToDate(rd, s.plugin.roles[path], data)
    then (s, Unchanged)
    else
      match fate
      case Done =>
        (Session(s.roleKeys[path := RoleKeySet(data.Keys)], WriteRole(s.plugin, path, data)), Wrote)
      case DoneButError => (s.(plugin := WriteRole(s.plugin, path, data)), Failed)
      case NotDone => (s, Failed)
  }

  /** The role part of the Vault client. */
  class Client {
    const rd: Reader
    var roleKeys: map<string, string>

    constructor (rd: Reader)
      ensures roleKeys == map[] && this.rd == rd
    {
      this.rd := rd;
      roleKeys := map[];
    }

    method SameRoleKeysAsLastWrite(path: string, data: Body) returns (same: bool)
      ensures same <==> path in roleKeys && roleKeys[path] == RoleKeySet(data.Keys)
    {
      if path !in roleKeys {
        return false;
      }
      var keys := ComputeRoleKeySet(data);
      same := roleKeys[path] == keys;
    }

    method RecordRoleKeys(path: string, data: Body)
      modifies this
      ensures roleKeys == old(roleKeys)[path := RoleKeySet(data.Keys)]
    {
      var keys := ComputeRoleKeySet(data);
      roleKeys := roleKeys[path := keys];
    }

    /** EnsureRole against a plugin `pl`, with the plugin as it is afterwards. */
    method EnsureRole(pl: Plugin, path: string, data: Body, readable: bool, fate: Fate)
      returns (after: Plugin, report: Report)
      modifies this
      ensures (Session(roleKeys, after), report) ==
              EnsureStep(rd, old(Session(roleKeys, pl)), path, data, readable, fate)
    {
      after := pl;
      var sameKeys := SameRoleKeysAsLastWrite(path, data);
      if sameKeys && readable && path in pl.roles {
        ghost var whole := Object(data);
        var upToDate := RoleUpToDate(rd, pl.roles[path], data, whole);
        if upToDate {
          return after, Unchanged;
        }
      }
      match fate
      case NotDone =>
        report := Failed;
      case DoneButError =>
        after, report := WriteRole(pl, path, data), Failed;
      case Done =>
        RecordRoleKeys(path, data);
        after, report := WriteRole(pl, path, data), Wrote;
    }
  }

  // ----- Over runs of one process -----

  /** One EnsureRole call as it happened, or a change of the plugin's roles by somebody else. */
  datatype Event =
    | Call(path: string, data: Body, readable: bool, fate: Fate)
    | Outside(roles: map<string, Body>)

  ghost function RunEvents(rd: Reader, s: Session, events: seq<Event>): Session {
    if events == [] then s
    else
      var before := RunEvents(rd, s, events[..|events| - 1]);
      match events[|events| - 1]
      case Call(path, data, readable, fate) => EnsureStep(rd, before, path, data, readable, fate).0
      case Outside(roles) => before.(plugin := before.plugin.(roles := roles))
  }

  /** What each event of the run reported; outside changes report nothing. */
  ghost function Reports(rd: Reader, s: Session, events: seq<Event>): (reports: seq<Report>)
    ensures |reports| == |events|
  {
    if events == [] then []
    else
      var prefix := events[..|events| - 1];
      Reports(rd, s, prefix) +
      [ReportOf(rd, RunEvents(rd, s, prefix), events[|events| - 1])]
  }

  ghost function ReportOf(rd: Reader, s: Session, e: Event): Report {
    match e
    case Call(path, data, readable, fate) => EnsureStep(rd, s, path, data, readable, fate).1
    case Outside(_) => Unchanged
  }

  lemma {:induction false} ReportsAt(rd: Reader, s: Session, events: seq<Event>, m: nat)
    requires m < |events|
    ensures Reports(rd, s, events)[m] == ReportOf(rd, RunEvents(rd, s, events[..m]), events[m])
  {
    if m < |events| - 1 {
      ReportsAt(rd, s, events[..|events| - 1], m);
      assert events[..|events| - 1][..m] == events[..m];
    }
  }

  /** Event `n` was an acknowledged write of `path`, and no later one was. */
  ghost predicate LastWrite(events: seq<Event>, reports: seq<Report>, path: string, n: nat) {
    && n < |events| == |reports| && events[n].Call? && events[n].path == path && reports[n] == Wrote
    && forall m :: n < m < |events| && events[m].Call? && events[m].path == path ==> reports[m] != Wrote
  }

  /** In every run of a process that starts with no memory, a remembered key set is that of the last
      acknowledged write to the path in this run. */
  lemma {:induction false} MemoryIsTheLastWrite(rd: Reader, s: Session, events: seq<Event>, path: string)
    returns (n: nat)
    requires s.roleKeys == map[]
    requires path in RunEvents(rd, s, events).roleKeys
    ensures LastWrite(events, Reports(rd, s, events), path, n)
    ensures RunEvents(rd, s, events).roleKeys[path] == RoleKeySet(events[n].data.Keys)
  {
    var last := |events| - 1;
    var e, prefix, report := events[last], events[..last], Reports(rd, s, events)[last];
    assert Reports(rd, s, events) == Reports(rd, s, prefix) + [report];
    if e.Call? && e.path == path && report == Wrote {
      n := last;
    } else {
      assert Lookup(RunEvents(rd, s, events).roleKeys, path) == Lookup(RunEvents(rd, s, prefix).roleKeys, path);
      n := MemoryIsTheLastWrite(rd, s, prefix, path);
      LastWriteStays(prefix, Reports(rd, s, prefix), e, report, path, n);
      assert prefix + [e] == events;
    }
  }

  function Lookup(roleKeys: map<string, string>, path: string): Option<string> {
    if path in roleKeys then Some(roleKeys[path]) else None
  }

  lemma {:induction false} LastWriteStays(events: seq<Event>, reports: seq<Report>, e: Event, report: Report,
                                          path: string, n: nat)
    requires LastWrite(events, reports, path, n)
    requires !(e.Call? && e.path == path && report == Wrote)
    ensures LastWrite(events + [e], reports + [report], path, n)
  {
  }

  /** A call that reports nothing to do has looked right: in this process the last acknowledged write to the path had
      the same key names, and every declared key reads back as declared. */
  lemma {:induction false} SilenceIsSound(rd: Reader, s: Session, events: seq<Event>, call: Event) returns (n: nat)
    requires s.roleKeys == map[] && call.Call?
    requires EnsureStep(rd, RunEvents(rd, s, events), call.path, call.data, call.readable, call.fate).1 == Unchanged
    requires ProperKeys(call.data) && forall m :: 0 <= m < |events| && events[m].Call? ==> ProperKeys(events[m].data)
    ensures LastWrite(events, Reports(rd, s, events), call.path, n)
    ensures events[n].data.Keys == call.data.Keys
    ensures var roles := RunEvents(rd, s, events).plugin.roles;
            call.path in roles && UpToDate(rd, roles[call.path], call.data)
  {
    n := MemoryIsTheLastWrite(rd, s, events, call.path);
    KeySetsAreToldApart(events[n].data.Keys, call.data.Keys);
  }

  /** Key names a JSON document can carry and a plugin can mean: not empty, without NUL. */
  ghost predicate ProperKeys(data: Body) {
    forall k :: k in data ==> k != "" && '\0' !in k
  }

  // ----- What silence leaves behind -----

  /** Event `m` of the run is a call of the path that took effect and was reported as failed. */
  ghost predicate Unacknowledged(rd: Reader, s: Session, events: seq<Event>, path: string, m: nat) {
    && m < |events| && events[m].Call? && events[m].path == path && events[m].fate.DoneButError?
    && ReportOf(rd, RunEvents(rd, s, events[..m]), events[m]) == Failed
  }

  /** No write to the path is acknowledged at event `m`, and nobody else changes what the path holds. */
  ghost predicate Unsettled(rd: Reader, s: Session, events: seq<Event>, path: string, m: nat)
    requires m < |events|
  {
    var before, e := RunEvents(rd, s, events[..m]), events[m];
    match e
    case Call(p, _, _, _) => p == path ==> ReportOf(rd, before, e) != Wrote
    case Outside(roles) => RolesAt(roles, path) == RolesAt(before.plugin.roles, path)
  }

  function RolesAt(roles: map<string, Body>, path: string): Option<Body> {
    if path in roles then Some(roles[path]) else None
  }

  /** The key names an unacknowledged write at `m` put are still there: a merging plugin keeps them all, a replacing one
      those of the last such write. */
  ghost predicate Stands(rd: Reader, s: Session, events: seq<Event>, path: string, m: nat) {
    && Unacknowledged(rd, s, events, path, m)
    && (s.plugin.merges || forall k: nat :: m < k ==> !Unacknowledged(rd, s, events, path, k))
  }

  /** No unacknowledged write that still stands brought a key name outside `keys`. */
  ghost predicate BringsNoOther(rd: Reader, s: Session, events: seq<Event>, path: string, keys: set<string>) {
    forall m: nat :: Stands(rd, s, events, path, m) ==> events[m].data.Keys <= keys
  }

  lemma {:induction false} UnacknowledgedNext(rd: Reader, s: Session, before: seq<Event>, e: Event, path: string,
                                              m: nat)
    ensures m != |before| ==>
              (Unacknowledged(rd, s, before + [e], path, m) <==> Unacknowledged(rd, s, before, path, m))
  {
    if m < |before| {
      assert (before + [e])[..m] == before[..m];
    }
  }

  lemma {:induction false} StandsNext(rd: Reader, s: Session, before: seq<Event>, e: Event, path: string, m: nat)
    ensures var events := before + [e];
            Stands(rd, s, events, path, m) <==>
            if Unacknowledged(rd, s, events, path, |before|)
            then m == |before| || (s.plugin.merges && Stands(rd, s, before, path, m))
            else Stands(rd, s, before, path, m)
  {
    forall k: nat
      ensures k != |before| ==>
                (Unacknowledged(rd, s, before + [e], path, k) <==> Unacknowledged(rd, s, before, path, k))
    {
      UnacknowledgedNext(rd, s, before, e, path, k);
    }
  }

  /** While no write to the path is acknowledged, the role gains a key name iff an unacknowledged write that still
      stands brought one. */
  lemma {:induction false} RoleGainsKeysIff(rd: Reader, s: Session, events: seq<Event>, path: string)
    requires path in s.plugin.roles && (s.plugin.merges || s.plugin.defaults.Keys <= s.plugin.roles[path].Keys)
    requires forall m :: 0 <= m < |events| ==> Unsettled(rd, s, events, path, m)
    ensures var pl := RunEvents(rd, s, events).plugin;
            && pl.merges == s.plugin.merges && pl.defaults == s.plugin.defaults && path in pl.roles
            && (pl.roles[path].Keys <= s.plugin.roles[path].Keys
                <==> BringsNoOther(rd, s, events, path, s.plugin.roles[path].Keys))
  {
    if events != [] {
      var before, e := events[..|events| - 1], events[|events| - 1];
      assert before + [e] == events;
      forall m | 0 <= m < |before|
        ensures Unsettled(rd, s, before, path, m)
      {
        assert Unsettled(rd, s, events, path, m) && events[..m] == before[..m];
      }
      RoleGainsKeysIff(rd, s, before, path);
      forall m: nat
        ensures Stands(rd, s, events, path, m) <==>
                if Unacknowledged(rd, s, events, path, |before|)
                then m == |before| || (s.plugin.merges && Stands(rd, s, before, path, m))
                else Stands(rd, s, before, path, m)
      {
        StandsNext(rd, s, before, e, path, m);
      }
      assert Unsettled(rd, s, events, path, |before|);
      RoleStep(rd, RunEvents(rd, s, before), e, path);
    }
  }

  /** What one event makes of the names the path holds. */
  lemma {:induction false} RoleStep(rd: Reader, s: Session, e: Event, path: string)
    requires path in s.plugin.roles
    requires e.Call? && e.path == path ==> ReportOf(rd, s, e) != Wrote
    requires e.Outside? ==> RolesAt(e.roles, path) == RolesAt(s.plugin.roles, path)
    ensures var pl := RunEvents(rd, s, [e]).plugin;
            && path in pl.roles && pl.merges == s.plugin.merges && pl.defaults == s.plugin.defaults
            && pl.roles[path].Keys ==
               if e.Call? && e.path == path && e.fate.DoneButError? && ReportOf(rd, s, e) == Failed
               then (if pl.merges then s.plugin.roles[path].Keys else pl.defaults.Keys) + e.data.Keys
               else s.plugin.roles[path].Keys
  {
    assert [e][..0] == [];
  }

  /** A silent call leaves in the role no key name beyond those the last acknowledged write left there, which are the
      declared ones and what the plugin kept or filled in, iff no unacknowledged write that still stands brought another
      one. */
  lemma {:induction false} SilenceLeavesNothingIff(rd: Reader, s: Session, events: seq<Event>, call: Event, n: nat)
    requires s.roleKeys == map[] && call.Call? && LastWrite(events, Reports(rd, s, events), call.path, n)
    requires ReportOf(rd, RunEvents(rd, s, events), call) == Unchanged
    requires forall m :: n < m < |events| && events[m].Outside? ==> Unsettled(rd, s, events, call.path, m)
    ensures var written, now := RunEvents(rd, s, events[..n + 1]), RunEvents(rd, s, events);
            && call.path in written.plugin.roles && call.path in now.plugin.roles
            && var keys := written.plugin.roles[call.path].Keys;
               now.plugin.roles[call.path].Keys <= keys <==>
                   BringsNoOther(rd, written, events[n + 1..], call.path, keys)
  {
    var path, before, since := call.path, events[..n + 1], events[n + 1..];
    var written := RunEvents(rd, s, before);
    assert before[..n] == events[..n] && before + since == events;
    ReportsAt(rd, s, events, n);
    WrittenHolds(rd, RunEvents(rd, s, events[..n]), events[n]);
    forall m | 0 <= m < |since|
      ensures Unsettled(rd, written, since, path, m)
    {
      StillUnsettled(rd, s, before, since, events, path, m);
    }
    RoleGainsKeysIff(rd, written, since, path);
    RunThenRun(rd, s, before, since);
  }

  lemma {:induction false} StillUnsettled(rd: Reader, s: Session, before: seq<Event>, since: seq<Event>,
                                          events: seq<Event>, path: string, m: nat)
    requires events == before + since && m < |since|
    requires var e := events[|before| + m];
             if e.Call? && e.path == path then Reports(rd, s, events)[|before| + m] != Wrote
             else e.Outside? ==> Unsettled(rd, s, events, path, |before| + m)
    ensures Unsettled(rd, RunEvents(rd, s, before), since, path, m)
  {
    RunThenRun(rd, s, before, since[..m]);
    assert before + since[..m] == events[..|before| + m];
    ReportsAt(rd, s, events, |before| + m);
  }

  lemma {:induction false} WrittenHolds(rd: Reader, s: Session, e: Event)
    requires e.Call? && ReportOf(rd, s, e) == Wrote
    ensures var pl := EnsureStep(rd, s, e.path, e.data, e.readable, e.fate).0.plugin;
            e.path in pl.roles && (pl.merges || pl.defaults.Keys <= pl.roles[e.path].Keys)
  {
  }

  lemma {:induction false} RunThenRun(rd: Reader, s: Session, xs: seq<Event>, ys: seq<Event>)
    ensures RunEvents(rd, s, xs + ys) == RunEvents(rd, RunEvents(rd, s, xs), ys)
  {
    if ys == [] {
      assert xs + ys == xs;
    } else {
      var before, last := ys[..|ys| - 1], ys[|ys| - 1];
      RunThenRun(rd, s, xs, before);
      assert (xs + ys)[..|xs + ys| - 1] == xs + before && (xs + ys)[|xs + ys| - 1] == last;
    }
  }

  /** A call that wrote leaves a role for which the next call with the same body is silent, for a
      merging and for a replacing plugin alike, iff the body holds no NaN. */
  lemma {:induction false} OneWriteThenSilence(rd: Reader, s: Session, path: string, data: Body, readable: bool,
                                               next: Fate)
    requires FaithfulReadBack(rd, s.plugin)
    requires EnsureStep(rd, s, path, data, readable, Done).1 == Wrote
    ensures var after := EnsureStep(rd, s, path, data, readable, Done).0;
            EnsureStep(rd, after, path, data, true, next) == (after, Unchanged) <==> BodyNaNFree(rd, data)
  {
    WrittenReadsBack(rd, s.plugin, path, data);
  }

  lemma {:induction false} WrittenReadsBack(rd: Reader, pl: Plugin, path: string, data: Body)
    requires FaithfulReadBack(rd, pl)
    ensures UpToDate(rd, WriteRole(pl, path, data).roles[path], data) <==> BodyNaNFree(rd, data)
  {
    var stored := WriteRole(pl, path, data).roles[path];
    forall k | k in data
      ensures k in stored && (Same(rd, stored[k], data[k]) <==> NaNFree(rd, data[k]))
    {
      assert stored[k] == pl.readBack(data[k]);
    }
  }

  /** A role for which a call with this body is silent, if it can be read. */
  ghost predicate SettledRole(rd: Reader, s: Session, path: string, body: Body) {
    && path in s.roleKeys && s.roleKeys[path] == RoleKeySet(body.Keys)
    && path in s.plugin.roles && UpToDate(rd, s.plugin.roles[path], body)
  }

  /** Dropping key names from a settled role whatever the values left: the changed key set alone forces exactly one
      write, and the call after it is silent again; it goes unwritten iff the empty name was the only one. */
  lemma {:induction false} RemovalCostsOneWriteIff(rd: Reader, s: Session, path: string, before: Body,
                                                   dropped: set<string>, readable: bool, next: Fate)
    requires FaithfulReadBack(rd, s.plugin) && dropped * before.Keys != {} && SettledRole(rd, s, path, before)
    ensures var after := EnsureStep(rd, s, path, before - dropped, readable, Done);
            if readable && before.Keys == {""} then after == (s, Unchanged)
            else after.1 == Wrote && EnsureStep(rd, after.0, path, before - dropped, true, next) == (after.0, Unchanged)
  {
    var data := before - dropped;
    SmallerKeys(before, dropped);
    SubsetRendersAlikeIff(data.Keys, before.Keys);
    if !(readable && before.Keys == {""}) {
      SettledIsNaNFree(rd, s, path, before);
      OneWriteThenSilence(rd, s, path, data, readable, next);
    }
  }

  lemma {:induction false} SmallerKeys(before: Body, dropped: set<string>)
    requires dropped * before.Keys != {}
    ensures (before - dropped).Keys < before.Keys
  {
    var k :| k in dropped * before.Keys;
    assert k in before.Keys && k !in (before - dropped).Keys;
  }

  lemma {:induction false} SettledIsNaNFree(rd: Reader, s: Session, path: string, body: Body)
    requires SettledRole(rd, s, path, body)
    ensures BodyNaNFree(rd, body)
  {
  }

  /** A key name that an unacknowledged write put is not taken out again once the spec goes back: the memory still holds
      the old names, so the role is settled, and every later call that can read it is silent. */
  lemma {:induction false} RevertedKeyStays(rd: Reader, s: Session, path: string, before: Body, more: Body)
    requires FaithfulReadBack(rd, s.plugin) && BodyNaNFree(rd, more) && SettledRole(rd, s, path, before)
    requires before.Keys < more.Keys && more.Keys != {""}
             && forall k :: k in before ==> k in more && more[k] == before[k]
    ensures var after := s.(plugin := WriteRole(s.plugin, path, more));
            && EnsureStep(rd, s, path, more, true, DoneButError) == (after, Failed)
            && SettledRole(rd, after, path, before) && more.Keys <= after.plugin.roles[path].Keys
  {
    SubsetRendersAlikeIff(before.Keys, more.Keys);
    WrittenCovers(rd, s.plugin, path, more);
    OtherKeysAreSent(rd, s, path, more);
    StillUpToDate(rd, WriteRole(s.plugin, path, more).roles[path], more, before);
  }

  lemma {:induction false} OtherKeysAreSent(rd: Reader, s: Session, path: string, data: Body)
    requires path in s.roleKeys && s.roleKeys[path] != RoleKeySet(data.Keys)
    ensures EnsureStep(rd, s, path, data, true, DoneButError) == (s.(plugin := WriteRole(s.plugin, path, data)), Failed)
  {
  }

  lemma {:induction false} WrittenCovers(rd: Reader, pl: Plugin, path: string, body: Body)
    requires FaithfulReadBack(rd, pl) && BodyNaNFree(rd, body)
    ensures var role := WriteRole(pl, path, body).roles[path]; UpToDate(rd, role, body) && body.Keys <= role.Keys
  {
    WrittenReadsBack(rd, pl, path, body);
  }

  lemma {:induction false} StillUpToDate(rd: Reader, role: Body, more: Body, before: Body)
    requires UpToDate(rd, role, more) && forall k :: k in before ==> k in more && more[k] == before[k]
    ensures UpToDate(rd, role, before)
  {
    forall k | k in before
      ensures k in role && Same(rd, role[k], before[k])
    {
      assert k in more && Same(rd, role[k], more[k]);
    }
  }
}
