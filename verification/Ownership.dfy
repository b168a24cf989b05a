/** Who owns a mount, over whole runs with others at work: internal/vault/mounts.go and prune of
internal/reconcile/reconcile.go.  The manager looks first and acts later; in between anybody may disable, enable or tune
a mount. */
module Ownership {
  import opened Requests
  import opened Mounts

  /** What the manager is about to do, from what it saw; `gone` and `lost` is what somebody else
      disabled since. */
  datatype Proc =
    | Idle
    | Ensuring(id: MountId, m: Mount, seen: Option<Live>, gone: bool)
    | Pruning(listed: map<MountId, Live>, lost: set<MountId>)

  /** The live mounts, those of them that EnsureMount enabled, every UUID ever given, and the manager. */
  datatype Ledger = Ledger(mounts: map<MountId, Live>, enabled: set<MountId>, used: set<string>, proc: Proc)

  /** The manager looks at a mount and acts on it, or lists the managed mounts and disables some of them, or stops.
      Others enable mounts without the marker, disable any mount, and tune one without adding or removing the marker.
      Vault gives every new mount a new UUID. */
  datatype Event =
    | Look(id: MountId, m: Mount)
    | Act(uuid: string, fate: Fate)
    | List
    | Disable(id: MountId, fate: Fate)
    | Stop
    | OutsideEnable(id: MountId, live: Live)
    | OutsideDisable(id: MountId)
    | OutsideTune(id: MountId, live: Live)

  /** ListManagedMounts */
  function Managed(mounts: map<MountId, Live>): set<MountId> {
    set id | id in mounts && IsManaged(mounts[id].options)
  }

  predicate Possible(l: Ledger, e: Event) {
    match e
    case Look(_, _) => l.proc.Idle?
    case Act(uuid, _) => l.proc.Ensuring? && uuid !in l.used
    case List => l.proc.Idle?
    case Disable(id, _) => l.proc.Pruning? && id in l.proc.listed
    case Stop => true
    case OutsideEnable(id, live) => id !in l.mounts && !IsManaged(live.options) && live.uuid !in l.used
    case OutsideDisable(id) => id in l.mounts
    case OutsideTune(id, live) =>
      id in l.mounts && IsManaged(live.options) == IsManaged(l.mounts[id].options) && live.uuid == l.mounts[id].uuid
  }

  function Gone(proc: Proc, id: MountId): Proc {
    match proc
    case Idle => proc
    case Ensuring(at, _, _, gone) => proc.(gone := gone || at == id)
    case Pruning(listed, lost) => Pruning(listed, lost + {id})
  }

  /** One event; an impossible one changes nothing. */
  function Happen(sem: Semantics, l: Ledger, e: Event): Ledger {
    if !Possible(l, e) then l
    else
      match e
      case Look(id, m) => l.(proc := Ensuring(id, m, LookAt(l.mounts, id), false))
      case Act(uuid, fate) =>
        var id := l.proc.id;
        var after := ActOn(sem, l.mounts, id, l.proc.m, l.proc.seen, uuid, fate).0;
        Ledger(after, if id in after && id !in l.mounts then l.enabled + {id} else l.enabled, l.used + {uuid}, Idle)
      case List =>
        l.(proc := Pruning(map id | id in Managed(l.mounts) :: l.mounts[id], {}))
      case Disable(id, fate) =>
        var proc := Pruning(l.proc.listed - {id}, l.proc.lost);
        if fate.NotDone? then l.(proc := proc) else Ledger(l.mounts - {id}, l.enabled - {id}, l.used, proc)
      case Stop => l.(proc := Idle)
      case OutsideEnable(id, live) => l.(mounts := l.mounts[id := live], used := l.used + {live.uuid})
      case OutsideDisable(id) => Ledger(l.mounts - {id}, l.enabled - {id}, l.used, Gone(l.proc, id))
      case OutsideTune(id, live) => l.(mounts := l.mounts[id := live])
  }

  function RunEvents(sem: Semantics, l: Ledger, events: seq<Event>): Ledger {
    if events == [] then l
    else Happen(sem, RunEvents(sem, l, events[..|events| - 1]), events[|events| - 1])
  }

  /** A fresh installation: whatever is mounted, nothing carries the marker. */
  predicate Fresh(l: Ledger) {
    Managed(l.mounts) == {} && l.enabled == {} && l.proc.Idle?
      && forall id :: id in l.mounts ==> l.mounts[id].uuid in l.used
  }

  // ----- What is known of a mount looked at -----

  /** A mount looked at is the one that is there, with its marker, iff nobody disabled it since. */
  ghost predicate Known(l: Ledger, id: MountId, seen: Live, gone: bool) {
    && seen.uuid in l.used
    && if gone then id in l.mounts ==> l.mounts[id].uuid != seen.uuid
       else && id in l.mounts && l.mounts[id].uuid == seen.uuid
            && IsManaged(l.mounts[id].options) == IsManaged(seen.options)
  }

  ghost predicate Inv(l: Ledger) {
    && (forall id :: id in l.mounts ==> l.mounts[id].uuid in l.used)
    && match l.proc
       case Idle => true
       case Ensuring(id, _, seen, gone) => seen.Some? ==> Known(l, id, seen.value, gone)
       case Pruning(listed, lost) =>
         forall id :: id in listed ==> IsManaged(listed[id].options) && Known(l, id, listed[id], id in lost)
  }

  lemma {:induction false} KnownStays(sem: Semantics, l: Ledger, e: Event, id: MountId, seen: Live, gone: bool)
    requires Possible(l, e) && Known(l, id, seen, gone)
    requires e.OutsideEnable? || e.OutsideDisable? || e.OutsideTune? || (e.Disable? && e.id != id)
    ensures Known(Happen(sem, l, e), id, seen, gone || e == OutsideDisable(id))
  {
  }

  lemma {:induction false} InvStays(sem: Semantics, l: Ledger, e: Event)
    requires Inv(l)
    ensures Inv(Happen(sem, l, e))
  {
    if Possible(l, e) {
      match e
      case Look(_, _) =>
      case Act(uuid, fate) =>
        ActMarksIff(sem, l.mounts, l.proc.id, l.proc.m, l.proc.seen, uuid, fate);
      case List =>
      case Stop =>
      case _ =>
        OthersKeepInv(sem, l, e);
    }
  }

  lemma {:induction false} OthersKeepInv(sem: Semantics, l: Ledger, e: Event)
    requires Inv(l) && Possible(l, e) && (e.OutsideEnable? || e.OutsideDisable? || e.OutsideTune? || e.Disable?)
    ensures Inv(Happen(sem, l, e))
  {
    match l.proc
    case Idle =>
    case Ensuring(id, _, seen, gone) =>
      if seen.Some? {
        KnownStays(sem, l, e, id, seen.value, gone);
      }
    case Pruning(listed, lost) =>
      forall id | id in listed && !(e.Disable? && e.id == id)
        ensures Known(Happen(sem, l, e), id, listed[id], id in lost || e == OutsideDisable(id))
      {
        KnownStays(sem, l, e, id, listed[id], id in lost);
      }
  }

  lemma {:induction false} InvHolds(sem: Semantics, l: Ledger, events: seq<Event>)
    requires Fresh(l)
    ensures Inv(RunEvents(sem, l, events))
  {
    if events != [] {
      InvHolds(sem, l, events[..|events| - 1]);
      InvStays(sem, RunEvents(sem, l, events[..|events| - 1]), events[|events| - 1]);
    }
  }

  // ----- The marker -----

  /** The manager acts on another mount than the one it looked at: an unmarked one, by a tune that carries the
      marker. */
  predicate Misdirected(l: Ledger, e: Event) {
    && e.Act? && Possible(l, e) && !e.fate.NotDone? && !l.proc.id.mtype.Database?
    && l.proc.seen.Some? && CarriesMarker(l.proc.seen.value, l.proc.m)
    && l.proc.id in l.mounts && !IsManaged(l.mounts[l.proc.id].options)
  }

  /** One event keeps the marker on exactly the mounts EnsureMount enabled iff it is not misdirected. */
  lemma {:induction false} MarkerStaysIff(sem: Semantics, l: Ledger, e: Event)
    requires Managed(l.mounts) == l.enabled
    ensures var l' := Happen(sem, l, e); Managed(l'.mounts) == l'.enabled <==> !Misdirected(l, e)
  {
    if e.Act? && Possible(l, e) {
      ActKeepsOwnersIff(sem, l, e);
    }
  }

  lemma {:induction false} ActKeepsOwnersIff(sem: Semantics, l: Ledger, e: Event)
    requires e.Act? && Possible(l, e) && Managed(l.mounts) == l.enabled
    ensures var l' := Happen(sem, l, e); Managed(l'.mounts) == l'.enabled <==> !Misdirected(l, e)
  {
    var id, l' := l.proc.id, Happen(sem, l, e);
    ActMarksIff(sem, l.mounts, id, l.proc.m, l.proc.seen, e.uuid, e.fate);
    if l'.mounts != l.mounts {
      ManagedUpdate(l.mounts, id, l'.mounts[id]);
    }
  }

  lemma {:induction false} ManagedUpdate(mounts: map<MountId, Live>, id: MountId, live: Live)
    ensures Managed(mounts[id := live]) == Managed(mounts) - {id} + if IsManaged(live.options) then {id} else {}
  {
  }

  /** After the first `n` events of a run the marker is on exactly the mounts EnsureMount enabled. */
  ghost predicate MarksItsOwn(sem: Semantics, l: Ledger, events: seq<Event>, n: nat)
    requires n <= |events|
  {
    var now := RunEvents(sem, l, events[..n]); Managed(now.mounts) == now.enabled
  }

  ghost predicate GoesAstray(sem: Semantics, l: Ledger, events: seq<Event>, n: nat)
    requires n < |events|
  {
    Misdirected(RunEvents(sem, l, events[..n]), events[n])
  }

  lemma {:induction false} MarksNext(sem: Semantics, l: Ledger, events: seq<Event>, n: nat)
    requires n < |events| && MarksItsOwn(sem, l, events, n)
    ensures MarksItsOwn(sem, l, events, n + 1) <==> !GoesAstray(sem, l, events, n)
  {
    assert events[..n + 1] == events[..n] + [events[n]];
    RunSnoc(sem, l, events[..n], events[n]);
    MarkerStaysIff(sem, RunEvents(sem, l, events[..n]), events[n]);
  }

  /** In every run from a fresh installation the marker is at all times on exactly the mounts EnsureMount enabled, iff
      no act of the run was misdirected. */
  lemma {:induction false} MarkerIffEnabled(sem: Semantics, l: Ledger, events: seq<Event>)
    requires Fresh(l)
    ensures (forall n :: 0 <= n <= |events| ==> MarksItsOwn(sem, l, events, n))
       <==> forall n :: 0 <= n < |events| ==> !GoesAstray(sem, l, events, n)
  {
    MarkerUpTo(sem, l, events, |events|);
  }

  lemma {:induction false} MarkerUpTo(sem: Semantics, l: Ledger, events: seq<Event>, m: nat)
    requires Fresh(l) && m <= |events|
    ensures (forall n :: 0 <= n <= m ==> MarksItsOwn(sem, l, events, n))
       <==> forall n :: 0 <= n < m ==> !GoesAstray(sem, l, events, n)
  {
    if m == 0 {
      assert events[..0] == [] && MarksItsOwn(sem, l, events, 0);
    } else {
      MarkerUpTo(sem, l, events, m - 1);
      if MarksItsOwn(sem, l, events, m - 1) {
        MarksNext(sem, l, events, m - 1);
      }
    }
  }

  /** An act can be misdirected only if the mount looked at was disabled by somebody else since, and then the one acted
      on has another UUID. */
  lemma {:induction false} MisdirectedActsOnAnotherMount(sem: Semantics, l: Ledger, events: seq<Event>, e: Event)
    requires Fresh(l) && Misdirected(RunEvents(sem, l, events), e)
    ensures var now := RunEvents(sem, l, events);
            now.proc.gone && now.mounts[now.proc.id].uuid != now.proc.seen.value.uuid
  {
    InvHolds(sem, l, events);
  }

  /** While the manager is between its look and its act, the mount there is the one it saw iff nobody disabled it
      since. */
  lemma {:induction false} SameMountIff(sem: Semantics, l: Ledger, events: seq<Event>)
    requires Fresh(l)
    requires var now := RunEvents(sem, l, events); now.proc.Ensuring? && now.proc.seen.Some?
    ensures var now := RunEvents(sem, l, events);
            now.proc.id in now.mounts && now.mounts[now.proc.id].uuid == now.proc.seen.value.uuid <==> !now.proc.gone
  {
    InvHolds(sem, l, events);
  }

  /** And it does happen: an owned mount whose options moved is looked at, disabled, enabled by somebody else, and
      tuned: the marker is on a mount the manager never enabled. */
  lemma {:induction false} ForeignMountCanBeMarked(sem: Semantics, id: MountId, owned: Mount, moved: Mount,
                                                   foreign: Live, uuid: string, another: string)
    requires Plausible(sem) && !id.mtype.Database? && !IsManaged(foreign.options)
    requires uuid != foreign.uuid && another !in {uuid, foreign.uuid}
    requires !OptionsConform(Enabled(sem, owned, uuid).options, moved.options)
    ensures var l := RunEvents(sem, Ledger(map[], {}, {}, Idle),
                               [Look(id, owned), Act(uuid, Done), Look(id, moved)]
                               + [OutsideDisable(id), OutsideEnable(id, foreign), Act(another, Done)]);
            id in Managed(l.mounts) && id !in l.enabled && l.mounts[id].uuid == foreign.uuid
  {
    var l0 := Ledger(map[], {}, {}, Idle);
    EnabledConforms(sem, owned, uuid);
    var l1 := Happen(sem, l0, Look(id, owned));
    var l2 := Happen(sem, l1, Act(uuid, Done));
    assert l2.mounts == map[id := Enabled(sem, owned, uuid)];
    var l3 := Happen(sem, l2, Look(id, moved));
    var l4 := Happen(sem, l3, OutsideDisable(id));
    var l5 := Happen(sem, l4, OutsideEnable(id, foreign));
    var l6 := Happen(sem, l5, Act(another, Done));
    TuneMarksIff(sem, foreign, Enabled(sem, owned, uuid), moved);
    ThreeEvents(sem, l0, Look(id, owned), Act(uuid, Done), Look(id, moved));
    ThreeEvents(sem, l3, OutsideDisable(id), OutsideEnable(id, foreign), Act(another, Done));
    RunThenRun(sem, l0, [Look(id, owned), Act(uuid, Done), Look(id, moved)],
               [OutsideDisable(id), OutsideEnable(id, foreign), Act(another, Done)]);
  }

  lemma {:induction false} RunSnoc(sem: Semantics, l: Ledger, events: seq<Event>, e: Event)
    ensures RunEvents(sem, l, events + [e]) == Happen(sem, RunEvents(sem, l, events), e)
  {
    assert (events + [e])[..|events|] == events;
  }

  lemma {:induction false} RunThenRun(sem: Semantics, l: Ledger, xs: seq<Event>, ys: seq<Event>)
    ensures RunEvents(sem, l, xs + ys) == RunEvents(sem, RunEvents(sem, l, xs), ys)
  {
    if ys == [] {
      assert xs + ys == xs;
    } else {
      var before, last := ys[..|ys| - 1], ys[|ys| - 1];
      RunThenRun(sem, l, xs, before);
      RunSnoc(sem, l, xs + before, last);
      assert xs + ys == (xs + before) + [last];
    }
  }

  lemma {:induction false} ThreeEvents(sem: Semantics, l: Ledger, a: Event, b: Event, c: Event)
    ensures RunEvents(sem, l, [a, b, c]) == Happen(sem, Happen(sem, Happen(sem, l, a), b), c)
  {
    TwoEvents(sem, l, a, b);
    ThenOne(sem, l, [a, b], c, [a, b, c]);
  }

  lemma {:induction false} TwoEvents(sem: Semantics, l: Ledger, a: Event, b: Event)
    ensures RunEvents(sem, l, [a, b]) == Happen(sem, Happen(sem, l, a), b)
  {
    ThenOne(sem, l, [], a, [a]);
    ThenOne(sem, l, [a], b, [a, b]);
  }

  lemma {:induction false} ThenOne(sem: Semantics, l: Ledger, events: seq<Event>, e: Event, more: seq<Event>)
    requires more == events + [e]
    ensures RunEvents(sem, l, more) == Happen(sem, RunEvents(sem, l, events), e)
  {
    RunSnoc(sem, l, events, e);
  }

  // ----- Pruning -----

  /** A prune disables from its list.  In every reachable state without a misdirected act, a live mount it is about to
      disable is one this manager enabled iff it is the one listed, and that iff nobody disabled it since the list. */
  lemma {:induction false} PruneHitsItsOwnIff(sem: Semantics, l: Ledger, events: seq<Event>, id: MountId)
    requires Fresh(l)
    requires forall n :: 0 <= n < |events| ==> !GoesAstray(sem, l, events, n)
    requires var now := RunEvents(sem, l, events); now.proc.Pruning? && id in now.proc.listed && id in now.mounts
    ensures var now := RunEvents(sem, l, events);
            && (id in now.enabled <==> id !in now.proc.lost)
            && (id in now.enabled <==> now.mounts[id].uuid == now.proc.listed[id].uuid)
  {
    InvHolds(sem, l, events);
    MarkerIffEnabled(sem, l, events);
    assert events[..|events|] == events && MarksItsOwn(sem, l, events, |events|);
    if id in RunEvents(sem, l, events).proc.lost {
      ForeignSinceGone(sem, l, events, id);
    }
  }

  /** What stands where a listed mount was disabled by somebody else is not marked. */
  lemma {:induction false} ForeignSinceGone(sem: Semantics, l: Ledger, events: seq<Event>, id: MountId)
    requires Fresh(l)
    requires var now := RunEvents(sem, l, events); now.proc.Pruning? && id in now.proc.lost && id in now.mounts
    ensures !IsManaged(RunEvents(sem, l, events).mounts[id].options)
  {
    if events != [] {
      var before, e := RunEvents(sem, l, events[..|events| - 1]), events[|events| - 1];
      if before.proc.Pruning? && id in before.proc.lost && id in before.mounts {
        ForeignSinceGone(sem, l, events[..|events| - 1], id);
      }
    }
  }

  /** And a foreign mount enabled where a listed one was disabled is unmounted. */
  lemma {:induction false} ForeignMountCanBePruned(sem: Semantics, id: MountId, owned: Mount, foreign: Live,
                                                   uuid: string)
    requires Plausible(sem) && !id.mtype.Database? && !IsManaged(foreign.options) && uuid != foreign.uuid
    ensures var listed := RunEvents(sem, Ledger(map[], {}, {}, Idle), [Look(id, owned), Act(uuid, Done), List]);
            var l := Happen(sem, Happen(sem, listed, OutsideDisable(id)), OutsideEnable(id, foreign));
            && id in l.mounts && id !in l.enabled && Possible(l, Disable(id, Done))
            && id !in Happen(sem, l, Disable(id, Done)).mounts
  {
    var l0 := Ledger(map[], {}, {}, Idle);
    EnabledConforms(sem, owned, uuid);
    var l2 := Happen(sem, Happen(sem, l0, Look(id, owned)), Act(uuid, Done));
    assert l2.mounts == map[id := Enabled(sem, owned, uuid)];
    assert id in Happen(sem, l2, List).proc.listed;
    ThreeEvents(sem, l0, Look(id, owned), Act(uuid, Done), List);
  }
}
