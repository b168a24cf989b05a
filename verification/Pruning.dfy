/** What a reconcile pass removes: the role prune of reconcileRoles and prune, internal/reconcile/reconcile.go. */
module Pruning {
  import opened Requests
  import opened RoleValues
  import opened Strings
  import opened Specs
  import opened Mounts
  import opened Cluster
  import opened Phases

  // ----- 6. Roles -----

  /** A LIST entry is a role's name or a folder, a text that ends in a slash. */
  predicate IsEntry(name: string) {
    '/' !in name || name[|name| - 1] == '/'
  }

  /** A path the role prune may delete: an entry of one of the places, undeclared there. */
  ghost predicate Prunable(spots: set<(string, string)>, desired: map<(string, string), set<string>>, path: string) {
    exists spot, name :: spot in spots && spot in desired && path == SpotPath(spot) + "/" + name && IsEntry(name)
      && name !in desired[spot]
  }

  ghost predicate OnlyPrunableGone(before: map<string, Body>, after: map<string, Body>, spots: set<(string, string)>,
                                   desired: map<(string, string), set<string>>)
  {
    && (forall p :: p in after ==> p in before && after[p] == before[p])
    && forall p :: p in before && p !in after ==> Prunable(spots, desired, p)
  }

  /** Every attempt since `from` deletes a prunable role. */
  ghost predicate DeletesPrunable(log: seq<Attempt>, from: nat, spots: set<(string, string)>,
                                  desired: map<(string, string), set<string>>)
  {
    from <= |log|
      && forall i :: from <= i < |log| ==> log[i].effect.DeletedRole? && Prunable(spots, desired, log[i].effect.path)
  }

  /** No undeclared role is left at a place. */
  ghost predicate SpotPruned(roles: map<string, Body>, desired: map<(string, string), set<string>>,
                             spot: (string, string))
  {
    spot in desired ==> NamesUnder(roles, SpotPath(spot)) <= desired[spot]
  }

  /** Nothing undeclared is listed there, no folder either. */
  ghost predicate SpotQuiet(roles: map<string, Body>, desired: map<(string, string), set<string>>,
                            spot: (string, string))
  {
    spot in desired ==> Listed(roles, SpotPath(spot)) <= desired[spot]
  }

  function PathsOf(ids: set<MountId>): set<string> {
    set id | id in ids :: id.path
  }

  /** The declared places on mounts with these paths. */
  function SpotsOn(paths: set<string>, desired: map<(string, string), set<string>>): set<(string, string)> {
    set spot | spot in desired && spot.0 in paths
  }

  /** The places the role prune looks at: the declared ones on managed mounts. */
  function ManagedSpots(w: World, desired: map<(string, string), set<string>>): set<(string, string)> {
    SpotsOn(PathsOf(ManagedMounts(w.mounts).Keys), desired)
  }

  ghost predicate RolesPruned(w: World, desired: map<(string, string), set<string>>) {
    forall spot :: spot in ManagedSpots(w, desired) ==> SpotPruned(w.plugin.roles, desired, spot)
  }

  ghost predicate RolesQuiet(w: World, desired: map<(string, string), set<string>>) {
    forall spot :: spot in ManagedSpots(w, desired) ==> SpotQuiet(w.plugin.roles, desired, spot)
  }

  lemma {:induction false} NothingLeftIff<T>(a: set<T>, b: set<T>)
    ensures a - b == {} <==> a <= b
  {
    if a - b == {} {
      forall x | x in a
        ensures x in b
      {
        assert x !in a - b;
      }
    }
  }

  /** The role prune: in full mode only. */
  method PruneRoles(v: Vault, mode: string, desired: map<(string, string), set<string>>) returns (ok: bool)
    modifies v`w, v`log, v`faults
    ensures v.faults >= old(v.faults) && (v.faults == old(v.faults) ==> ok)
    ensures SamePlugin(old(v.w), v.w) && Grew(old(v.log), v.log, 6, ok)
    ensures OnlyPrunableGone(old(v.w.plugin.roles), v.w.plugin.roles, old(ManagedSpots(v.w, desired)), desired)
    ensures DeletesPrunable(v.log, |old(v.log)|, old(ManagedSpots(v.w, desired)), desired)
    ensures mode != PRUNE_FULL ==> ok && v.w == old(v.w) && v.log == old(v.log)
    ensures ok && mode == PRUNE_FULL ==> RolesPruned(v.w, desired)
    ensures old(RolesQuiet(v.w, desired)) ==> v.w == old(v.w) && v.log == old(v.log)
    ensures ok && mode == PRUNE_FULL && v.log == old(v.log) ==> old(RolesQuiet(v.w, desired))
  {
    if mode != PRUNE_FULL {
      return true;
    }
    var managed := v.ListManagedMounts();
    if managed.None? {
      return false;
    }
    ok := PruneSpots(v, SpotsOn(PathsOf(managed.value.Keys), desired), desired);
  }

  method PruneSpots(v: Vault, spots: set<(string, string)>, desired: map<(string, string), set<string>>)
    returns (ok: bool)
    requires spots <= desired.Keys
    modifies v`w, v`log, v`faults
    ensures v.faults >= old(v.faults) && (v.faults == old(v.faults) ==> ok)
    ensures SamePlugin(old(v.w), v.w) && Grew(old(v.log), v.log, 6, ok)
    ensures OnlyPrunableGone(old(v.w.plugin.roles), v.w.plugin.roles, spots, desired)
    ensures DeletesPrunable(v.log, |old(v.log)|, spots, desired)
    ensures ok ==> forall spot :: spot in spots ==> SpotPruned(v.w.plugin.roles, desired, spot)
    ensures old(forall spot :: spot in spots ==> SpotQuiet(v.w.plugin.roles, desired, spot)) ==>
              v.w == old(v.w) && v.log == old(v.log)
    ensures ok && v.log == old(v.log) ==>
              old(forall spot :: spot in spots ==> SpotQuiet(v.w.plugin.roles, desired, spot))
  {
    var left := spots;
    ghost var start, log := v.w.plugin.roles, v.log;
    ghost var quiet := forall spot :: spot in spots ==> SpotQuiet(start, desired, spot);
    while left != {}
      invariant left <= spots && v.faults >= old(v.faults)
      invariant SamePlugin(old(v.w), v.w) && Grew(log, v.log, 6, true)
      invariant OnlyPrunableGone(start, v.w.plugin.roles, spots, desired)
                && DeletesPrunable(v.log, |log|, spots, desired)
      invariant forall spot :: spot in spots - left ==> SpotPruned(v.w.plugin.roles, desired, spot)
      invariant quiet || v.log == log ==> v.w == old(v.w) && v.log == log
      invariant v.log == log ==> forall spot :: spot in spots - left ==> SpotQuiet(start, desired, spot)
      decreases left
    {
      var spot :| spot in left;
      ghost var before := v.w.plugin.roles;
      ok := PruneSpot(v, spots, spot, desired);
      GoneInTwoSteps(start, before, v.w.plugin.roles, spots, desired);
      if !ok {
        return;
      }
      forall other | other in spots - left
        ensures SpotPruned(v.w.plugin.roles, desired, other)
      {
        PrunedStays(before, v.w.plugin.roles, desired, other);
      }
      left := left - {spot};
    }
    ok := true;
  }

  lemma {:induction false} GoneInTwoSteps(a: map<string, Body>, b: map<string, Body>, c: map<string, Body>,
                                          spots: set<(string, string)>, desired: map<(string, string), set<string>>)
    requires OnlyPrunableGone(a, b, spots, desired) && OnlyPrunableGone(b, c, spots, desired)
    ensures OnlyPrunableGone(a, c, spots, desired)
  {
  }

  /** What is listed at one place and not declared there is deleted; nothing is sent iff nothing such is listed. */
  method PruneSpot(v: Vault, spots: set<(string, string)>, spot: (string, string),
                   desired: map<(string, string), set<string>>)
    returns (ok: bool)
    requires spot in desired && spot in spots
    modifies v`w, v`log, v`faults
    ensures v.faults >= old(v.faults) && (v.faults == old(v.faults) ==> ok)
    ensures SamePlugin(old(v.w), v.w) && Grew(old(v.log), v.log, 6, ok)
    ensures OnlyPrunableGone(old(v.w.plugin.roles), v.w.plugin.roles, spots, desired)
    ensures DeletesPrunable(v.log, |old(v.log)|, spots, desired)
    ensures ok ==> SpotPruned(v.w.plugin.roles, desired, spot)
    ensures ok ==> (v.log == old(v.log) <==> old(SpotQuiet(v.w.plugin.roles, desired, spot)))
    ensures v.log == old(v.log) || old(SpotQuiet(v.w.plugin.roles, desired, spot)) ==>
              v.w == old(v.w) && v.log == old(v.log)
  {
    var under := SpotPath(spot);
    var names := v.ListRoles(under);
    if names.None? {
      return false;
    }
    forall name | name in names.value
      ensures IsEntry(name)
    {
      ListedIsEntry(v.w.plugin.roles, under, name);
    }
    NothingLeftIff(names.value, desired[spot]);
    ok := DeleteAll(v, spots, spot, names.value - desired[spot], desired);
  }

  lemma {:induction false} ListedIsEntry(roles: map<string, Body>, under: string, name: string)
    requires name in Listed(roles, under)
    ensures IsEntry(name)
  {
    if name !in NamesUnder(roles, under) {
      var path :| path in roles && Deeper(path, under) && name == FirstFolder(path[|under| + 1..]);
    }
  }

  method DeleteAll(v: Vault, spots: set<(string, string)>, spot: (string, string), names: set<string>,
                   desired: map<(string, string), set<string>>)
    returns (ok: bool)
    requires spot in desired && spot in spots
             && forall name :: name in names ==> IsEntry(name) && name !in desired[spot]
    modifies v`w, v`log, v`faults
    ensures v.faults >= old(v.faults) && (v.faults == old(v.faults) <==> ok)
    ensures SamePlugin(old(v.w), v.w) && Grew(old(v.log), v.log, 6, ok)
    ensures OnlyPrunableGone(old(v.w.plugin.roles), v.w.plugin.roles, spots, desired)
    ensures DeletesPrunable(v.log, |old(v.log)|, spots, desired)
    ensures ok ==>
              NamesUnder(v.w.plugin.roles, SpotPath(spot)) <= NamesUnder(old(v.w.plugin.roles), SpotPath(spot)) - names
    ensures names == {} ==> v.w == old(v.w)
    ensures v.log == old(v.log) <==> names == {}
  {
    var left := names;
    ghost var listed, log := NamesUnder(v.w.plugin.roles, SpotPath(spot)), v.log;
    while left != {}
      invariant left <= names && v.faults == old(v.faults)
      invariant SamePlugin(old(v.w), v.w) && Grew(log, v.log, 6, true)
      invariant OnlyPrunableGone(old(v.w.plugin.roles), v.w.plugin.roles, spots, desired)
      invariant DeletesPrunable(v.log, |log|, spots, desired)
      invariant NamesUnder(v.w.plugin.roles, SpotPath(spot)) <= listed - (names - left)
      invariant if left == names then v.w == old(v.w) && v.log == log else |v.log| > |log|
      decreases left
    {
      var name :| name in left;
      ghost var before := v.w.plugin.roles;
      ok := DeleteUndeclared(v, spots, spot, name, desired);
      GoneInTwoSteps(old(v.w.plugin.roles), before, v.w.plugin.roles, spots, desired);
      if !ok {
        return;
      }
      left := left - {name};
    }
    ok := true;
  }

  method DeleteUndeclared(v: Vault, spots: set<(string, string)>, spot: (string, string), name: string,
                          desired: map<(string, string), set<string>>)
    returns (ok: bool)
    requires spot in desired && spot in spots && IsEntry(name) && name !in desired[spot]
    modifies v`w, v`log, v`faults
    ensures v.faults == old(v.faults) + if ok then 0 else 1
    ensures SamePlugin(old(v.w), v.w)
    ensures OnlyPrunableGone(old(v.w.plugin.roles), v.w.plugin.roles, spots, desired)
    ensures v.log == old(v.log) + [Attempt(DeletedRole(SpotPath(spot) + "/" + name), ok)]
    ensures Prunable(spots, desired, SpotPath(spot) + "/" + name)
    ensures NamesUnder(v.w.plugin.roles, SpotPath(spot)) <= NamesUnder(old(v.w.plugin.roles), SpotPath(spot))
    ensures ok ==> name !in NamesUnder(v.w.plugin.roles, SpotPath(spot))
  {
    var path := SpotPath(spot) + "/" + name;
    assert Prunable(spots, desired, path);
    ghost var before := v.w.plugin.roles;
    ok := v.DeleteRole(path);
    DeletedIsUnlisted(before, v.w.plugin.roles, SpotPath(spot), name);
  }

  lemma {:induction false} DeletedIsUnlisted(before: map<string, Body>, after: map<string, Body>, under: string,
                                             name: string)
    requires after == before || after == before - {under + "/" + name}
    ensures NamesUnder(after, under) <= NamesUnder(before, under)
    ensures under + "/" + name !in after ==> name !in NamesUnder(after, under)
  {
    forall n | n in NamesUnder(after, under)
      ensures n in NamesUnder(before, under) && under + "/" + n in after
    {
      var path :| path in after && under + "/" <= path && '/' !in path[|under| + 1..] && path[|under| + 1..] == n;
      assert path == under + "/" + n;
    }
  }

  lemma {:induction false} PrunedStays(before: map<string, Body>, after: map<string, Body>,
                                       desired: map<(string, string), set<string>>, spot: (string, string))
    requires SpotPruned(before, desired, spot) && forall p :: p in after ==> p in before
    ensures SpotPruned(after, desired, spot)
  {
  }

  // ----- 7. Mounts, versions, binaries -----

  /** What the mount prune is about: the managed mounts it found, and what is declared. */
  datatype PruneScope = PruneScope(mode: string, managed: map<MountId, Live>, ids: set<MountId>, versions: set<string>)

  predicate Stale(s: PruneScope, id: MountId) {
    id in s.managed && id !in s.ids
  }

  /** The version a stale mount ran, when nothing declared refers to it. */
  predicate StaleVersion(s: PruneScope, id: MountId) {
    Stale(s, id) && s.managed[id].version != "" && NvKey(s.managed[id].plugin, s.managed[id].version) !in s.versions
  }

  function TypeName(t: MountType): string {
    match t
    case Secret => SECRET
    case Auth => AUTH
    case Database => DATABASE
  }

  function StaleRegistration(s: PruneScope, id: MountId): PluginId
    requires Stale(s, id)
  {
    PluginId(TypeName(id.mtype), s.managed[id].plugin, TrimV(s.managed[id].version))
  }

  /** The file of a stale version, named with the version as Vault reports it. */
  function StaleFile(s: PruneScope, id: MountId): string
    requires Stale(s, id)
  {
    FileName(s.managed[id].plugin, s.managed[id].version)
  }

  ghost predicate PruneEffect(s: PruneScope, e: Effect) {
    match e
    case Unmounted(id) => Stale(s, id)
    case Deregistered(p) => exists id :: StaleVersion(s, id) && p == StaleRegistration(s, id)
    case RemovedFile(_, file) => s.mode == PRUNE_FULL && exists id :: StaleVersion(s, id) && file == StaleFile(s, id)
    case _ => false
  }

  /** The turns of one stale mount: disable it, deregister its version, remove its file from each pod. */
  function TurnOf(s: PruneScope, id: MountId, pods: seq<string>, k: nat): Effect
    requires Stale(s, id) && k < 2 + |pods|
  {
    if k == 0 then Unmounted(id)
    else if k == 1 then Deregistered(StaleRegistration(s, id))
    else RemovedFile(pods[k - 2], StaleFile(s, id))
  }

  function Turns(s: PruneScope, id: MountId, pods: seq<string>): nat {
    if !StaleVersion(s, id) then 1 else if s.mode != PRUNE_FULL then 2 else 2 + |pods|
  }

  /** The turns were taken in order, each after the one before was acknowledged: all of them, or up to the first
      that failed. */
  ghost predicate TookTurns(s: PruneScope, id: MountId, pods: seq<string>, sent: seq<Attempt>, ok: bool)
    requires Stale(s, id)
  {
    && 1 <= |sent| <= Turns(s, id, pods)
    && (forall k :: 0 <= k < |sent| ==> sent[k].effect == TurnOf(s, id, pods, k))
    && (forall k :: 0 <= k < |sent| - 1 ==> sent[k].ok)
    && (ok <==> sent[|sent| - 1].ok) && (ok ==> |sent| == Turns(s, id, pods))
  }

  /** Since `from`, a version was deregistered only after a mount that ran it was disabled, and a file removed only
      after its version was deregistered. */
  ghost predicate Earned(s: PruneScope, log: seq<Attempt>, from: nat, i: nat)
    requires i < |log|
  {
    match log[i].effect
    case Unmounted(id) => Stale(s, id)
    case Deregistered(p) =>
      exists j, id :: from <= j < i && log[j] == Attempt(Unmounted(id), true) && StaleVersion(s, id)
        && p == StaleRegistration(s, id)
    case RemovedFile(_, file) =>
      && s.mode == PRUNE_FULL
      && exists j, id ::
           && from <= j < i && StaleVersion(s, id) && file == StaleFile(s, id)
           && log[j] == Attempt(Deregistered(StaleRegistration(s, id)), true)
    case _ => false
  }

  ghost predicate PruneLog(s: PruneScope, log: seq<Attempt>, from: nat) {
    from <= |log| && forall i :: from <= i < |log| ==> Earned(s, log, from, i)
  }

  lemma {:induction false} EarnedStays(s: PruneScope, before: seq<Attempt>, after: seq<Attempt>, from: nat)
    requires before <= after && PruneLog(s, before, from)
    ensures forall i :: from <= i < |before| ==> Earned(s, after, from, i)
  {
    forall i | from <= i < |before|
      ensures Earned(s, after, from, i)
    {
      assert Earned(s, before, from, i) && after[i] == before[i];
      match before[i].effect
      case Deregistered(p) =>
        var j, id :| from <= j < i && before[j] == Attempt(Unmounted(id), true) && StaleVersion(s, id)
          && p == StaleRegistration(s, id);
        assert after[j] == before[j];
      case RemovedFile(_, file) =>
        var j, id :| from <= j < i && StaleVersion(s, id)
          && before[j] == Attempt(Deregistered(StaleRegistration(s, id)), true)
                     && file == StaleFile(s, id);
        assert after[j] == before[j];
      case _ =>
    }
  }

  lemma {:induction false} TurnsAreEarned(s: PruneScope, id: MountId, pods: seq<string>, before: seq<Attempt>,
                                          after: seq<Attempt>, from: nat, ok: bool)
    requires Stale(s, id) && before <= after && PruneLog(s, before, from)
             && TookTurns(s, id, pods, Since(before, after), ok)
    ensures PruneLog(s, after, from)
  {
    var n, sent := |before|, Since(before, after);
    EarnedStays(s, before, after, from);
    forall i | n <= i < |after|
      ensures Earned(s, after, from, i)
    {
      var k := i - n;
      assert after[i] == sent[k];
      if k == 1 {
        assert after[n] == sent[0] == Attempt(Unmounted(id), true);
      } else if k > 1 {
        assert after[n + 1] == sent[1] == Attempt(Deregistered(StaleRegistration(s, id)), true);
      }
    }
  }

  ghost predicate OnlyStaleGone(s: PruneScope, before: World, after: World) {
    && after == before.(mounts := after.mounts, catalog := after.catalog, files := after.files)
    && (forall id :: id in after.mounts ==> id in before.mounts && after.mounts[id] == before.mounts[id])
    && (forall id :: id in before.mounts && id !in after.mounts ==> Stale(s, id))
    && (forall p :: p in after.catalog ==> p in before.catalog && after.catalog[p] == before.catalog[p])
    && (forall p :: p in before.catalog && p !in after.catalog ==> PruneEffect(s, Deregistered(p)))
    && (forall f :: f in after.files ==> f in before.files && after.files[f] == before.files[f])
    && (forall f :: f in before.files && f !in after.files ==> PruneEffect(s, RemovedFile(f.0, f.1)))
  }

  lemma {:induction false} StaleGoneInTwoSteps(s: PruneScope, a: World, b: World, c: World)
    requires OnlyStaleGone(s, a, b) && OnlyStaleGone(s, b, c)
    ensures OnlyStaleGone(s, a, c)
  {
  }

  /** All that a stale mount leaves behind is gone. */
  ghost predicate AllGone(s: PruneScope, w: World, id: MountId) {
    && id !in w.mounts
    && (StaleVersion(s, id) ==> StaleRegistration(s, id) !in w.catalog)
    && (StaleVersion(s, id) && s.mode == PRUNE_FULL ==>
          forall pod :: pod in w.pods ==> (pod, StaleFile(s, id)) !in w.files)
  }

  lemma {:induction false} GoneStays(s: PruneScope, before: World, after: World, id: MountId)
    requires OnlyStaleGone(s, before, after) && AllGone(s, before, id)
    ensures AllGone(s, after, id)
  {
  }

  /** prune: stale managed mounts, then their version, then, in full mode, their binary. */
  method PruneMounts(v: Vault, mode: string, ids: set<MountId>, versions: set<string>) returns (ok: bool)
    modifies v`w, v`log, v`faults
    ensures v.faults >= old(v.faults) && (v.faults == old(v.faults) ==> ok)
    ensures Grew(old(v.log), v.log, 7, ok)
    ensures var s := PruneScope(mode, old(ManagedMounts(v.w.mounts)), ids, versions);
            && OnlyStaleGone(s, old(v.w), v.w) && PruneLog(s, v.log, |old(v.log)|)
            && (ok && mode != PRUNE_NEVER ==> forall id :: Stale(s, id) ==> AllGone(s, v.w, id))
    ensures mode == PRUNE_NEVER ==> ok && v.w == old(v.w) && v.log == old(v.log)
    ensures ok && mode != PRUNE_NEVER ==> ManagedMounts(v.w.mounts).Keys <= ids
    ensures old(ManagedMounts(v.w.mounts).Keys <= ids) ==> v.w == old(v.w) && v.log == old(v.log)
  {
    if mode == PRUNE_NEVER {
      return true;
    }
    var listed := v.ListManagedMounts();
    if listed.None? {
      return false;
    }
    var s := PruneScope(mode, listed.value, ids, versions);
    NothingLeftIff(listed.value.Keys, ids);
    ghost var before := v.w;
    ok := PruneStale(v, s, listed.value.Keys - ids);
    if ok {
      ManagedAreDeclared(s, before, v.w);
    }
  }

  lemma {:induction false} ManagedAreDeclared(s: PruneScope, before: World, after: World)
    requires s.managed == ManagedMounts(before.mounts) && OnlyStaleGone(s, before, after)
    requires forall id :: id in s.managed.Keys - s.ids ==> AllGone(s, after, id)
    ensures ManagedMounts(after.mounts).Keys <= s.ids
  {
    forall id | id in ManagedMounts(after.mounts)
      ensures id in s.ids
    {
      assert id in after.mounts && id in s.managed;
      assert id !in s.managed.Keys - s.ids;
    }
  }

  method PruneStale(v: Vault, s: PruneScope, stale: set<MountId>) returns (ok: bool)
    requires forall id :: id in stale ==> Stale(s, id)
    modifies v`w, v`log, v`faults
    ensures v.faults >= old(v.faults) && (v.faults == old(v.faults) ==> ok)
    ensures Grew(old(v.log), v.log, 7, ok)
    ensures OnlyStaleGone(s, old(v.w), v.w) && PruneLog(s, v.log, |old(v.log)|)
    ensures ok ==> forall id :: id in stale ==> AllGone(s, v.w, id)
    ensures stale == {} ==> ok && v.w == old(v.w) && v.log == old(v.log)
  {
    var left := stale;
    ghost var start, from := v.w, |v.log|;
    while left != {}
      invariant left <= stale && v.faults >= old(v.faults) && Grew(old(v.log), v.log, 7, true)
      invariant OnlyStaleGone(s, start, v.w) && PruneLog(s, v.log, from)
      invariant forall id :: id in stale - left ==> AllGone(s, v.w, id)
      invariant stale == {} ==> v.w == start && v.log == old(v.log)
      decreases left
    {
      var id :| id in left;
      ghost var before, log := v.w, v.log;
      ok := PruneOne(v, s, id);
      StaleGoneInTwoSteps(s, start, before, v.w);
      TurnsAreEarned(s, id, v.w.pods, log, v.log, from, ok);
      TurnsGrow(s, id, v.w.pods, log, v.log, ok);
      if !ok {
        return;
      }
      forall other | other in stale - left
        ensures AllGone(s, v.w, other)
      {
        GoneStays(s, before, v.w, other);
      }
      left := left - {id};
    }
    ok := true;
  }

  lemma {:induction false} TurnsGrow(s: PruneScope, id: MountId, pods: seq<string>, before: seq<Attempt>,
                                     after: seq<Attempt>, ok: bool)
    requires Stale(s, id) && before <= after && TookTurns(s, id, pods, Since(before, after), ok)
    ensures Grew(before, after, 7, ok)
  {
    GrewSince(before, after, 7, ok);
  }

  /** One stale mount: disable, then deregister, then remove, each only after the one before succeeded. */
  method PruneOne(v: Vault, s: PruneScope, id: MountId) returns (ok: bool)
    requires Stale(s, id)
    modifies v`w, v`log, v`faults
    ensures v.faults >= old(v.faults) && (v.faults == old(v.faults) ==> ok)
    ensures old(v.log) <= v.log && TookTurns(s, id, v.w.pods, Since(old(v.log), v.log), ok)
    ensures OnlyStaleGone(s, old(v.w), v.w) && (ok ==> AllGone(s, v.w, id))
  {
    ghost var log := v.log;
    ok := v.DisableMount(id);
    assert Since(log, v.log) == [Attempt(Unmounted(id), ok)];
    if !ok || !StaleVersion(s, id) {
      return;
    }
    ghost var unmounted := v.w;
    var reg := StaleRegistration(s, id);
    assert PruneEffect(s, Deregistered(reg));
    ok := v.DeregisterPlugin(reg);
    assert Since(log, v.log) == [Attempt(Unmounted(id), true), Attempt(Deregistered(reg), ok)];
    assert OnlyStaleGone(s, unmounted, v.w);
    StaleGoneInTwoSteps(s, old(v.w), unmounted, v.w);
    if ok && s.mode == PRUNE_FULL {
      ghost var deregistered := v.w;
      ok := RemoveFiles(v, s, id, log);
      StaleGoneInTwoSteps(s, old(v.w), deregistered, v.w);
    }
  }

  /** The first `n` turns were taken and acknowledged. */
  ghost predicate TurnsSoFar(s: PruneScope, id: MountId, pods: seq<string>, sent: seq<Attempt>, n: nat)
    requires Stale(s, id) && n <= 2 + |pods|
  {
    |sent| == n && forall k :: 0 <= k < n ==> sent[k] == Attempt(TurnOf(s, id, pods, k), true)
  }

  lemma {:induction false} OneMoreTurn(s: PruneScope, id: MountId, pods: seq<string>, sent: seq<Attempt>, n: nat,
                                       ok: bool)
    requires StaleVersion(s, id) && s.mode == PRUNE_FULL && n < 2 + |pods| && TurnsSoFar(s, id, pods, sent, n)
    ensures var more := sent + [Attempt(TurnOf(s, id, pods, n), ok)];
            if ok then TurnsSoFar(s, id, pods, more, n + 1) else TookTurns(s, id, pods, more, false)
  {
  }

  method RemoveFiles(v: Vault, s: PruneScope, id: MountId, ghost log: seq<Attempt>) returns (ok: bool)
    requires StaleVersion(s, id) && s.mode == PRUNE_FULL
    requires v.log == log + [Attempt(Unmounted(id), true), Attempt(Deregistered(StaleRegistration(s, id)), true)]
    modifies v`w, v`log, v`faults
    ensures v.faults >= old(v.faults) && (v.faults == old(v.faults) ==> ok)
    ensures log <= v.log && TookTurns(s, id, v.w.pods, Since(log, v.log), ok)
    ensures OnlyStaleGone(s, old(v.w), v.w) && v.w.mounts == old(v.w.mounts) && v.w.catalog == old(v.w.catalog)
    ensures ok ==> forall pod :: pod in v.w.pods ==> (pod, StaleFile(s, id)) !in v.w.files
  {
    var file, pods := StaleFile(s, id), v.w.pods;
    for n := 0 to |pods|
      invariant v.faults == old(v.faults) && log <= v.log && TurnsSoFar(s, id, pods, Since(log, v.log), 2 + n)
      invariant OnlyStaleGone(s, old(v.w), v.w) && v.w.mounts == old(v.w.mounts) && v.w.catalog == old(v.w.catalog)
      invariant forall pod :: pod in pods[..n] ==> (pod, file) !in v.w.files
    {
      ghost var before, sent := v.w, Since(log, v.log);
      assert PruneEffect(s, RemovedFile(pods[n], file)) && pods[..n + 1] == pods[..n] + [pods[n]];
      ok := v.RemoveFile(pods[n], file);
      assert Since(log, v.log) == sent + [Attempt(TurnOf(s, id, pods, 2 + n), ok)];
      OneMoreTurn(s, id, pods, sent, 2 + n, ok);
      assert OnlyStaleGone(s, before, v.w);
      StaleGoneInTwoSteps(s, old(v.w), before, v.w);
      if !ok {
        return;
      }
    }
    assert pods[..|pods|] == pods;
    ok := true;
  }
}
