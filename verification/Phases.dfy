/** The phases of a reconcile pass over Vault, one by one: internal/reconcile/reconcile.go. */
module Phases {
  import opened Requests
  import opened RoleValues
  import opened Strings
  import opened Specs
  import opened Mounts
  import opened Cluster
  import EngineConfigs
  import EngineConfigRuns
  import EngineConfigStep
  import RoleWrites

  /** A validated spec, as a pass takes it. */
  datatype Desired = Desired(pruneMode: string, catalog: seq<CatalogEntry>, mounts: seq<Mount>,
                             engines: seq<EngineConfigEntry>, roles: seq<RoleEntry>)

  /** nvKey: a plugin version, up to a leading "v". */
  function NvKey(name: string, version: string): string {
    name + "@" + TrimV(version)
  }

  function DesiredVersions(d: Desired): set<string> {
    (set c | c in d.catalog :: NvKey(c.name, c.version)) + (set m | m in d.mounts :: NvKey(m.plugin, m.version))
  }

  /** Where a role lives: its normalised mount and its rolesPath. */
  ghost function Spot(r: RoleEntry): (string, string) {
    (TrimSlashes(r.mount), r.rolesPath)
  }

  function SpotPath(spot: (string, string)): string {
    spot.0 + "/" + spot.1
  }

  ghost function RolePath(r: RoleEntry): string {
    SpotPath(Spot(r)) + "/" + r.name
  }

  // ----- The order of a pass -----

  function PhaseOf(e: Effect): int {
    match e
    case Copied(_, _) => 1
    case Registered(_) => 1
    case EnsuredMount(_) => 2
    case Reloaded(_) => 3
    case CreatedState => 4
    case WroteConfig(_) => 4
    case SavedRecords => 4
    case WroteRole(_) => 5
    case DeletedRole(_) => 6
    case Unmounted(_) => 7
    case Deregistered(_) => 7
    case RemovedFile(_, _) => 7
  }

  /** The log grew by attempts of one phase, all acknowledged if the phase went well. */
  ghost predicate Grew(before: seq<Attempt>, after: seq<Attempt>, phase: int, ok: bool) {
    before <= after && forall i :: |before| <= i < |after| ==> PhaseOf(after[i].effect) == phase && (ok ==> after[i].ok)
  }

  /** A Vault object as it is. */
  datatype View = View(w: World, keys: map<string, string>, log: seq<Attempt>, unread: seq<string>, faults: nat)

  ghost function ViewOf(v: Vault): View
    reads v, v.client
  {
    View(v.w, v.client.roleKeys, v.log, v.unread, v.faults)
  }

  /** From `s` to `t` nothing happened but failing requests. */
  ghost predicate Idle(s: View, t: View) {
    t.w == s.w && t.log == s.log
  }

  // ----- What a pass brings about -----

  ghost predicate FilesSettled(files: Files, pods: seq<string>, file: string, sha256: string) {
    forall pod :: pod in pods ==> (pod, file) in files && files[(pod, file)] == sha256
  }

  /** What a catalog entry needs of the world to be ensured at all. */
  predicate Available(w: World, c: CatalogEntry) {
    ValidType(c.ptype) && c.source in w.artifacts
  }

  ghost predicate EntrySettled(w: World, c: CatalogEntry) {
    && Available(w, c)
    && FilesSettled(w.files, w.pods, FileName(c.name, c.version), w.artifacts[c.source])
    && CatalogIdOf(c) in w.catalog && Matches(w.catalog[CatalogIdOf(c)], c, w.artifacts[c.source])
  }

  /** No file and no registration went missing. */
  ghost predicate NoneLost(before: World, after: World) {
    before.files.Keys <= after.files.Keys && before.catalog.Keys <= after.catalog.Keys
  }

  ghost predicate CatalogSettled(w: World, catalog: seq<CatalogEntry>) {
    forall i :: 0 <= i < |catalog| ==> EntrySettled(w, catalog[i])
  }

  predicate AllAvailable(w: World, catalog: seq<CatalogEntry>) {
    forall c :: c in catalog ==> Available(w, c)
  }

  /** No two entries share a registration or a file. */
  ghost predicate DistinctCatalog(catalog: seq<CatalogEntry>) {
    forall i, j :: 0 <= i < j < |catalog| ==>
      && CatalogIdOf(catalog[i]) != CatalogIdOf(catalog[j])
      && FileName(catalog[i].name, catalog[i].version) != FileName(catalog[j].name, catalog[j].version)
  }

  // ----- 1. Binaries and registrations -----

  /** Not registered as declared. */
  ghost predicate Unregistered(w: World, c: CatalogEntry) {
    c.source in w.artifacts ==>
        CatalogIdOf(c) !in w.catalog || !Matches(w.catalog[CatalogIdOf(c)], c, w.artifacts[c.source])
  }

  ghost function UnregisteredNames(w: World, catalog: seq<CatalogEntry>): set<string> {
    set c | c in catalog && Unregistered(w, c) :: c.name
  }

  /** From `s` to `t` the first `n` entries were ensured, or an error stopped that: for want of an available entry or of
      a request that went well, and for nothing else. Registered entries ask for a reload. */
  ghost predicate CatalogEnsured(s: View, t: View, catalog: seq<CatalogEntry>, n: nat, ok: bool, reload: set<string>)
    requires n <= |catalog|
  {
    && s.faults <= t.faults && (t.faults == s.faults ==> (ok <==> AllAvailable(s.w, catalog[..n])))
    && t.w == s.w.(files := t.w.files, catalog := t.w.catalog) && NoneLost(s.w, t.w)
    && Grew(s.log, t.log, 1, ok)
    && (ok && DistinctCatalog(catalog) ==>
          && CatalogSettled(t.w, catalog[..n]) && RegistrationsAhead(s.w, t.w, catalog, n)
          && reload == UnregisteredNames(s.w, catalog[..n]))
    && (CatalogSettled(s.w, catalog) ==> Idle(s, t) && reload == {})
  }

  method EnsureCatalog(v: Vault, catalog: seq<CatalogEntry>) returns (ok: bool, reload: set<string>)
    requires v.Valid()
    modifies v`w, v`log, v`faults
    ensures CatalogEnsured(old(ViewOf(v)), ViewOf(v), catalog, |catalog|, ok, reload)
  {
    reload := {};
    ghost var s := ViewOf(v);
    for n := 0 to |catalog|
      invariant CatalogEnsured(s, ViewOf(v), catalog, n, true, reload)
    {
      ghost var t, before := ViewOf(v), reload;
      var changed;
      ok, changed := EnsureEntry(v, catalog[n]);
      if ok && changed {
        reload := reload + {catalog[n].name};
      }
      EntryEnsured(s, t, ViewOf(v), catalog, n, ok, changed, before, reload);
      if !ok {
        return;
      }
    }
    assert catalog[..|catalog|] == catalog;
    ok := true;
  }

  /** What one entry's turn does. */
  ghost predicate EntryStep(s: View, t: View, c: CatalogEntry, ok: bool, changed: bool) {
    && s.faults <= t.faults && (t.faults == s.faults ==> (ok <==> Available(s.w, c)))
    && t.w == s.w.(files := t.w.files, catalog := t.w.catalog) && NoneLost(s.w, t.w)
    && Grew(s.log, t.log, 1, ok)
    && (ok ==> EntrySettled(t.w, c) && TouchesOnly(s.w, t.w, c) && (changed <==> Unregistered(s.w, c)))
    && (EntrySettled(s.w, c) ==> !changed && Idle(s, t))
  }

  lemma {:induction false} EntryEnsured(s: View, t: View, u: View, catalog: seq<CatalogEntry>, n: nat, ok: bool,
                                        changed: bool, before: set<string>, reload: set<string>)
    requires n < |catalog| && CatalogEnsured(s, t, catalog, n, true, before)
    requires EntryStep(t, u, catalog[n], ok, changed)
    requires reload == if ok && changed then before + {catalog[n].name} else before
    ensures if ok then CatalogEnsured(s, u, catalog, n + 1, true, reload)
            else CatalogEnsured(s, u, catalog, |catalog|, false, reload)
  {
    if ok {
      assert catalog[..n + 1] == catalog[..n] + [catalog[n]];
      SettledOneMore(t.w, u.w, catalog, n);
      AheadOneMore(s.w, t.w, u.w, catalog, n);
    } else {
      EntryStopped(s, t, u, catalog, n, changed, before);
    }
  }

  lemma {:induction false} EntryStopped(s: View, t: View, u: View, catalog: seq<CatalogEntry>, n: nat, changed: bool,
                                        reload: set<string>)
    requires n < |catalog| && CatalogEnsured(s, t, catalog, n, true, reload)
    requires EntryStep(t, u, catalog[n], false, changed)
    ensures CatalogEnsured(s, u, catalog, |catalog|, false, reload)
  {
    assert catalog[..|catalog|] == catalog && catalog[n] in catalog;
    assert CatalogSettled(s.w, catalog) ==> EntrySettled(s.w, catalog[n]);
  }

  /** One entry: fetch it, place it on every pod, register it. */
  method EnsureEntry(v: Vault, c: CatalogEntry) returns (ok: bool, changed: bool)
    requires v.Valid()
    modifies v`w, v`log, v`faults
    ensures EntryStep(old(ViewOf(v)), ViewOf(v), c, ok, changed)
  {
    changed := false;
    if c.source !in v.w.artifacts {
      return false, changed;
    }
    var fetched := v.Pick();
    if !fetched.Done? {
      return false, changed;
    }
    var sha256, file := v.w.artifacts[c.source], FileName(c.name, c.version);
    ok := PlaceFile(v, v.w.pods, file, sha256);
    if ok {
      ok, changed := v.EnsurePlugin(c, sha256);
    }
  }

  /** The file on every pod. */
  method PlaceFile(v: Vault, pods: seq<string>, file: string, sha256: string) returns (ok: bool)
    requires v.Valid()
    modifies v`w, v`log, v`faults
    ensures v.faults >= old(v.faults) && (v.faults == old(v.faults) ==> ok)
    ensures v.w == old(v.w).(files := v.w.files) && old(v.w.files).Keys <= v.w.files.Keys
    ensures Grew(old(v.log), v.log, 1, ok)
    ensures ok ==> FilesSettled(v.w.files, pods, file, sha256) && OtherFilesKept(old(v.w.files), v.w.files, file)
    ensures old(FilesSettled(v.w.files, pods, file, sha256)) ==> v.w == old(v.w) && v.log == old(v.log)
  {
    for n := 0 to |pods|
      invariant v.faults >= old(v.faults)
      invariant v.w == old(v.w).(files := v.w.files) && old(v.w.files).Keys <= v.w.files.Keys
      invariant Grew(old(v.log), v.log, 1, true)
      invariant FilesSettled(v.w.files, pods[..n], file, sha256) && OtherFilesKept(old(v.w.files), v.w.files, file)
      invariant old(FilesSettled(v.w.files, pods, file, sha256)) ==> v.w == old(v.w) && v.log == old(v.log)
    {
      assert pods[n] in pods && pods[..n + 1] == pods[..n] + [pods[n]];
      ok := v.EnsureFile(pods[n], file, sha256);
      if !ok {
        return;
      }
    }
    assert pods[..|pods|] == pods;
    ok := true;
  }

  ghost predicate OtherFilesKept(before: Files, after: Files, file: string) {
    forall key: (string, string) :: key.1 != file ==>
             (key in after <==> key in before) && (key in before ==> after[key] == before[key])
  }

  /** Nothing but the entry's own files and registration changed. */
  ghost predicate TouchesOnly(before: World, after: World, c: CatalogEntry) {
    && OtherFilesKept(before.files, after.files, FileName(c.name, c.version))
    && forall id :: id != CatalogIdOf(c) ==>
         (id in after.catalog <==> id in before.catalog)
           && (id in before.catalog ==> after.catalog[id] == before.catalog[id])
  }

  /** The entries from `n` on are registered, or not, as they were. */
  ghost predicate RegistrationsAhead(before: World, after: World, catalog: seq<CatalogEntry>, n: nat) {
    forall i :: n <= i < |catalog| ==> (Unregistered(after, catalog[i]) <==> Unregistered(before, catalog[i]))
  }

  lemma {:induction false} AheadOneMore(start: World, before: World, after: World, catalog: seq<CatalogEntry>, n: nat)
    requires n < |catalog| && TouchesOnly(before, after, catalog[n]) && after.artifacts == before.artifacts
    ensures DistinctCatalog(catalog) && RegistrationsAhead(start, before, catalog, n) ==>
              RegistrationsAhead(start, after, catalog, n + 1)
    ensures UnregisteredNames(start, catalog[..n + 1])
         == UnregisteredNames(start, catalog[..n]) + if Unregistered(start, catalog[n]) then {catalog[n].name} else {}
  {
    if DistinctCatalog(catalog) && RegistrationsAhead(start, before, catalog, n) {
      forall i | n + 1 <= i < |catalog|
        ensures Unregistered(after, catalog[i]) <==> Unregistered(before, catalog[i])
      {
        assert CatalogIdOf(catalog[i]) != CatalogIdOf(catalog[n]);
      }
    }
    assert catalog[..n + 1] == catalog[..n] + [catalog[n]];
  }

  lemma {:induction false} SettledOneMore(before: World, after: World, catalog: seq<CatalogEntry>, n: nat)
    requires n < |catalog| && TouchesOnly(before, after, catalog[n]) && EntrySettled(after, catalog[n])
    requires after == before.(files := after.files, catalog := after.catalog)
    ensures DistinctCatalog(catalog) && CatalogSettled(before, catalog[..n]) ==> CatalogSettled(after, catalog[..n + 1])
  {
    if DistinctCatalog(catalog) && CatalogSettled(before, catalog[..n]) {
      forall i | 0 <= i < n
        ensures EntrySettled(after, catalog[i])
      {
        assert EntrySettled(before, catalog[..n][i]);
        var c := catalog[i];
        assert FileName(c.name, c.version) != FileName(catalog[n].name, catalog[n].version);
      }
    }
  }

  // ----- 2. Mounts -----

  ghost predicate MountSettled(mounts: map<MountId, Live>, m: Mount) {
    !m.mtype.Database? && IdOf(m) in mounts && Conforms(mounts[IdOf(m)], m)
  }

  /** A mount to enable, or whose version or options are not as declared. */
  ghost predicate Moves(mounts: map<MountId, Live>, m: Mount) {
    IdOf(m) in mounts ==> !Conforms(mounts[IdOf(m)].(description := m.description), m)
  }

  ghost function MovedPlugins(mounts: map<MountId, Live>, ms: seq<Mount>): set<string> {
    set m | m in ms && Moves(mounts, m) :: m.plugin
  }

  ghost predicate MountsSettled(mounts: map<MountId, Live>, ms: seq<Mount>) {
    forall m :: m in ms ==> MountSettled(mounts, m)
  }

  ghost predicate DistinctMounts(ms: seq<Mount>) {
    forall i, j :: 0 <= i < j < |ms| ==> IdOf(ms[i]) != IdOf(ms[j])
  }

  ghost function IdsOf(ms: seq<Mount>): set<MountId> {
    set m | m in ms :: IdOf(m)
  }

  /** The mounts outside of `ids` are as they were. */
  ghost predicate OthersKept(before: map<MountId, Live>, after: map<MountId, Live>, ids: set<MountId>) {
    before - ids == after - ids
  }

  /** No mount was lost or recreated, and the new ones have a UUID. */
  ghost predicate UuidsKept(before: map<MountId, Live>, after: map<MountId, Live>) {
    && (forall id :: id in before ==> id in after && after[id].uuid == before[id].uuid)
    && forall id :: id in after && id !in before ==> after[id].uuid != ""
  }

  /** A mount that was there keeps its plugin, and a new one runs the plugin it is declared with. */
  ghost predicate RunDeclared(before: map<MountId, Live>, after: map<MountId, Live>, ms: seq<Mount>) {
    && PluginsKept(before, after)
    && forall id :: id in after && id !in before ==> DeclaredWith(ms, id, after[id].plugin)
  }

  ghost predicate PluginsKept(before: map<MountId, Live>, after: map<MountId, Live>) {
    forall id :: id in before && id in after ==> after[id].plugin == before[id].plugin
  }

  ghost predicate DeclaredWith(ms: seq<Mount>, id: MountId, plugin: string) {
    exists m :: m in ms && IdOf(m) == id && m.plugin == plugin
  }

  predicate Mountable(ms: seq<Mount>) {
    forall m :: m in ms ==> !m.mtype.Database?
  }

  /** From `s` to `t` the first `n` mounts were ensured, or an error stopped that: for a mount type Vault does not mount
      or a request that failed, and for nothing else. Only declared mounts were touched, and of them the missing ones
      enabled; `moved` plugins are to reload. */
  ghost predicate MountsEnsured(s: View, t: View, ms: seq<Mount>, n: nat, ok: bool, moved: set<string>)
    requires n <= |ms|
  {
    && s.faults <= t.faults && (t.faults == s.faults ==> (ok <==> Mountable(ms[..n])))
    && t.w == s.w.(mounts := t.w.mounts) && Grew(s.log, t.log, 2, ok)
    && OthersKept(s.w.mounts, t.w.mounts, IdsOf(ms)) && UuidsKept(s.w.mounts, t.w.mounts)
    && RunDeclared(s.w.mounts, t.w.mounts, ms)
    && (ok ==> && OthersKept(s.w.mounts, t.w.mounts, IdsOf(ms[..n]))
               && ManagedMounts(t.w.mounts).Keys == ManagedMounts(s.w.mounts).Keys + (IdsOf(ms[..n]) - s.w.mounts.Keys))
    && (ok && DistinctMounts(ms) ==> MountsSettled(t.w.mounts, ms[..n]) && moved == MovedPlugins(s.w.mounts, ms[..n]))
    && (MountsSettled(s.w.mounts, ms) ==> Idle(s, t) && moved == {})
  }

  method EnsureMounts(v: Vault, ms: seq<Mount>, reload: set<string>)
    returns (ok: bool, reload': set<string>, ids: set<MountId>, ghost moved: set<string>)
    requires v.Valid()
    modifies v`w, v`log, v`faults
    ensures MountsEnsured(old(ViewOf(v)), ViewOf(v), ms, |ms|, ok, moved)
    ensures reload' == reload + moved && (ok ==> ids == IdsOf(ms))
  {
    reload', ids, moved := reload, {}, {};
    ghost var s := ViewOf(v);
    NoMountsYet(s, ms);
    for n := 0 to |ms|
      invariant MountsEnsured(s, ViewOf(v), ms, n, true, moved)
      invariant ids == IdsOf(ms[..n])
      invariant forall p :: p in reload' <==> p in reload || p in moved
    {
      ghost var t, before := ViewOf(v), moved;
      var changed, id;
      ok, changed, id := EnsureOne(v, ms[n]);
      moved := if ok && changed then moved + {ms[n].plugin} else moved;
      MountEnsuredNext(s, t, ViewOf(v), ms, n, ok, changed, before, moved);
      if !ok {
        return;
      }
      if changed {
        reload' := reload' + {ms[n].plugin};
      }
      ids := ids + {id};
    }
    assert ms[..|ms|] == ms;
    ok := true;
  }

  lemma {:induction false} NoMountsYet(s: View, ms: seq<Mount>)
    ensures MountsEnsured(s, s, ms, 0, true, {})
  {
  }

  /** What one mount's turn does. */
  ghost predicate MountStep(s: View, t: View, m: Mount, ok: bool, reload: bool) {
    && s.faults <= t.faults && (t.faults == s.faults ==> (ok <==> !m.mtype.Database?))
    && t.w == s.w.(mounts := t.w.mounts) && Grew(s.log, t.log, 2, ok)
    && OthersKept(s.w.mounts, t.w.mounts, {IdOf(m)}) && UuidsKept(s.w.mounts, t.w.mounts)
    && RunDeclared(s.w.mounts, t.w.mounts, [m])
    && (ok ==> && MountSettled(t.w.mounts, m) && (reload <==> Moves(s.w.mounts, m))
               && OwnedAlso(s.w.mounts, t.w.mounts, IdOf(m)))
    && (MountSettled(s.w.mounts, m) ==> Idle(s, t) && (ok ==> !reload))
  }

  lemma {:induction false} MountEnsuredNext(s: View, t: View, u: View, ms: seq<Mount>, n: nat, ok: bool, reload: bool,
                                            before: set<string>, moved: set<string>)
    requires n < |ms| && MountsEnsured(s, t, ms, n, true, before) && MountStep(t, u, ms[n], ok, reload)
    requires moved == if ok && reload then before + {ms[n].plugin} else before
    ensures IdsOf(ms[..n + 1]) == IdsOf(ms[..n]) + {IdOf(ms[n])}
    ensures if ok then MountsEnsured(s, u, ms, n + 1, true, moved) else MountsEnsured(s, u, ms, |ms|, false, moved)
  {
    assert ms[..n + 1] == ms[..n] + [ms[n]] && ms[..|ms|] == ms && ms[n] in ms;
    TouchedOneMore(s.w.mounts, t.w.mounts, u.w.mounts, ms, n, IdsOf(ms[..n]));
    RunOneMore(s.w.mounts, t.w.mounts, u.w.mounts, ms, ms[n]);
    if ok {
      OwnedOneMore(s.w.mounts, t.w.mounts, u.w.mounts, IdsOf(ms[..n]), IdOf(ms[n]));
      if DistinctMounts(ms) {
        SettledAndMoved(s.w.mounts, t.w.mounts, u.w.mounts, ms, n, reload, before, moved);
      }
    }
  }

  lemma {:induction false} SettledAndMoved(start: map<MountId, Live>, before: map<MountId, Live>,
                                           after: map<MountId, Live>, ms: seq<Mount>, n: nat, reload: bool,
                                           moved: set<string>, moved': set<string>)
    requires n < |ms| && DistinctMounts(ms) && OthersKept(start, before, IdsOf(ms[..n])) && MountSettled(after, ms[n])
    requires OthersKept(before, after, {IdOf(ms[n])}) && MountsSettled(before, ms[..n])
             && (reload <==> Moves(before, ms[n]))
    requires moved == MovedPlugins(start, ms[..n]) && moved' == if reload then moved + {ms[n].plugin} else moved
    ensures MountsSettled(after, ms[..n + 1]) && moved' == MovedPlugins(start, ms[..n + 1])
  {
    MovedOneMore(start, before, ms, n);
    MountSettledOneMore(before, after, ms, n);
  }

  lemma {:induction false} TouchedOneMore(start: map<MountId, Live>, before: map<MountId, Live>,
                                          after: map<MountId, Live>, ms: seq<Mount>, n: nat, ids: set<MountId>)
    requires n < |ms| && ids == IdsOf(ms[..n]) && OthersKept(start, before, ids) && UuidsKept(start, before)
    requires OthersKept(before, after, {IdOf(ms[n])}) && UuidsKept(before, after)
    ensures ids + {IdOf(ms[n])} == IdsOf(ms[..n + 1]) && OthersKept(start, after, ids + {IdOf(ms[n])})
    ensures OthersKept(start, after, IdsOf(ms)) && UuidsKept(start, after)
  {
    assert ms[..n + 1] == ms[..n] + [ms[n]];
    KeptOneMore(start, before, after, ids, IdOf(ms[n]));
    KeptMore(start, after, ids + {IdOf(ms[n])}, IdsOf(ms));
  }

  lemma {:induction false} RunOneMore(start: map<MountId, Live>, before: map<MountId, Live>,
                                      after: map<MountId, Live>, ms: seq<Mount>, m: Mount)
    requires m in ms && UuidsKept(start, before) && UuidsKept(before, after)
    requires RunDeclared(start, before, ms) && RunDeclared(before, after, [m])
    ensures RunDeclared(start, after, ms)
  {
    forall id | id in after && id !in start
      ensures DeclaredWith(ms, id, after[id].plugin)
    {
      if id !in before {
        assert DeclaredWith([m], id, after[id].plugin);
      }
    }
  }

  /** With every mount declared once, each one that was missing and is there runs its declared plugin. */
  lemma {:induction false} MissingMountRunsItsPlugin(before: map<MountId, Live>, after: map<MountId, Live>,
                                                     ms: seq<Mount>, m: Mount)
    requires RunDeclared(before, after, ms) && DistinctMounts(ms) && m in ms
    requires IdOf(m) !in before && IdOf(m) in after
    ensures after[IdOf(m)].plugin == m.plugin
  {
    var n :| n in ms && IdOf(n) == IdOf(m) && n.plugin == after[IdOf(m)].plugin;
    var i :| 0 <= i < |ms| && ms[i] == m;
    var j :| 0 <= j < |ms| && ms[j] == n;
  }

  /** The marker: on the mounts that had it, and on `id` if it was missing. */
  ghost predicate OwnedAlso(before: map<MountId, Live>, after: map<MountId, Live>, id: MountId) {
    ManagedMounts(after).Keys == ManagedMounts(before).Keys + ({id} - before.Keys)
  }

  lemma {:induction false} OwnedOneMore(start: map<MountId, Live>, before: map<MountId, Live>,
                                        after: map<MountId, Live>, ids: set<MountId>, id: MountId)
    requires OthersKept(start, before, ids) && UuidsKept(start, before) && OwnedAlso(before, after, id)
    requires ManagedMounts(before).Keys == ManagedMounts(start).Keys + (ids - start.Keys)
    ensures ManagedMounts(after).Keys == ManagedMounts(start).Keys + ((ids + {id}) - start.Keys)
  {
    if id !in ids {
      KeptElsewhere(start, before, ids, id);
    }
    assert (ids + {id}) - start.Keys == (ids - start.Keys) + ({id} - start.Keys);
  }

  method EnsureOne(v: Vault, m: Mount) returns (ok: bool, reload: bool, id: MountId)
    requires v.Valid()
    modifies v`w, v`log, v`faults
    ensures MountStep(old(ViewOf(v)), ViewOf(v), m, ok, reload) && id == IdOf(m)
  {
    var path := Trim(m.path);
    id := MountId(m.mtype, path);
    ghost var before := v.w.mounts;
    var res := v.EnsureMount(m);
    ok, reload := res.Some?, false;
    OnlyThisMount(v.sem, before, v.w.mounts, m, res);
    if ok {
      MountDone(v.sem, before, v.w.mounts, m, res.value);
      reload := res.value.reload;
    }
  }

  lemma {:induction false} MountDone(sem: Semantics, before: map<MountId, Live>, after: map<MountId, Live>, m: Mount,
                                     res: MountResult)
    requires Plausible(sem) && MountEnsured(sem, before, IdOf(m), m, after, Some(res))
    ensures MountSettled(after, m) && (res.reload <==> Moves(before, m))
    ensures MountSettled(before, m) ==> after == before && !res.reload
    ensures OwnedAlso(before, after, IdOf(m))
  {
    var uuid, fate :| uuid != "" && (after, Some(res)) == Mounts.EnsureMount(sem, before, IdOf(m), m, uuid, fate);
    EnsureMountConforms(sem, before, IdOf(m), m, uuid, fate);
    EnsureMountKeepsMarkers(sem, before, IdOf(m), m, uuid, fate);
    if IdOf(m) in before {
      ChangeIffNonconforming(before[IdOf(m)], m);
    }
  }

  lemma {:induction false} OnlyThisMount(sem: Semantics, before: map<MountId, Live>, after: map<MountId, Live>,
                                         m: Mount, res: Option<MountResult>)
    requires Plausible(sem) && MountEnsured(sem, before, IdOf(m), m, after, res)
    ensures OthersKept(before, after, {IdOf(m)}) && UuidsKept(before, after) && RunDeclared(before, after, [m])
  {
    if !(res.None? && after == before) {
      var uuid, fate :| uuid != "" && (after, res) == Mounts.EnsureMount(sem, before, IdOf(m), m, uuid, fate);
      EnsureMountKeepsMarkers(sem, before, IdOf(m), m, uuid, fate);
      EnsuredRunsDeclared(sem, before, IdOf(m), m, uuid, fate);
      assert m in [m];
    }
  }

  lemma {:induction false} KeptOneMore(a: map<MountId, Live>, b: map<MountId, Live>, c: map<MountId, Live>,
                                       ids: set<MountId>, id: MountId)
    requires OthersKept(a, b, ids) && OthersKept(b, c, {id})
    ensures OthersKept(a, c, ids + {id})
  {
    assert a - (ids + {id}) == (a - ids) - {id};
    assert c - (ids + {id}) == (c - {id}) - ids;
    assert (b - ids) - {id} == (b - {id}) - ids;
  }

  lemma {:induction false} KeptMore(before: map<MountId, Live>, after: map<MountId, Live>, ids: set<MountId>,
                                    more: set<MountId>)
    requires OthersKept(before, after, ids) && ids <= more
    ensures OthersKept(before, after, more)
  {
    assert before - more == (before - ids) - more;
    assert after - more == (after - ids) - more;
  }

  lemma {:induction false} MovedOneMore(start: map<MountId, Live>, before: map<MountId, Live>, ms: seq<Mount>, n: nat)
    requires n < |ms| && OthersKept(start, before, IdsOf(ms[..n]))
    ensures MovedPlugins(start, ms[..n + 1])
         == MovedPlugins(start, ms[..n]) + if Moves(start, ms[n]) then {ms[n].plugin} else {}
    ensures DistinctMounts(ms) ==> (Moves(before, ms[n]) <==> Moves(start, ms[n]))
  {
    assert ms[..n + 1] == ms[..n] + [ms[n]];
    if DistinctMounts(ms) {
      assert forall i :: 0 <= i < n ==> IdOf(ms[i]) != IdOf(ms[n]);
      KeptElsewhere(start, before, IdsOf(ms[..n]), IdOf(ms[n]));
    }
  }

  lemma {:induction false} KeptElsewhere(before: map<MountId, Live>, after: map<MountId, Live>, ids: set<MountId>,
                                         id: MountId)
    requires OthersKept(before, after, ids) && id !in ids
    ensures id in after <==> id in before
    ensures id in before ==> after[id] == before[id]
  {
    assert id in before <==> id in before - ids;
    assert id in after <==> id in after - ids;
    assert id in before ==> (before - ids)[id] == before[id];
    assert id in after ==> (after - ids)[id] == after[id];
  }

  lemma {:induction false} MountSettledOneMore(before: map<MountId, Live>, after: map<MountId, Live>, ms: seq<Mount>,
                                               n: nat)
    requires n < |ms| && MountSettled(after, ms[n]) && OthersKept(before, after, {IdOf(ms[n])})
    ensures DistinctMounts(ms) && MountsSettled(before, ms[..n]) ==> MountsSettled(after, ms[..n + 1])
  {
    if DistinctMounts(ms) && MountsSettled(before, ms[..n]) {
      forall m | m in ms[..n + 1]
        ensures MountSettled(after, m)
      {
        var i :| 0 <= i <= n && ms[i] == m;
        if i < n {
          assert m in ms[..n];
          KeptElsewhere(before, after, {IdOf(ms[n])}, IdOf(m));
        }
      }
    }
  }

  // ----- 3. Reloads -----

  /** The plugins whose reload was acknowledged since `from`, in order. */
  ghost function Reloads(log: seq<Attempt>, from: nat): seq<string> {
    if |log| <= from then []
    else
      var last := log[|log| - 1];
      Reloads(log[..|log| - 1], from) + if last.effect.Reloaded? && last.ok then [last.effect.plugin] else []
  }

  /** Exactly the plugins of a set, each once. */
  ghost predicate EachOnce(order: seq<string>, plugins: set<string>) {
    (forall p :: p in plugins <==> p in order) && forall i, j :: 0 <= i < j < |order| ==> order[i] != order[j]
  }

  /** Reloads went well so far, and were those of `done`. */
  ghost predicate ReloadedTo(start: seq<Attempt>, log: seq<Attempt>, from: nat, done: set<string>) {
    Grew(start, log, 3, true) && EachOnce(Reloads(log, from), done)
  }

  lemma {:induction false} ReloadedOneMore(start: seq<Attempt>, log: seq<Attempt>, from: nat, done: set<string>,
                                           p: string)
    requires from <= |start| && p !in done && ReloadedTo(start, log, from, done)
    ensures ReloadedTo(start, log + [Attempt(Reloaded(p), true)], from, done + {p})
    ensures Grew(start, log + [Attempt(Reloaded(p), false)], 3, false)
  {
    assert (log + [Attempt(Reloaded(p), true)])[..|log|] == log;
    assert Reloads(log + [Attempt(Reloaded(p), true)], from) == Reloads(log, from) + [p];
  }

  method ReloadAll(v: Vault, reload: set<string>, ghost from: nat) returns (ok: bool)
    requires v.Valid() && from <= |v.log| && Reloads(v.log, from) == []
    modifies v`log, v`faults
    ensures v.faults >= old(v.faults) && (v.faults == old(v.faults) <==> ok)
    ensures Grew(old(v.log), v.log, 3, ok)
    ensures reload == {} ==> ok && v.log == old(v.log)
    ensures ok ==> EachOnce(Reloads(v.log, from), reload)
  {
    var left := reload;
    ghost var done: set<string>, start := {}, v.log;
    while left != {}
      invariant done !! left && done + left == reload
      invariant v.faults == old(v.faults) && ReloadedTo(start, v.log, from, done)
      invariant reload == {} ==> v.log == start
      decreases left
    {
      var p :| p in left;
      ReloadedOneMore(start, v.log, from, done, p);
      ok := v.ReloadPlugin(p);
      if !ok {
        return;
      }
      left, done := left - {p}, done + {p};
    }
    assert done == reload;
    ok := true;
  }

  // ----- 4. Engine configs -----

  /** The records a pass reads; a missing state Secret holds none. */
  function Recorded(w: World): EngineConfigs.Records {
    if w.records.None? then map[] else w.records.value
  }

  function KeysOf(es: seq<EngineConfigEntry>): set<string> {
    set e | e in es :: EngineConfigs.EntryKey(e)
  }

  ghost predicate DistinctEngines(es: seq<EngineConfigEntry>) {
    forall i, j :: 0 <= i < j < |es| ==> EngineConfigs.EntryKey(es[i]) != EngineConfigs.EntryKey(es[j])
  }

  /** Every body can be built from the Secrets, every mount has a UUID. */
  predicate EnginesReady(codec: EngineConfigs.Codec, w: World, es: seq<EngineConfigEntry>) {
    var built := EngineConfigRuns.ResolveAll(codec, es, w.secrets);
    built.Some? && EngineConfigs.MountsKnown(built.value, Uuids(w.mounts))
  }

  ghost predicate EnginesSettled(codec: EngineConfigs.Codec, w: World, es: seq<EngineConfigEntry>) {
    && EnginesReady(codec, w, es)
    && EngineConfigs.Pending(Recorded(w), EngineConfigRuns.ResolveAll(codec, es, w.secrets).value, Uuids(w.mounts)) ==
        []
  }

  ghost predicate NoStaleRecords(w: World, es: seq<EngineConfigEntry>) {
    Recorded(w).Keys <= KeysOf(es)
  }

  /** reconcileEngineConfigs, with nobody else in between: EngineConfigStep has it against a world that moves.
      Unreadable records stop a pass only if engine configs are declared. */
  method ReconcileEngineConfigs(v: Vault, es: seq<EngineConfigEntry>) returns (ok: bool)
    requires v.Valid()
    modifies v`w, v`log, v`faults
    ensures v.faults >= old(v.faults) && (v.faults == old(v.faults) ==> (ok <==> old(EnginesReady(v.codec, v.w, es))))
    ensures v.w == old(v.w).(records := v.w.records) && Grew(old(v.log), v.log, 4, ok)
    ensures ok && DistinctEngines(es) ==> EnginesSettled(v.codec, v.w, es)
    ensures ok && (es != [] || v.faults == old(v.faults)) ==> NoStaleRecords(v.w, es)
    ensures old(EnginesSettled(v.codec, v.w, es) && NoStaleRecords(v.w, es)) ==> v.w == old(v.w) && v.log == old(v.log)
  {
    var read := v.Pick();
    if !read.Done? {
      NoEntries(v.codec, v.w, es);
      return es == [];
    }
    var built := ResolveEntries(v, es);
    if built.None? {
      return false;
    }
    var uuids := Uuids(v.w.mounts);
    if es != [] {
      var listed := v.Pick();
      if !listed.Done? || !EngineConfigs.MountsKnown(built.value, uuids) {
        return false;
      }
    }
    NoEntries(v.codec, v.w, es);
    ok := WriteEntries(v, es, built.value, uuids);
  }

  lemma {:induction false} NoEntries(codec: EngineConfigs.Codec, w: World, es: seq<EngineConfigEntry>)
    ensures es == [] ==> EnginesSettled(codec, w, es)
  {
  }

  /** Each Secret is a request; what a failed one would have held does not matter. */
  method ResolveEntries(v: Vault, es: seq<EngineConfigEntry>) returns (built: Option<seq<EngineConfigs.Resolved>>)
    modifies v`faults
    ensures v.faults >= old(v.faults)
    ensures built.Some? ==> built == EngineConfigRuns.ResolveAll(v.codec, es, v.w.secrets)
    ensures v.faults == old(v.faults) ==> built == EngineConfigRuns.ResolveAll(v.codec, es, v.w.secrets)
  {
    for n := 0 to |es|
      invariant v.faults >= old(v.faults)
    {
      if es[n].secretRef.Some? {
        var read := v.Pick();
        if !read.Done? {
          return None;
        }
      }
    }
    built := EngineConfigRuns.ResolveAll(v.codec, es, v.w.secrets);
  }

  /** The create before the first write, the writes, and the save. */
  method WriteEntries(v: Vault, es: seq<EngineConfigEntry>, built: seq<EngineConfigs.Resolved>,
                      uuids: map<string, string>)
    returns (ok: bool)
    requires Some(built) == EngineConfigRuns.ResolveAll(v.codec, es, v.w.secrets)
    requires uuids == Uuids(v.w.mounts) && EngineConfigs.MountsKnown(built, uuids)
    modifies v`w, v`log, v`faults
    ensures v.faults >= old(v.faults) && (v.faults == old(v.faults) ==> ok)
    ensures v.w == old(v.w).(records := v.w.records) && Grew(old(v.log), v.log, 4, ok)
    ensures ok && DistinctEngines(es) ==> EnginesSettled(v.codec, v.w, es)
    ensures ok ==> NoStaleRecords(v.w, es)
    ensures old(EnginesSettled(v.codec, v.w, es) && NoStaleRecords(v.w, es)) ==> v.w == old(v.w) && v.log == old(v.log)
  {
    var before := Recorded(v.w);
    BuiltKeys(v.codec, es, v.w.secrets);
    AllWrittenSettles(before, built, uuids);
    ok := WriteBuilt(v, before, built, uuids);
  }

  method WriteBuilt(v: Vault, before: EngineConfigs.Records, built: seq<EngineConfigs.Resolved>,
                    uuids: map<string, string>)
    returns (ok: bool)
    requires EngineConfigs.MountsKnown(built, uuids) && before == Recorded(v.w)
    modifies v`w, v`log, v`faults
    ensures v.faults >= old(v.faults) && (v.faults == old(v.faults) ==> ok)
    ensures v.w == old(v.w).(records := v.w.records) && Grew(old(v.log), v.log, 4, ok)
    ensures ok ==> Recorded(v.w) == AllWritten(before, built, uuids)
    ensures EngineConfigs.Pending(before, built, uuids) == [] && before.Keys <= EngineConfigs.DeclaredKeys(built) ==>
              v.w == old(v.w) && v.log == old(v.log)
  {
    var pending := EngineConfigStep.ListPending(before, built, uuids);
    ok := EnsureState(v, pending != []);
    if !ok {
      return;
    }
    var records, n, written := WritePending(v, before, pending, uuids);
    var saved := SaveKept(v, records, built, n > 0);
    ok := saved && written;
    if pending == [] {
      NothingWrittenSettles(before, built, uuids);
    }
  }

  /** The state Secret is created before the first write if it is missing. */
  method EnsureState(v: Vault, needed: bool) returns (ok: bool)
    modifies v`w, v`log, v`faults
    ensures v.faults >= old(v.faults) && (v.faults == old(v.faults) <==> ok)
    ensures v.w == old(v.w).(records := v.w.records) && Grew(old(v.log), v.log, 4, ok)
    ensures Recorded(v.w) == old(Recorded(v.w)) && (ok && needed ==> v.w.records.Some?)
    ensures !needed ==> v.w == old(v.w) && v.log == old(v.log)
  {
    ok := true;
    if v.w.records.None? && needed {
      ok := v.CreateState();
    }
  }

  lemma {:induction false} BuiltKeys(codec: EngineConfigs.Codec, es: seq<EngineConfigEntry>,
                                     secrets: EngineConfigRuns.Snapshot)
    requires EngineConfigRuns.ResolveAll(codec, es, secrets).Some?
    ensures var built := EngineConfigRuns.ResolveAll(codec, es, secrets).value;
            EngineConfigs.DeclaredKeys(built) == KeysOf(es)
              && (DistinctEngines(es) ==> EngineConfigs.DistinctKeys(built))
  {
    var built := EngineConfigRuns.ResolveAll(codec, es, secrets).value;
    assert forall i :: 0 <= i < |es| ==>
             built[i].key == EngineConfigs.EntryKey(es[i]) && es[i] in es && built[i] in built;
    forall k
      ensures k in EngineConfigs.DeclaredKeys(built) <==> k in KeysOf(es)
    {
      if k in EngineConfigs.DeclaredKeys(built) {
        var i :| 0 <= i < |built| && built[i].key == k;
      }
      if k in KeysOf(es) {
        var i :| 0 <= i < |es| && EngineConfigs.EntryKey(es[i]) == k;
      }
    }
  }

  /** Dropping undeclared records, and the save if anything changed. */
  method SaveKept(v: Vault, records: EngineConfigs.Records, es: seq<EngineConfigs.Resolved>, written: bool)
    returns (saved: bool)
    modifies v`w, v`log, v`faults
    ensures v.faults >= old(v.faults) && (v.faults == old(v.faults) <==> saved)
    ensures v.w == old(v.w).(records := v.w.records) && Grew(old(v.log), v.log, 4, saved)
    ensures if written || exists k :: k in records && k !in EngineConfigs.DeclaredKeys(es)
            then saved ==> v.w.records == Some(EngineConfigs.DropUndeclared(records, es))
            else v.w == old(v.w) && v.log == old(v.log) && saved
  {
    var kept, dirty := EngineConfigStep.DropRecords(records, es, written);
    saved := true;
    if dirty {
      saved := v.SaveRecords(kept);
    }
  }

  /** What a pass with every pending write acknowledged saves. */
  function AllWritten(before: EngineConfigs.Records, es: seq<EngineConfigs.Resolved>, uuids: map<string, string>)
    : EngineConfigs.Records
    requires EngineConfigs.MountsKnown(es, uuids)
  {
    var pending := EngineConfigs.Pending(before, es, uuids);
    EngineConfigs.DropUndeclared(EngineConfigs.AfterWrites(before, pending, uuids, |pending|), es)
  }

  /** Then nothing is left to do. */
  lemma {:induction false} AllWrittenSettles(before: EngineConfigs.Records, es: seq<EngineConfigs.Resolved>,
                                             uuids: map<string, string>)
    requires EngineConfigs.MountsKnown(es, uuids)
    ensures EngineConfigs.DistinctKeys(es) ==> EngineConfigs.Pending(AllWritten(before, es, uuids), es, uuids) == []
    ensures AllWritten(before, es, uuids).Keys <= EngineConfigs.DeclaredKeys(es)
  {
    if EngineConfigs.DistinctKeys(es) {
      EngineConfigs.SavedPassLeavesTheRest(before, es, uuids, |EngineConfigs.Pending(before, es, uuids)|);
    }
  }

  lemma {:induction false} NothingWrittenSettles(before: EngineConfigs.Records, es: seq<EngineConfigs.Resolved>,
                                                 uuids: map<string, string>)
    requires EngineConfigs.MountsKnown(es, uuids) && EngineConfigs.Pending(before, es, uuids) == []
    ensures !(exists k :: k in before && k !in EngineConfigs.DeclaredKeys(es)) ==>
              AllWritten(before, es, uuids) == before
  {
  }

  method WritePending(v: Vault, before: EngineConfigs.Records, pending: seq<EngineConfigs.Resolved>,
                      uuids: map<string, string>)
    returns (records: EngineConfigs.Records, n: nat, written: bool)
    requires EngineConfigs.MountsKnown(pending, uuids)
    modifies v`log, v`faults
    ensures v.faults >= old(v.faults) && (v.faults == old(v.faults) <==> written)
    ensures Grew(old(v.log), v.log, 4, written)
    ensures n <= |pending| && (written <==> n == |pending|)
    ensures records == EngineConfigs.AfterWrites(before, pending, uuids, n)
    ensures pending == [] ==> v.log == old(v.log)
  {
    records, n, written := before, 0, true;
    while n < |pending|
      invariant n <= |pending| && v.faults == old(v.faults) && Grew(old(v.log), v.log, 4, true)
      invariant records == EngineConfigs.AfterWrites(before, pending, uuids, n)
      invariant n == 0 ==> v.log == old(v.log)
    {
      var e := pending[n];
      assert e in pending;
      written := v.WriteEngineConfig(e.key);
      if !written {
        return;
      }
      records, n := records[e.key := EngineConfigs.Record(e.digest, uuids[e.mount])], n + 1;
    }
  }

  // ----- 5. Roles -----

  /** The process remembers the role's key set and every declared key reads back as declared. */
  ghost predicate PathSettled(rd: Reader, keys: map<string, string>, roles: map<string, Body>, path: string,
                              data: Body)
  {
    && path in keys && keys[path] == RoleWrites.RoleKeySet(data.Keys)
    && path in roles && UpToDate(rd, roles[path], data)
  }

  ghost predicate RolesSettled(rd: Reader, keys: map<string, string>, stored: map<string, Body>, roles: seq<RoleEntry>)
  {
    forall r :: r in roles ==> PathSettled(rd, keys, stored, RolePath(r), r.data)
  }

  ghost function RolePaths(roles: seq<RoleEntry>): set<string> {
    set r | r in roles :: RolePath(r)
  }

  ghost predicate DistinctPaths(roles: seq<RoleEntry>) {
    forall i, j :: 0 <= i < j < |roles| ==> RolePath(roles[i]) != RolePath(roles[j])
  }

  /** Distinct roles without NaN, on a plugin that reads back what it was given. */
  ghost predicate RolesProper(rd: Reader, pl: RoleWrites.Plugin, roles: seq<RoleEntry>) {
    && DistinctPaths(roles) && RoleWrites.FaithfulReadBack(rd, pl)
    && forall r :: r in roles ==> RoleWrites.BodyNaNFree(rd, r.data)
  }

  /** desiredRoles: the declared names by place. */
  ghost function DesiredNames(roles: seq<RoleEntry>): map<(string, string), set<string>> {
    if roles == [] then map[]
    else AddName(DesiredNames(roles[..|roles| - 1]), Spot(roles[|roles| - 1]), roles[|roles| - 1].name)
  }

  function AddName(names: map<(string, string), set<string>>, spot: (string, string), name: string)
    : map<(string, string), set<string>>
  {
    names[spot := (if spot in names then names[spot] else {}) + {name}]
  }

  ghost predicate SamePlugin(before: World, after: World) {
    after == before.(plugin := before.plugin.(roles := after.plugin.roles))
  }

  /** One attempt to write for each role whose read failed, in order, and no other attempt. */
  ghost predicate OnlyRewrites(sent: seq<Attempt>, unread: seq<string>, paths: set<string>) {
    |sent| == |unread| && forall i :: 0 <= i < |sent| ==> sent[i].effect == WroteRole(unread[i]) && unread[i] in paths
  }

  /** What was added to a sequence. */
  function Since<T>(before: seq<T>, after: seq<T>): seq<T>
    requires before <= after
  {
    after[|before|..]
  }

  lemma {:induction false} SinceNothing<T>(a: seq<T>, b: seq<T>)
    requires a <= b
    ensures Since(a, b) == [] <==> a == b
  {
    assert b == a + Since(a, b);
  }

  lemma {:induction false} GrewSince(before: seq<Attempt>, after: seq<Attempt>, phase: int, ok: bool)
    requires before <= after
    requires forall a :: a in Since(before, after) ==> PhaseOf(a.effect) == phase && (ok ==> a.ok)
    ensures Grew(before, after, phase, ok)
  {
    forall i | |before| <= i < |after|
      ensures PhaseOf(after[i].effect) == phase && (ok ==> after[i].ok)
    {
      assert Since(before, after)[i - |before|] == after[i];
    }
  }

  lemma {:induction false} SinceThen<T>(a: seq<T>, b: seq<T>, c: seq<T>)
    requires a <= b <= c
    ensures Since(a, c) == Since(a, b) + Since(b, c)
  {
  }

  lemma {:induction false} RewritesThenRewrites(log: seq<Attempt>, log': seq<Attempt>, log'': seq<Attempt>,
                                                unread: seq<string>, unread': seq<string>, unread'': seq<string>,
                                                paths: set<string>)
    requires log <= log' <= log'' && unread <= unread' <= unread''
    requires OnlyRewrites(Since(log, log'), Since(unread, unread'), paths)
    requires OnlyRewrites(Since(log', log''), Since(unread', unread''), paths)
    ensures OnlyRewrites(Since(log, log''), Since(unread, unread''), paths)
  {
    SinceThen(log, log', log'');
    SinceThen(unread, unread', unread'');
  }

  /** Settled roles stay settled whatever fails: same memory, same paths. */
  ghost predicate StaySettled(rd: Reader, keys: map<string, string>, stored: map<string, Body>,
                              keys': map<string, string>, stored': map<string, Body>, roles: seq<RoleEntry>)
  {
    keys' == keys && stored'.Keys == stored.Keys && RolesSettled(rd, keys', stored', roles)
  }

  ghost predicate RoleSettled(rd: Reader, s: View, path: string, data: Body) {
    PathSettled(rd, s.keys, s.w.plugin.roles, path, data)
  }

  /** Nothing but the path's own key set and role changed. */
  ghost predicate OtherPathsKept(keys: map<string, string>, stored: map<string, Body>, keys': map<string, string>,
                                 stored': map<string, Body>, path: string)
  {
    && (keys' == keys || (path in keys' && keys' == keys[path := keys'[path]]))
    && (stored' == stored || (path in stored' && stored' == stored[path := stored'[path]]))
  }

  /** What one role's turn does: other roles stay, without an error it is settled, and if it was settled it stays so,
      and it is written iff its read failed. */
  ghost predicate RoleStep(rd: Reader, s: View, t: View, path: string, data: Body, ok: bool) {
    && s.faults <= t.faults && (t.faults == s.faults ==> ok && t.unread == s.unread)
    && SamePlugin(s.w, t.w) && Grew(s.log, t.log, 5, ok) && s.unread <= t.unread
    && OtherPathsKept(s.keys, s.w.plugin.roles, t.keys, t.w.plugin.roles, path) && (ok ==> path in t.w.plugin.roles)
    && (RoleWrites.FaithfulReadBack(rd, s.w.plugin) && RoleWrites.BodyNaNFree(rd, data) ==>
          && (ok ==> RoleSettled(rd, t, path, data))
          && (RoleSettled(rd, s, path, data) ==>
                && RoleSettled(rd, t, path, data) && t.keys == s.keys
                && OnlyRewrites(Since(s.log, t.log), Since(s.unread, t.unread), {path})
                && (t.unread == s.unread ==> ok && t.w == s.w)))
  }

  method UpsertRole(v: Vault, path: string, data: Body) returns (ok: bool)
    requires v.Valid()
    modifies v`w, v`log, v`faults, v`unread, v.client
    ensures RoleStep(v.rd, old(ViewOf(v)), ViewOf(v), path, data, ok)
  {
    ghost var s := ViewOf(v);
    ok := v.EnsureRole(path, data);
    StepIsARoleStep(v.rd, s, ViewOf(v), path, data, ok);
  }

  lemma {:induction false} StepIsARoleStep(rd: Reader, s: View, t: View, path: string, data: Body, ok: bool)
    requires s.faults <= t.faults && (t.faults == s.faults ==> ok && t.unread == s.unread)
    requires t.w == s.w.(plugin := t.w.plugin) && s.log <= t.log && s.unread <= t.unread
    requires RoleEnsured(rd, RoleWrites.Session(s.keys, s.w.plugin), RoleWrites.Session(t.keys, t.w.plugin), path,
                         data, ok,
                         Since(s.unread, t.unread), Since(s.log, t.log))
    ensures RoleStep(rd, s, t, path, data, ok)
  {
    var before, after := RoleWrites.Session(s.keys, s.w.plugin), RoleWrites.Session(t.keys, t.w.plugin);
    StepTouches(rd, before, after, path, data, ok, Since(s.unread, t.unread), Since(s.log, t.log));
    if RoleWrites.FaithfulReadBack(rd, s.w.plugin) && RoleWrites.BodyNaNFree(rd, data) {
      StepSettles(rd, before, after, path, data, ok, Since(s.unread, t.unread), Since(s.log, t.log));
    }
    GrewSince(s.log, t.log, 5, ok);
    SinceNothing(s.unread, t.unread);
    SinceNothing(s.log, t.log);
  }

  /** One EnsureRole call leaves the other paths alone. */
  lemma {:induction false} StepTouches(rd: Reader, s: RoleWrites.Session, s': RoleWrites.Session, path: string,
                                       data: Body, ok: bool, unread: seq<string>, sent: seq<Attempt>)
    requires RoleEnsured(rd, s, s', path, data, ok, unread, sent)
    ensures s'.plugin == s.plugin.(roles := s'.plugin.roles)
    ensures OtherPathsKept(s.roleKeys, s.plugin.roles, s'.roleKeys, s'.plugin.roles, path)
    ensures ok ==> path in s'.plugin.roles
    ensures sent == [] || sent == [Attempt(WroteRole(path), ok)]
  {
  }

  ghost predicate RewritesIfUnread(s: RoleWrites.Session, s': RoleWrites.Session, path: string, ok: bool,
                                   unread: seq<string>, sent: seq<Attempt>)
  {
    s'.roleKeys == s.roleKeys && if unread == [] then s' == s && ok && sent == [] else unread == [path] && |sent| == 1
  }

  lemma {:induction false} WrittenIsSettled(rd: Reader, s: RoleWrites.Session, pl: RoleWrites.Plugin, path: string,
                                            data: Body)
    requires RoleWrites.FaithfulReadBack(rd, pl) && RoleWrites.BodyNaNFree(rd, data)
    requires s.plugin == RoleWrites.WriteRole(pl, path, data)
    requires path in s.roleKeys && s.roleKeys[path] == RoleWrites.RoleKeySet(data.Keys)
    ensures PathSettled(rd, s.roleKeys, s.plugin.roles, path, data)
  {
    RoleWrites.WrittenReadsBack(rd, pl, path, data);
  }

  /** It settles its own path, and a settled one stays settled whatever fails, with a write iff the read failed. */
  lemma {:induction false} StepSettles(rd: Reader, s: RoleWrites.Session, s': RoleWrites.Session, path: string,
                                       data: Body, ok: bool, unread: seq<string>, sent: seq<Attempt>)
    requires RoleEnsured(rd, s, s', path, data, ok, unread, sent)
    requires RoleWrites.FaithfulReadBack(rd, s.plugin) && RoleWrites.BodyNaNFree(rd, data)
    ensures ok ==> PathSettled(rd, s'.roleKeys, s'.plugin.roles, path, data)
    ensures PathSettled(rd, s.roleKeys, s.plugin.roles, path, data) ==>
              PathSettled(rd, s'.roleKeys, s'.plugin.roles, path, data)
                && RewritesIfUnread(s, s', path, ok, unread, sent)
  {
    var readable, fate :| RoleEnsuredBy(rd, s, s', path, data, ok, unread, sent, readable, fate);
    var keys := RoleWrites.RoleKeySet(data.Keys);
    if PathSettled(rd, s.roleKeys, s.plugin.roles, path, data) {
      SettledStep(rd, s, path, data, keys, readable, fate);
    }
    DoneStep(rd, s, path, data, keys, readable, fate);
  }

  lemma {:induction false} DoneStep(rd: Reader, s: RoleWrites.Session, path: string, data: Body, keys: string,
                                    readable: bool, fate: Fate)
    requires RoleWrites.FaithfulReadBack(rd, s.plugin) && RoleWrites.BodyNaNFree(rd, data)
    requires keys == RoleWrites.RoleKeySet(data.Keys)
    ensures var step := RoleWrites.EnsureStep(rd, s, path, data, readable, fate);
            !step.1.Failed? ==> PathSettled(rd, step.0.roleKeys, step.0.plugin.roles, path, data)
  {
    var step := RoleWrites.EnsureStep(rd, s, path, data, readable, fate);
    if step.1.Wrote? {
      WrittenIsSettled(rd, step.0, s.plugin, path, data);
    }
  }

  lemma {:induction false} SettledStep(rd: Reader, s: RoleWrites.Session, path: string, data: Body, keys: string,
                                       readable: bool, fate: Fate)
    requires RoleWrites.FaithfulReadBack(rd, s.plugin) && RoleWrites.BodyNaNFree(rd, data)
    requires keys == RoleWrites.RoleKeySet(data.Keys) && PathSettled(rd, s.roleKeys, s.plugin.roles, path, data)
    ensures var step := RoleWrites.EnsureStep(rd, s, path, data, readable, fate);
            && step.0.roleKeys == s.roleKeys && PathSettled(rd, step.0.roleKeys, step.0.plugin.roles, path, data)
            && (if readable then step == (s, RoleWrites.Unchanged) else !step.1.Unchanged?)
  {
    var step := RoleWrites.EnsureStep(rd, s, path, data, readable, fate);
    assert s.roleKeys[path := keys] == s.roleKeys;
    if !readable && !fate.NotDone? {
      WrittenIsSettled(rd, step.0, s.plugin, path, data);
    }
  }

  lemma {:induction false} AllStaySettled(rd: Reader, keys: map<string, string>, stored: map<string, Body>,
                                          keys': map<string, string>, stored': map<string, Body>,
                                          roles: seq<RoleEntry>, n: nat)
    requires n < |roles| && DistinctPaths(roles) && RolesSettled(rd, keys, stored, roles)
    requires OtherPathsKept(keys, stored, keys', stored', RolePath(roles[n])) && keys' == keys
    requires PathSettled(rd, keys', stored', RolePath(roles[n]), roles[n].data)
    ensures StaySettled(rd, keys, stored, keys', stored', roles)
  {
    assert roles[n] in roles && PathSettled(rd, keys, stored, RolePath(roles[n]), roles[n].data);
    forall r | r in roles
      ensures PathSettled(rd, keys', stored', RolePath(r), r.data)
    {
      var i :| 0 <= i < |roles| && roles[i] == r;
      assert i != n ==> RolePath(roles[i]) != RolePath(roles[n]);
    }
  }

  lemma {:induction false} RoleSettledOneMore(rd: Reader, keys: map<string, string>, stored: map<string, Body>,
                                              keys': map<string, string>, stored': map<string, Body>,
                                              roles: seq<RoleEntry>, n: nat)
    requires n < |roles| && OtherPathsKept(keys, stored, keys', stored', RolePath(roles[n]))
    ensures DistinctPaths(roles) && RolesSettled(rd, keys, stored, roles[..n])
            && PathSettled(rd, keys', stored', RolePath(roles[n]), roles[n].data) ==>
              RolesSettled(rd, keys', stored', roles[..n + 1])
  {
    if DistinctPaths(roles) && RolesSettled(rd, keys, stored, roles[..n]) {
      forall r | r in roles[..n]
        ensures PathSettled(rd, keys', stored', RolePath(r), r.data)
      {
        var i :| 0 <= i < n && roles[i] == r;
        assert RolePath(roles[i]) != RolePath(roles[n]);
      }
      assert roles[..n + 1] == roles[..n] + [roles[n]];
    }
  }

  /** A pass over the roles: without an error all stand, and settled ones stay settled and are written iff their read
      failed.  `n` is how many were looked at. */
  ghost predicate RolesUpserted(rd: Reader, s: View, t: View, roles: seq<RoleEntry>, n: nat, ok: bool)
    requires n <= |roles|
  {
    && s.faults <= t.faults && (t.faults == s.faults ==> ok && t.unread == s.unread)
    && SamePlugin(s.w, t.w) && Grew(s.log, t.log, 5, ok) && s.unread <= t.unread
    && s.w.plugin.roles.Keys <= t.w.plugin.roles.Keys <= s.w.plugin.roles.Keys + RolePaths(roles)
    && (ok ==> RolePaths(roles[..n]) <= t.w.plugin.roles.Keys)
    && (RolesProper(rd, s.w.plugin, roles) ==>
          && (ok ==> RolesSettled(rd, t.keys, t.w.plugin.roles, roles[..n]))
          && (RolesSettled(rd, s.keys, s.w.plugin.roles, roles) ==> RewrittenOnly(rd, s, t, roles, ok)))
  }

  ghost predicate RewrittenOnly(rd: Reader, s: View, t: View, roles: seq<RoleEntry>, ok: bool)
    requires s.log <= t.log && s.unread <= t.unread
  {
    && StaySettled(rd, s.keys, s.w.plugin.roles, t.keys, t.w.plugin.roles, roles)
    && OnlyRewrites(Since(s.log, t.log), Since(s.unread, t.unread), RolePaths(roles))
    && (t.unread == s.unread ==> ok && t.w == s.w)
  }

  /** A pass over settled roles writes a role iff its read failed. */
  method UpsertRoles(v: Vault, roles: seq<RoleEntry>) returns (ok: bool, desired: map<(string, string), set<string>>)
    requires v.Valid()
    modifies v`w, v`log, v`faults, v`unread, v.client
    ensures RolesUpserted(v.rd, old(ViewOf(v)), ViewOf(v), roles, |roles|, ok)
    ensures ok ==> desired == DesiredNames(roles)
  {
    desired := map[];
    ghost var s := ViewOf(v);
    NoRolesYet(v.rd, s, roles);
    for n := 0 to |roles|
      invariant RolesUpserted(v.rd, s, ViewOf(v), roles, n, true)
      invariant desired == DesiredNames(roles[..n])
    {
      var r := roles[n];
      assert roles[..n + 1][..n] == roles[..n];
      var mount := Trim(r.mount);
      var path := mount + "/" + r.rolesPath + "/" + r.name;
      assert path == RolePath(r);
      ghost var t := ViewOf(v);
      ok := UpsertRole(v, path, r.data);
      UpsertedOneMore(v.rd, s, t, ViewOf(v), roles, n, ok);
      if !ok {
        return;
      }
      desired := AddName(desired, (mount, r.rolesPath), r.name);
    }
    assert roles[..|roles|] == roles;
    ok := true;
  }

  lemma {:induction false} NoRolesYet(rd: Reader, s: View, roles: seq<RoleEntry>)
    ensures RolesUpserted(rd, s, s, roles, 0, true)
  {
    assert Since(s.log, s.log) == [] && Since(s.unread, s.unread) == [];
  }

  lemma {:induction false} UpsertedOneMore(rd: Reader, s: View, t: View, u: View, roles: seq<RoleEntry>, n: nat,
                                           ok: bool)
    requires n < |roles| && RolesUpserted(rd, s, t, roles, n, true)
    requires RoleStep(rd, t, u, RolePath(roles[n]), roles[n].data, ok)
    ensures if ok then RolesUpserted(rd, s, u, roles, n + 1, true) else RolesUpserted(rd, s, u, roles, |roles|, false)
  {
    assert roles[n] in roles;
    UpsertedKeys(t.keys, t.w.plugin.roles, u.keys, u.w.plugin.roles, roles, n);
    if RolesProper(rd, s.w.plugin, roles) {
      ProperNext(rd, s, t, u, roles, n, ok);
      if RolesSettled(rd, s.keys, s.w.plugin.roles, roles) {
        QuietNext(rd, s, t, u, roles, n, ok);
      }
    }
  }

  lemma {:induction false} UpsertedKeys(keys: map<string, string>, stored: map<string, Body>,
                                        keys': map<string, string>, stored': map<string, Body>, roles: seq<RoleEntry>,
                                        n: nat)
    requires n < |roles| && OtherPathsKept(keys, stored, keys', stored', RolePath(roles[n]))
    ensures stored.Keys <= stored'.Keys <= stored.Keys + RolePaths(roles)
    ensures RolePaths(roles[..n + 1]) == RolePaths(roles[..n]) + {RolePath(roles[n])}
  {
    assert roles[..n + 1] == roles[..n] + [roles[n]];
    assert roles[n] in roles;
  }

  lemma {:induction false} ProperNext(rd: Reader, s: View, t: View, u: View, roles: seq<RoleEntry>, n: nat, ok: bool)
    requires n < |roles| && RolesProper(rd, s.w.plugin, roles) && SamePlugin(s.w, t.w)
    requires RolesSettled(rd, t.keys, t.w.plugin.roles, roles[..n])
             && RoleStep(rd, t, u, RolePath(roles[n]), roles[n].data, ok)
    ensures ok ==> RolesSettled(rd, u.keys, u.w.plugin.roles, roles[..n + 1])
  {
    assert roles[n] in roles && RoleWrites.BodyNaNFree(rd, roles[n].data)
           && RoleWrites.FaithfulReadBack(rd, t.w.plugin);
    RoleSettledOneMore(rd, t.keys, t.w.plugin.roles, u.keys, u.w.plugin.roles, roles, n);
  }

  lemma {:induction false} QuietNext(rd: Reader, s: View, t: View, u: View, roles: seq<RoleEntry>, n: nat, ok: bool)
    requires n < |roles| && RolesProper(rd, s.w.plugin, roles) && SamePlugin(s.w, t.w)
    requires s.log <= t.log <= u.log && s.unread <= t.unread <= u.unread
    requires RewrittenOnly(rd, s, t, roles, true) && RoleStep(rd, t, u, RolePath(roles[n]), roles[n].data, ok)
    ensures RewrittenOnly(rd, s, u, roles, ok)
  {
    assert roles[n] in roles && RoleWrites.BodyNaNFree(rd, roles[n].data)
           && RoleWrites.FaithfulReadBack(rd, t.w.plugin);
    assert RoleSettled(rd, t, RolePath(roles[n]), roles[n].data);
    AllStaySettled(rd, t.keys, t.w.plugin.roles, u.keys, u.w.plugin.roles, roles, n);
    RewritesOfOne(Since(t.log, u.log), Since(t.unread, u.unread), RolePath(roles[n]), RolePaths(roles));
    RewritesThenRewrites(s.log, t.log, u.log, s.unread, t.unread, u.unread, RolePaths(roles));
  }

  lemma {:induction false} RewritesOfOne(sent: seq<Attempt>, unread: seq<string>, path: string, paths: set<string>)
    requires OnlyRewrites(sent, unread, {path}) && path in paths
    ensures OnlyRewrites(sent, unread, paths)
  {
  }
}
