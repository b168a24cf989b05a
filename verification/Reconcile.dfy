/** What a whole pass guarantees: Reconcile of internal/reconcile/reconcile.go, run to the end or stopped by any
failure, once or again and again. */
module Reconcile {
  import opened RoleValues
  import opened Strings
  import opened Specs
  import opened Mounts
  import opened Cluster
  import opened Phases
  import opened Pruning
  import opened Leftovers
  import EngineConfigs
  import EngineConfigRuns
  import RoleWrites

  // ----- The order of a pass -----

  /** The attempts since `from` go by phase, and a phase is left only when all it tried was acknowledged. */
  ghost predicate InOrder(log: seq<Attempt>, from: nat) {
    from <= |log| && forall i, j :: from <= i < j < |log| ==>
      && PhaseOf(log[i].effect) <= PhaseOf(log[j].effect)
      && (PhaseOf(log[i].effect) < PhaseOf(log[j].effect) ==> log[i].ok)
  }

  /** The log grew in order by attempts of the phases `lo` to `hi`, all acknowledged if they went well. */
  ghost predicate Went(before: seq<Attempt>, after: seq<Attempt>, lo: int, hi: int, ok: bool) {
    && before <= after && InOrder(after, |before|)
    && forall i :: |before| <= i < |after| ==> lo <= PhaseOf(after[i].effect) <= hi && (ok ==> after[i].ok)
  }

  lemma {:induction false} OnePhase(before: seq<Attempt>, after: seq<Attempt>, phase: int, ok: bool)
    requires Grew(before, after, phase, ok)
    ensures Went(before, after, phase, phase, ok)
  {
  }

  lemma {:induction false} ThenPhases(a: seq<Attempt>, b: seq<Attempt>, c: seq<Attempt>, lo: int, mid: int, hi: int,
                                      ok: bool)
    requires lo <= mid < hi && Went(a, b, lo, mid, true) && Went(b, c, mid + 1, hi, ok)
    ensures Went(a, c, lo, hi, ok)
  {
    assert forall i :: 0 <= i < |b| ==> c[i] == b[i];
  }

  /** A pass that stopped is one whose later phases did nothing. */
  lemma {:induction false} NoMorePhases(before: seq<Attempt>, after: seq<Attempt>, lo: int, mid: int, hi: int, ok: bool)
    requires lo <= mid <= hi && Went(before, after, lo, mid, ok)
    ensures Went(before, after, lo, hi, ok) && Went(before, after, lo, hi, false)
  {
  }

  lemma {:induction false} OtherPhasesReloadNothing(before: seq<Attempt>, after: seq<Attempt>, lo: int, hi: int,
                                                    ok: bool, from: nat)
    requires Went(before, after, lo, hi, ok) && (hi < 3 || 3 < lo) && from <= |before|
    ensures Reloads(after, from) == Reloads(before, from)
    decreases |after|
  {
    if after != before {
      var prefix := after[..|after| - 1];
      assert Went(before, prefix, lo, hi, ok);
      OtherPhasesReloadNothing(before, prefix, lo, hi, ok, from);
    }
  }

  // ----- What a pass may destroy -----

  /** The mounts that carry the marker once the declared ones are ensured: those that did, and the missing ones. */
  ghost function OwnedOnce(d: Desired, mounts: map<MountId, Live>): set<MountId> {
    ManagedMounts(mounts).Keys + (IdsOf(d.mounts) - mounts.Keys)
  }

  /** The places the role prune of a pass looks at. */
  ghost function SpotsOf(d: Desired, mounts: map<MountId, Live>): set<(string, string)> {
    SpotsOn(PathsOf(OwnedOnce(d, mounts)), DesiredNames(d.roles))
  }

  ghost predicate Allowed(d: Desired, mounts: map<MountId, Live>, e: Effect) {
    PhaseOf(e) >= 6 ==>
      && d.pruneMode != PRUNE_NEVER
      && if e.DeletedRole? then d.pruneMode == PRUNE_FULL && Prunable(SpotsOf(d, mounts), DesiredNames(d.roles), e.path)
         else PruneEffect(ScopeOf(d, mounts), e)
  }

  /** Everything tried since `from` was allowed, and what the mount prune tried was tried in turn. */
  ghost predicate AllAllowed(d: Desired, mounts: map<MountId, Live>, log: seq<Attempt>, from: nat) {
    forall i :: from <= i < |log| ==>
      && Allowed(d, mounts, log[i].effect)
      && (PhaseOf(log[i].effect) == 7 ==> Earned(ScopeOf(d, mounts), log, from, i))
  }

  /** Role names are single segments, and two declared places with one path are one place. */
  ghost predicate RolesApart(roles: seq<RoleEntry>) {
    && (forall r :: r in roles ==> r.name != "" && '/' !in r.name)
    && forall r, s :: r in roles && s in roles && SpotPath(Spot(r)) == SpotPath(Spot(s)) ==> Spot(r) == Spot(s)
  }

  /** No managed mount's plugin shares a file name with another declared plugin. */
  ghost predicate FilesApart(d: Desired, mounts: map<MountId, Live>) {
    forall id, c :: id in ManagedMounts(mounts) && c in d.catalog ==>
      FileName(mounts[id].plugin, mounts[id].version) == FileName(c.name, c.version) ==> mounts[id].plugin == c.name
  }

  /** `name` is declared at a place. */
  ghost predicate DeclaredAt(roles: seq<RoleEntry>, spot: (string, string), name: string) {
    exists r :: r in roles && Spot(r) == spot && r.name == name
  }

  lemma {:induction false} DesiredNamesAre(roles: seq<RoleEntry>, spot: (string, string))
    ensures spot in DesiredNames(roles) <==> exists r :: r in roles && Spot(r) == spot
    ensures spot in DesiredNames(roles) ==>
              forall name :: name in DesiredNames(roles)[spot] <==> DeclaredAt(roles, spot, name)
  {
    if roles != [] {
      var n := |roles| - 1;
      DesiredNamesAre(roles[..n], spot);
      assert roles == roles[..n] + [roles[n]];
      forall name
        ensures DeclaredAt(roles, spot, name) <==>
                DeclaredAt(roles[..n], spot, name) || (spot == Spot(roles[n]) && name == roles[n].name)
      {
      }
    }
  }

  lemma {:induction false} LastSegment(a: string, b: string, s: string, t: string)
    requires a + "/" + s == b + "/" + t && '/' !in s && '/' !in t
    ensures a == b && s == t
  {
    var x := a + "/" + s;
    assert x[|a|] == '/' && x[|b|] == '/';
    assert forall i :: |a| < i < |x| ==> x[i] == s[i - |a| - 1];
    assert forall i :: |b| < i < |x| ==> x[i] == t[i - |b| - 1];
    assert |a| == |b|;
    assert a == x[..|a|] && b == x[..|b|];
    assert s == x[|a| + 1..] && t == x[|b| + 1..];
  }

  /** A role's path is an entry of a place only as its name at a place of the same path: a folder ends in a slash. */
  lemma {:induction false} EntryOfARole(r: RoleEntry, spot: (string, string), name: string)
    requires r.name != "" && '/' !in r.name && IsEntry(name)
    ensures RolePath(r) == SpotPath(spot) + "/" + name <==> SpotPath(spot) == SpotPath(Spot(r)) && name == r.name
  {
    var path, other := RolePath(r), SpotPath(spot) + "/" + name;
    if '/' in name {
      assert path[|path| - 1] == r.name[|r.name| - 1] != '/';
      assert other[|other| - 1] == name[|name| - 1] == '/';
    } else if path == other {
      LastSegment(SpotPath(Spot(r)), SpotPath(spot), r.name, name);
    }
  }

  /** Another declared place with the same path, on a mount that carries the marker, does not declare the role. */
  ghost predicate Shadowed(d: Desired, mounts: map<MountId, Live>, r: RoleEntry) {
    exists s :: && s in d.roles && SpotPath(Spot(s)) == SpotPath(Spot(r)) && !DeclaredAt(d.roles, Spot(s), r.name)
                && Spot(s).0 in PathsOf(OwnedOnce(d, mounts))
  }

  lemma {:induction false} PrunableAt(d: Desired, mounts: map<MountId, Live>, r: RoleEntry, spot: (string, string),
                                      name: string)
    requires r.name != "" && '/' !in r.name && IsEntry(name)
    requires spot in SpotsOf(d, mounts) && spot in DesiredNames(d.roles) && name !in DesiredNames(d.roles)[spot]
    requires RolePath(r) == SpotPath(spot) + "/" + name
    ensures Shadowed(d, mounts, r)
  {
    EntryOfARole(r, spot, name);
    DesiredNamesAre(d.roles, spot);
    var s :| s in d.roles && Spot(s) == spot;
  }

  /** The role prune may delete a declared role iff it is shadowed: nested mounts. */
  lemma {:induction false} DeclaredRolePrunableIff(d: Desired, mounts: map<MountId, Live>, r: RoleEntry)
    requires r in d.roles && r.name != "" && '/' !in r.name
    ensures Prunable(SpotsOf(d, mounts), DesiredNames(d.roles), RolePath(r)) <==> Shadowed(d, mounts, r)
  {
    var spots, desired := SpotsOf(d, mounts), DesiredNames(d.roles);
    if spot, name :| spot in spots && spot in desired && RolePath(r) == SpotPath(spot) + "/" + name && IsEntry(name)
                     && name !in desired[spot] {
      PrunableAt(d, mounts, r, spot, name);
    }
    if s :| s in d.roles && SpotPath(Spot(s)) == SpotPath(Spot(r)) && !DeclaredAt(d.roles, Spot(s), r.name)
            && Spot(s).0 in PathsOf(OwnedOnce(d, mounts)) {
      ShadowPrunes(d, mounts, r, s);
    }
  }

  lemma {:induction false} ShadowPrunes(d: Desired, mounts: map<MountId, Live>, r: RoleEntry, s: RoleEntry)
    requires '/' !in r.name && s in d.roles && SpotPath(Spot(s)) == SpotPath(Spot(r))
    requires !DeclaredAt(d.roles, Spot(s), r.name) && Spot(s).0 in PathsOf(OwnedOnce(d, mounts))
    ensures Prunable(SpotsOf(d, mounts), DesiredNames(d.roles), RolePath(r))
  {
    var spot, desired := Spot(s), DesiredNames(d.roles);
    DesiredNamesAre(d.roles, spot);
    assert spot in desired && r.name !in desired[spot];
    assert spot in SpotsOf(d, mounts) && RolePath(r) == SpotPath(spot) + "/" + r.name && IsEntry(r.name);
  }

  /** Where places and paths correspond, no declared role is prunable. */
  lemma {:induction false} DeclaredRoleStays(d: Desired, mounts: map<MountId, Live>, r: RoleEntry)
    requires r in d.roles && RolesApart(d.roles)
    ensures !Prunable(SpotsOf(d, mounts), DesiredNames(d.roles), RolePath(r))
  {
    DeclaredRolePrunableIff(d, mounts, r);
  }

  /** Whatever a pass is allowed to destroy is not declared: no declared mount, no registration of a declared
      version, no declared binary, no declared role; roles and files go in full mode only, and nothing in never. */
  lemma {:induction false} DeclaredIsSpared(d: Desired, mounts: map<MountId, Live>, e: Effect)
    requires Allowed(d, mounts, e)
    ensures e.Unmounted? ==> && e.mountId in mounts && IsManaged(mounts[e.mountId].options)
                             && forall m :: m in d.mounts ==> IdOf(m) != e.mountId
    ensures e.Deregistered? ==> && (forall c :: c in d.catalog ==> CatalogIdOf(c) != e.id)
                                && (forall m :: m in d.mounts ==>
                                      (m.plugin, TrimV(m.version)) != (e.id.name, e.id.version))
    ensures e.RemovedFile? && FilesApart(d, mounts) ==>
              forall c :: c in d.catalog ==> FileName(c.name, c.version) != e.file
    ensures e.DeletedRole? && RolesApart(d.roles) ==> forall r :: r in d.roles ==> RolePath(r) != e.path
    ensures e.RemovedFile? || e.DeletedRole? ==> d.pruneMode == PRUNE_FULL
    ensures PhaseOf(e) >= 6 ==> d.pruneMode != PRUNE_NEVER
  {
    var s := ScopeOf(d, mounts);
    match e
    case Deregistered(p) =>
      var id :| StaleVersion(s, id) && p == StaleRegistration(s, id);
      RegistrationUndesired(d, s, id);
    case RemovedFile(_, file) =>
      var id :| StaleVersion(s, id) && file == StaleFile(s, id);
      if FilesApart(d, mounts) {
        FileUndesired(d, mounts, id);
      }
    case DeletedRole(path) =>
      if RolesApart(d.roles) {
        forall r | r in d.roles
          ensures RolePath(r) != path
        {
          DeclaredRoleStays(d, mounts, r);
        }
      }
    case _ =>
  }

  lemma {:induction false} RegistrationUndesired(d: Desired, s: PruneScope, id: MountId)
    requires StaleVersion(s, id) && s.versions == DesiredVersions(d)
    ensures forall c :: c in d.catalog ==> CatalogIdOf(c) != StaleRegistration(s, id)
    ensures forall m :: m in d.mounts ==>
              (m.plugin, TrimV(m.version)) != (StaleRegistration(s, id).name, StaleRegistration(s, id).version)
  {
    var live := s.managed[id];
    forall c | c in d.catalog
      ensures CatalogIdOf(c) != StaleRegistration(s, id)
    {
      assert NvKey(c.name, c.version) in s.versions;
    }
    forall m | m in d.mounts
      ensures (m.plugin, TrimV(m.version)) != (live.plugin, TrimV(live.version))
    {
      assert NvKey(m.plugin, m.version) in s.versions;
    }
  }

  lemma {:induction false} FileUndesired(d: Desired, mounts: map<MountId, Live>, id: MountId)
    requires StaleVersion(ScopeOf(d, mounts), id) && FilesApart(d, mounts)
    ensures forall c :: c in d.catalog ==> FileName(c.name, c.version) != StaleFile(ScopeOf(d, mounts), id)
  {
    var live := mounts[id];
    forall c | c in d.catalog
      ensures FileName(c.name, c.version) != FileName(live.plugin, live.version)
    {
      assert NvKey(c.name, c.version) in DesiredVersions(d);
      assert live.plugin != c.name || live.version != c.version;
      if live.plugin == c.name {
        VersionsOfOnePlugin(c.name, c.version, live.version);
      }
    }
  }

  /** Two plugins share a file name iff one name extends the other by a dash and what the other's version starts
      with. */
  lemma {:induction false} FileNamesClashIff(a: string, v: string, b: string, w: string)
    requires |a| < |b|
    ensures FileName(a, v) == FileName(b, w) <==> a + "-" <= b && v == b[|a| + 1..] + "-" + w
  {
    var x, y := FileName(a, v), FileName(b, w);
    assert x[..|a| + 1] == a + "-" && x[|a| + 1..] == v;
    assert y[..|a| + 1] == b[..|a| + 1] && y[|a| + 1..] == b[|a| + 1..] + "-" + w;
    assert x == x[..|a| + 1] + x[|a| + 1..] && y == y[..|a| + 1] + y[|a| + 1..];
  }

  /** So versions without a dash never clash. */
  lemma {:induction false} PlainVersionsAreApart(a: string, v: string, b: string, w: string)
    requires '-' !in v && '-' !in w
    ensures FileName(a, v) == FileName(b, w) <==> a == b && v == w
  {
    if |a| < |b| {
      FileNamesClashIff(a, v, b, w);
      assert a + "-" <= b ==> (b[|a| + 1..] + "-" + w)[|b| - |a| - 1] == '-';
    } else if |b| < |a| {
      FileNamesClashIff(b, w, a, v);
      assert b + "-" <= a ==> (a[|b| + 1..] + "-" + v)[|a| - |b| - 1] == '-';
    } else if FileName(a, v) == FileName(b, w) {
      assert a == FileName(a, v)[..|a|] && b == FileName(b, w)[..|b|];
      VersionsOfOnePlugin(a, v, w);
    }
  }

  lemma {:induction false} VersionsOfOnePlugin(name: string, a: string, b: string)
    ensures FileName(name, a) == FileName(name, b) ==> a == b
  {
    assert FileName(name, a)[|name| + 1..] == a && FileName(name, b)[|name| + 1..] == b;
  }

  // ----- What a pass builds -----

  ghost predicate VaultStands(w: World, d: Desired) {
    w.pods != [] && CatalogSettled(w, d.catalog) && MountsSettled(w.mounts, d.mounts)
  }

  ghost predicate ContentsStand(codec: EngineConfigs.Codec, rd: Reader, s: View, d: Desired) {
    EnginesSettled(codec, s.w, d.engines) && RolesSettled(rd, s.keys, s.w.plugin.roles, d.roles)
  }

  /** Everything declared stands. */
  ghost predicate Standing(codec: EngineConfigs.Codec, rd: Reader, s: View, d: Desired) {
    VaultStands(s.w, d) && ContentsStand(codec, rd, s, d)
  }

  /** In the modes that prune, nothing is left that the prune would remove. */
  ghost predicate NothingToPrune(w: World, d: Desired) {
    && (d.pruneMode == PRUNE_FULL ==> RolesQuiet(w, DesiredNames(d.roles)))
    && (d.pruneMode != PRUNE_NEVER ==> ManagedMounts(w.mounts).Keys <= IdsOf(d.mounts))
  }

  /** Everything declared stands and nothing undeclared is left. */
  ghost predicate Converged(codec: EngineConfigs.Codec, rd: Reader, s: View, d: Desired) {
    Standing(codec, rd, s, d) && NoStaleRecords(s.w, d.engines) && NothingToPrune(s.w, d)
  }

  /** No role, live or declared, lies deeper below a declared place than one segment. */
  ghost predicate PlacesFlat(d: Desired, paths: set<string>) {
    forall r, p :: r in d.roles && p in paths + RolePaths(d.roles) ==> !Deeper(p, SpotPath(Spot(r)))
  }

  /** A spec that declares everything once, with roles a plugin can read back. */
  ghost predicate Distinct(pl: RoleWrites.Plugin, rd: Reader, d: Desired) {
    && DistinctCatalog(d.catalog) && DistinctMounts(d.mounts)
    && DistinctEngines(d.engines) && RolesProper(rd, pl, d.roles)
  }

  /** Every engine config is on a declared secret mount. */
  ghost predicate EnginesOnDeclaredMounts(d: Desired) {
    forall e :: e in d.engines ==> MountId(MountType.Secret, e.mount) in IdsOf(d.mounts)
  }

  /** And whose parts no prune can take for one another. */
  ghost predicate Unambiguous(d: Desired, mounts: map<MountId, Live>) {
    EnginesOnDeclaredMounts(d) && RolesApart(d.roles) && FilesApart(d, mounts)
  }

  ghost predicate Proper(w: World, rd: Reader, d: Desired) {
    && Distinct(w.plugin, rd, d) && Unambiguous(d, w.mounts)
    && (d.pruneMode == PRUNE_FULL ==> PlacesFlat(d, w.plugin.roles.Keys))
  }

  /** The mount of an engine config has a UUID once the declared mounts are ensured. */
  ghost predicate WillHaveUuid(d: Desired, mounts: map<MountId, Live>, path: string) {
    var id := MountId(MountType.Secret, path);
    if id in mounts then mounts[id].uuid != "" else id in IdsOf(d.mounts)
  }

  /** Nothing but a failing request can stop a pass. */
  ghost predicate Feasible(codec: EngineConfigs.Codec, w: World, d: Desired) {
    && w.pods != [] && AllAvailable(w, d.catalog) && Mountable(d.mounts)
    && var built := EngineConfigRuns.ResolveAll(codec, d.engines, w.secrets);
       built.Some? && forall e :: e in built.value ==> WillHaveUuid(d, w.mounts, e.mount)
  }

  lemma {:induction false} CatalogFrame(a: World, b: World, catalog: seq<CatalogEntry>)
    requires (a.pods, a.artifacts, a.files, a.catalog) == (b.pods, b.artifacts, b.files, b.catalog)
    requires CatalogSettled(a, catalog)
    ensures CatalogSettled(b, catalog)
  {
    forall i | 0 <= i < |catalog|
      ensures EntrySettled(b, catalog[i])
    {
      assert EntrySettled(a, catalog[i]);
    }
  }

  lemma {:induction false} UuidOf(mounts: map<MountId, Live>, path: string)
    ensures path in Uuids(mounts) <==> MountId(MountType.Secret, path) in mounts
    ensures path in Uuids(mounts) ==> Uuids(mounts)[path] == mounts[MountId(MountType.Secret, path)].uuid
  {
    var id := MountId(MountType.Secret, path);
    assert id in mounts ==> id.path in Uuids(mounts);
  }

  // ----- Building: phases 1 to 5 -----

  /** What a pass reloads: the plugins newly registered, and those of mounts enabled or moved. */
  ghost function Stirred(w: World, d: Desired): set<string> {
    UnregisteredNames(w, d.catalog) + MovedPlugins(w.mounts, d.mounts)
  }

  ghost predicate VaultBuilt(s: View, t: View, d: Desired, ok: bool) {
    && s.faults <= t.faults
    && (t.faults == s.faults ==> (ok <==> s.w.pods != [] && AllAvailable(s.w, d.catalog) && Mountable(d.mounts)))
    && t.w == s.w.(files := t.w.files, catalog := t.w.catalog, mounts := t.w.mounts) && NoneLost(s.w, t.w)
    && Went(s.log, t.log, 1, 3, ok)
    && OthersKept(s.w.mounts, t.w.mounts, IdsOf(d.mounts)) && UuidsKept(s.w.mounts, t.w.mounts)
    && RunDeclared(s.w.mounts, t.w.mounts, d.mounts)
    && (ok ==> ManagedMounts(t.w.mounts).Keys == OwnedOnce(d, s.w.mounts))
    && (ok && DistinctCatalog(d.catalog) && DistinctMounts(d.mounts) ==>
          VaultStands(t.w, d) && EachOnce(Reloads(t.log, |s.log|), Stirred(s.w, d)))
    && (VaultStands(s.w, d) ==> Phases.Idle(s, t))
  }

  /** Phases 1 to 3: binaries, registrations, mounts, reloads. */
  method BuildVault(v: Vault, d: Desired) returns (ok: bool, ids: set<MountId>)
    requires v.Valid()
    modifies v`w, v`log, v`faults
    ensures VaultBuilt(old(ViewOf(v)), ViewOf(v), d, ok) && (ok ==> ids == IdsOf(d.mounts))
  {
    ghost var s := ViewOf(v);
    ids := {};
    var listed := v.Pick();
    if !listed.Done? || v.w.pods == [] {
      NothingBuilt(s, ViewOf(v), d);
      return false, ids;
    }
    var reload;
    ok, reload := EnsureCatalog(v, d.catalog);
    ghost var t, registered := ViewOf(v), reload;
    if !ok {
      CatalogStopped(s, t, d, reload);
      return;
    }
    ghost var moved;
    ok, reload, ids, moved := EnsureMounts(v, d.mounts, reload);
    ghost var u := ViewOf(v);
    if !ok {
      MountsStopped(s, t, u, d, registered, moved);
      return;
    }
    NothingReloaded(s, t, u, d, registered, moved);
    ok := ReloadAll(v, reload, |s.log|);
    VaultDone(s, t, u, ViewOf(v), d, registered, moved, ok);
  }

  lemma {:induction false} NothingBuilt(s: View, t: View, d: Desired)
    requires t == s.(faults := t.faults) && s.faults <= t.faults && (t.faults == s.faults ==> s.w.pods == [])
    ensures VaultBuilt(s, t, d, false)
  {
  }

  lemma {:induction false} CatalogStopped(s: View, t: View, d: Desired, reload: set<string>)
    requires s.w.pods != [] && CatalogEnsured(s, t, d.catalog, |d.catalog|, false, reload)
    ensures VaultBuilt(s, t, d, false)
  {
    assert d.catalog[..|d.catalog|] == d.catalog;
    OnePhase(s.log, t.log, 1, false);
    NoMorePhases(s.log, t.log, 1, 1, 3, false);
  }

  lemma {:induction false} MountsStopped(s: View, t: View, u: View, d: Desired, registered: set<string>,
                                         moved: set<string>)
    requires s.w.pods != [] && CatalogEnsured(s, t, d.catalog, |d.catalog|, true, registered)
    requires MountsEnsured(t, u, d.mounts, |d.mounts|, false, moved)
    ensures VaultBuilt(s, u, d, false)
  {
    assert d.catalog[..|d.catalog|] == d.catalog && d.mounts[..|d.mounts|] == d.mounts;
    OnePhase(s.log, t.log, 1, true);
    OnePhase(t.log, u.log, 2, false);
    ThenPhases(s.log, t.log, u.log, 1, 1, 2, false);
    NoMorePhases(s.log, u.log, 1, 2, 3, false);
  }

  lemma {:induction false} NothingReloaded(s: View, t: View, u: View, d: Desired, registered: set<string>,
                                           moved: set<string>)
    requires CatalogEnsured(s, t, d.catalog, |d.catalog|, true, registered)
    requires MountsEnsured(t, u, d.mounts, |d.mounts|, true, moved)
    ensures Went(s.log, u.log, 1, 2, true) && Reloads(u.log, |s.log|) == []
  {
    OnePhase(s.log, t.log, 1, true);
    OnePhase(t.log, u.log, 2, true);
    ThenPhases(s.log, t.log, u.log, 1, 1, 2, true);
    OtherPhasesReloadNothing(s.log, u.log, 1, 2, true, |s.log|);
  }

  lemma {:induction false} VaultSettled(s: View, t: View, u: View, v: View, d: Desired, registered: set<string>,
                                        moved: set<string>, ok: bool)
    requires s.w.pods != [] && CatalogEnsured(s, t, d.catalog, |d.catalog|, true, registered)
    requires MountsEnsured(t, u, d.mounts, |d.mounts|, true, moved) && v.w == u.w
    requires registered + moved == {} ==> ok && v.log == u.log
    ensures DistinctCatalog(d.catalog) && DistinctMounts(d.mounts) ==>
              VaultStands(v.w, d) && registered + moved == Stirred(s.w, d)
    ensures VaultStands(s.w, d) ==> Phases.Idle(s, v)
  {
    assert d.catalog[..|d.catalog|] == d.catalog && d.mounts[..|d.mounts|] == d.mounts;
    if DistinctCatalog(d.catalog) {
      CatalogFrame(t.w, v.w, d.catalog);
    }
  }

  lemma {:induction false} VaultDone(s: View, t: View, u: View, v: View, d: Desired, registered: set<string>,
                                     moved: set<string>, ok: bool)
    requires s.w.pods != [] && CatalogEnsured(s, t, d.catalog, |d.catalog|, true, registered)
    requires MountsEnsured(t, u, d.mounts, |d.mounts|, true, moved) && Went(s.log, u.log, 1, 2, true)
    requires v.w == u.w && u.faults <= v.faults && (v.faults == u.faults <==> ok) && Grew(u.log, v.log, 3, ok)
    requires registered + moved == {} ==> ok && v.log == u.log
    requires ok ==> EachOnce(Reloads(v.log, |s.log|), registered + moved)
    ensures VaultBuilt(s, v, d, ok)
  {
    assert d.catalog[..|d.catalog|] == d.catalog && d.mounts[..|d.mounts|] == d.mounts;
    OnePhase(u.log, v.log, 3, ok);
    ThenPhases(s.log, u.log, v.log, 1, 2, 3, ok);
    VaultSettled(s, t, u, v, d, registered, moved, ok);
  }

  ghost predicate EnginesDone(codec: EngineConfigs.Codec, s: View, t: View, es: seq<EngineConfigEntry>, ok: bool) {
    && s.faults <= t.faults && (t.faults == s.faults ==> (ok <==> EnginesReady(codec, s.w, es)))
    && t == s.(w := s.w.(records := t.w.records), log := t.log, faults := t.faults) && Grew(s.log, t.log, 4, ok)
    && (ok && DistinctEngines(es) ==> EnginesSettled(codec, t.w, es))
    && (ok && (es != [] || t.faults == s.faults) ==> NoStaleRecords(t.w, es))
    && (EnginesSettled(codec, s.w, es) && NoStaleRecords(s.w, es) ==> Phases.Idle(s, t))
  }

  ghost predicate ContentsBuilt(codec: EngineConfigs.Codec, rd: Reader, s: View, t: View, d: Desired, ok: bool) {
    && s.faults <= t.faults
    && (t.faults == s.faults ==> (ok <==> EnginesReady(codec, s.w, d.engines)) && t.unread == s.unread)
    && t.w == s.w.(records := t.w.records, plugin := s.w.plugin.(roles := t.w.plugin.roles))
    && Went(s.log, t.log, 4, 5, ok) && s.unread <= t.unread
    && s.w.plugin.roles.Keys <= t.w.plugin.roles.Keys <= s.w.plugin.roles.Keys + RolePaths(d.roles)
    && (ok ==> RolePaths(d.roles) <= t.w.plugin.roles.Keys)
    && (ok && DistinctEngines(d.engines) && RolesProper(rd, s.w.plugin, d.roles) ==> ContentsStand(codec, rd, t, d))
    && (ok && (d.engines != [] || t.faults == s.faults) ==> NoStaleRecords(t.w, d.engines))
    && (RolesProper(rd, s.w.plugin, d.roles) && ContentsStand(codec, rd, s, d) && NoStaleRecords(s.w, d.engines) ==>
          RolesAlone(codec, rd, s, t, d))
  }

  /** Nothing changed but bodies of declared roles, each written because its read failed, and all of them stand. */
  ghost predicate RolesAlone(codec: EngineConfigs.Codec, rd: Reader, s: View, t: View, d: Desired)
    requires s.log <= t.log && s.unread <= t.unread
  {
    && SamePlugin(s.w, t.w)
    && StaySettled(rd, s.keys, s.w.plugin.roles, t.keys, t.w.plugin.roles, d.roles)
    && OnlyRewrites(Since(s.log, t.log), Since(s.unread, t.unread), RolePaths(d.roles))
    && (t.unread == s.unread ==> t.w == s.w)
  }

  /** Phases 4 and 5: engine configs and roles. */
  method BuildContents(v: Vault, d: Desired) returns (ok: bool, desired: map<(string, string), set<string>>)
    requires v.Valid()
    modifies v`w, v`log, v`faults, v`unread, v.client
    ensures ContentsBuilt(v.codec, v.rd, old(ViewOf(v)), ViewOf(v), d, ok) && (ok ==> desired == DesiredNames(d.roles))
  {
    ghost var s := ViewOf(v);
    desired := map[];
    ok := ReconcileEngineConfigs(v, d.engines);
    ghost var t := ViewOf(v);
    if !ok {
      EnginesStopped(v.codec, v.rd, s, t, d);
      return;
    }
    ok, desired := UpsertRoles(v, d.roles);
    ContentsDone(v.codec, v.rd, s, t, ViewOf(v), d, ok);
  }

  lemma {:induction false} EnginesStopped(codec: EngineConfigs.Codec, rd: Reader, s: View, t: View, d: Desired)
    requires EnginesDone(codec, s, t, d.engines, false)
    ensures ContentsBuilt(codec, rd, s, t, d, false)
  {
    OnePhase(s.log, t.log, 4, false);
    NoMorePhases(s.log, t.log, 4, 4, 5, false);
    assert Since(s.unread, t.unread) == [] && (t.log == s.log ==> Since(s.log, t.log) == []);
  }

  lemma {:induction false} ContentsDone(codec: EngineConfigs.Codec, rd: Reader, s: View, t: View, u: View, d: Desired,
                                        ok: bool)
    requires EnginesDone(codec, s, t, d.engines, true) && RolesUpserted(rd, t, u, d.roles, |d.roles|, ok)
    ensures ContentsBuilt(codec, rd, s, u, d, ok)
  {
    assert d.roles[..|d.roles|] == d.roles;
    OnePhase(s.log, t.log, 4, true);
    OnePhase(t.log, u.log, 5, ok);
    ThenPhases(s.log, t.log, u.log, 4, 4, 5, ok);
  }

  /** What phases 1 to 5 leave for the prune to know: other mounts as they were, the marker where it belongs, every
      mount with its plugin, and nothing lost. */
  ghost predicate BuiltFrame(s: View, t: View, d: Desired, ok: bool) {
    && t.w.pods == s.w.pods && NoneLost(s.w, t.w)
    && t.w.plugin == s.w.plugin.(roles := t.w.plugin.roles)
    && OthersKept(s.w.mounts, t.w.mounts, IdsOf(d.mounts)) && UuidsKept(s.w.mounts, t.w.mounts)
    && RunDeclared(s.w.mounts, t.w.mounts, d.mounts)
    && (ok ==> ManagedMounts(t.w.mounts).Keys == OwnedOnce(d, s.w.mounts))
    && s.w.plugin.roles.Keys <= t.w.plugin.roles.Keys <= s.w.plugin.roles.Keys + RolePaths(d.roles)
    && (ok ==> RolePaths(d.roles) <= t.w.plugin.roles.Keys)
  }

  /** Phases 1 to 5.  Without a failing request they succeed iff the spec is feasible; success means that everything
      declared stands and the reloads were those owed; what stood already is left alone, but for roles whose read
      failed. */
  ghost predicate Built(codec: EngineConfigs.Codec, rd: Reader, s: View, t: View, d: Desired, ok: bool) {
    && s.faults <= t.faults && (t.faults == s.faults ==> (ok <==> Feasible(codec, s.w, d)) && t.unread == s.unread)
    && Went(s.log, t.log, 1, 5, ok) && s.unread <= t.unread && BuiltFrame(s, t, d, ok)
    && (ok && Distinct(s.w.plugin, rd, d) ==>
          Standing(codec, rd, t, d) && EachOnce(Reloads(t.log, |s.log|), Stirred(s.w, d)))
    && (ok && (d.engines != [] || t.faults == s.faults) ==> NoStaleRecords(t.w, d.engines))
    && (Distinct(s.w.plugin, rd, d) && Standing(codec, rd, s, d) && NoStaleRecords(s.w, d.engines) ==>
          RolesAlone(codec, rd, s, t, d))
  }

  /** Phases 1 to 5: everything that only builds. */
  method Build(v: Vault, d: Desired) returns (ok: bool, ids: set<MountId>, desired: map<(string, string), set<string>>)
    requires v.Valid()
    modifies v`w, v`log, v`faults, v`unread, v.client
    ensures Built(v.codec, v.rd, old(ViewOf(v)), ViewOf(v), d, ok)
    ensures ok ==> ids == IdsOf(d.mounts) && desired == DesiredNames(d.roles)
  {
    ghost var s := ViewOf(v);
    desired := map[];
    ok, ids := BuildVault(v, d);
    ghost var t := ViewOf(v);
    if !ok {
      VaultStopped(v.codec, v.rd, s, t, d);
      return;
    }
    ok, desired := BuildContents(v, d);
    BuiltInTwo(v.codec, v.rd, s, t, ViewOf(v), d, ok);
  }

  lemma {:induction false} VaultStopped(codec: EngineConfigs.Codec, rd: Reader, s: View, t: View, d: Desired)
    requires VaultBuilt(s, t, d, false) && t.keys == s.keys && t.unread == s.unread
    ensures Built(codec, rd, s, t, d, false)
  {
    NoMorePhases(s.log, t.log, 1, 3, 5, false);
    assert Since(s.unread, t.unread) == [] && (t.log == s.log ==> Since(s.log, t.log) == []);
  }

  /** With the declared mounts ensured, the engine configs are ready iff their mounts were to have UUIDs. */
  lemma {:induction false} ReadyOnceEnsured(codec: EngineConfigs.Codec, s: World, t: World, d: Desired)
    requires OthersKept(s.mounts, t.mounts, IdsOf(d.mounts)) && UuidsKept(s.mounts, t.mounts) && t.secrets == s.secrets
    requires ManagedMounts(t.mounts).Keys == OwnedOnce(d, s.mounts)
    ensures s.pods != [] && AllAvailable(s, d.catalog) && Mountable(d.mounts) ==>
              (EnginesReady(codec, t, d.engines) <==> Feasible(codec, s, d))
  {
    var built := EngineConfigRuns.ResolveAll(codec, d.engines, s.secrets);
    if built.Some? {
      forall e | e in built.value
        ensures e.mount in Uuids(t.mounts) && Uuids(t.mounts)[e.mount] != "" <==> WillHaveUuid(d, s.mounts, e.mount)
      {
        var id := MountId(MountType.Secret, e.mount);
        UuidOf(t.mounts, e.mount);
        if id !in s.mounts {
          assert id in IdsOf(d.mounts) ==> id in ManagedMounts(t.mounts).Keys;
          if id !in IdsOf(d.mounts) {
            KeptElsewhere(s.mounts, t.mounts, IdsOf(d.mounts), id);
          }
        }
      }
    }
  }

  lemma {:induction false} BuiltInTwo(codec: EngineConfigs.Codec, rd: Reader, s: View, t: View, u: View, d: Desired,
                                      ok: bool)
    requires VaultBuilt(s, t, d, true) && t.keys == s.keys && t.unread == s.unread
    requires ContentsBuilt(codec, rd, t, u, d, ok)
    ensures Built(codec, rd, s, u, d, ok)
  {
    ThenPhases(s.log, t.log, u.log, 1, 3, 5, ok);
    OtherPhasesReloadNothing(t.log, u.log, 4, 5, ok, |s.log|);
    ReadyOnceEnsured(codec, s.w, t.w, d);
    if DistinctCatalog(d.catalog) && DistinctMounts(d.mounts) {
      CatalogFrame(t.w, u.w, d.catalog);
    }
  }

  // ----- Pruning: phases 6 and 7 -----

  /** The managed mounts that are not declared are the same before and after the declared ones are ensured. */
  lemma {:induction false} SameScope(d: Desired, before: map<MountId, Live>, after: map<MountId, Live>, id: MountId)
    requires OthersKept(before, after, IdsOf(d.mounts))
    ensures var s, t := ScopeOf(d, before), ScopeOf(d, after);
            && (Stale(s, id) <==> Stale(t, id)) && (Stale(s, id) ==> s.managed[id] == t.managed[id])
            && (StaleVersion(s, id) <==> StaleVersion(t, id))
  {
    if id !in IdsOf(d.mounts) {
      KeptElsewhere(before, after, IdsOf(d.mounts), id);
    }
  }

  lemma {:induction false} SameEffects(d: Desired, before: map<MountId, Live>, after: map<MountId, Live>, e: Effect)
    requires OthersKept(before, after, IdsOf(d.mounts)) && PruneEffect(ScopeOf(d, after), e)
    ensures PruneEffect(ScopeOf(d, before), e)
  {
    var s, t := ScopeOf(d, before), ScopeOf(d, after);
    forall id
      ensures (Stale(s, id) <==> Stale(t, id)) && (Stale(s, id) ==> s.managed[id] == t.managed[id])
      ensures StaleVersion(s, id) <==> StaleVersion(t, id)
    {
      SameScope(d, before, after, id);
    }
    match e
    case Deregistered(p) =>
      var id :| StaleVersion(t, id) && p == StaleRegistration(t, id);
      assert StaleVersion(s, id) && p == StaleRegistration(s, id);
    case RemovedFile(_, file) =>
      var id :| StaleVersion(t, id) && file == StaleFile(t, id);
      assert StaleVersion(s, id) && file == StaleFile(s, id);
    case _ =>
  }

  lemma {:induction false} SameEarned(d: Desired, before: map<MountId, Live>, after: map<MountId, Live>,
                                      log: seq<Attempt>, from: nat, from': nat, i: nat)
    requires OthersKept(before, after, IdsOf(d.mounts)) && from <= from' <= i < |log|
    requires Earned(ScopeOf(d, after), log, from', i)
    ensures Earned(ScopeOf(d, before), log, from, i)
  {
    var s, t := ScopeOf(d, before), ScopeOf(d, after);
    forall id
      ensures (Stale(s, id) <==> Stale(t, id)) && (Stale(s, id) ==> s.managed[id] == t.managed[id])
      ensures StaleVersion(s, id) <==> StaleVersion(t, id)
    {
      SameScope(d, before, after, id);
    }
    match log[i].effect
    case Deregistered(p) =>
      var j, id :| from' <= j < i && log[j] == Attempt(Unmounted(id), true) && StaleVersion(t, id)
        && p == StaleRegistration(t, id);
      assert StaleVersion(s, id) && p == StaleRegistration(s, id);
    case RemovedFile(_, file) =>
      var j, id :| from' <= j < i && StaleVersion(t, id)
        && log[j] == Attempt(Deregistered(StaleRegistration(t, id)), true)
                   && file == StaleFile(t, id);
      assert StaleVersion(s, id) && log[j] == Attempt(Deregistered(StaleRegistration(s, id)), true)
             && file == StaleFile(s, id);
    case _ =>
  }

  lemma {:induction false} EarnedIsAllowed(s: PruneScope, log: seq<Attempt>, from: nat, i: nat)
    requires i < |log| && Earned(s, log, from, i)
    ensures PruneEffect(s, log[i].effect) && PhaseOf(log[i].effect) == 7
  {
    match log[i].effect
    case Deregistered(p) =>
      var j, id :| from <= j < i && log[j] == Attempt(Unmounted(id), true) && StaleVersion(s, id)
        && p == StaleRegistration(s, id);
    case RemovedFile(_, file) =>
      var j, id :| from <= j < i && StaleVersion(s, id)
        && log[j] == Attempt(Deregistered(StaleRegistration(s, id)), true)
                   && file == StaleFile(s, id);
    case _ =>
  }

  /** What the prune did, seen from the start of the pass. */
  lemma {:induction false} ScopeFromStart(d: Desired, start: map<MountId, Live>, before: World, after: World)
    requires OthersKept(start, before.mounts, IdsOf(d.mounts))
             && OnlyStaleGone(ScopeOf(d, before.mounts), before, after)
    ensures OnlyStaleGone(ScopeOf(d, start), before, after)
  {
    forall e | PruneEffect(ScopeOf(d, before.mounts), e)
      ensures PruneEffect(ScopeOf(d, start), e)
    {
      SameEffects(d, start, before.mounts, e);
    }
    forall id | id in before.mounts && id !in after.mounts
      ensures Stale(ScopeOf(d, start), id)
    {
      SameScope(d, start, before.mounts, id);
    }
  }

  lemma {:induction false} PruneIsAllowed(d: Desired, start: map<MountId, Live>, now: map<MountId, Live>,
                                          a: seq<Attempt>, b: seq<Attempt>, c: seq<Attempt>)
    requires a <= b <= c && OthersKept(start, now, IdsOf(d.mounts)) && ManagedMounts(now).Keys == OwnedOnce(d, start)
    requires DeletesPrunable(b, |a|, SpotsOf(d, start), DesiredNames(d.roles)) && (d.pruneMode != PRUNE_FULL ==> b == a)
    requires PruneLog(ScopeOf(d, now), c, |b|) && (d.pruneMode == PRUNE_NEVER ==> c == b)
    ensures AllAllowed(d, start, c, |a|)
  {
    forall i | |a| <= i < |c|
      ensures Allowed(d, start, c[i].effect) && (PhaseOf(c[i].effect) == 7 ==> Earned(ScopeOf(d, start), c, |a|, i))
    {
      if i < |b| {
        assert c[i] == b[i];
      } else {
        SameEarned(d, start, now, c, |a|, |b|, i);
        EarnedIsAllowed(ScopeOf(d, start), c, |a|, i);
      }
    }
  }

  /** Mounts that are neither declared nor marked are as they were. */
  ghost predicate ForeignKept(d: Desired, before: map<MountId, Live>, after: map<MountId, Live>) {
    forall id :: id in before && id !in IdsOf(d.mounts) && !IsManaged(before[id].options) ==>
      id in after && after[id] == before[id]
  }

  lemma {:induction false} OthersAreKept(d: Desired, before: map<MountId, Live>, after: map<MountId, Live>)
    requires OthersKept(before, after, IdsOf(d.mounts))
    ensures ForeignKept(d, before, after)
  {
    forall id | id in before && id !in IdsOf(d.mounts)
      ensures id in after && after[id] == before[id]
    {
      KeptElsewhere(before, after, IdsOf(d.mounts), id);
    }
  }

  lemma {:induction false} PruneKeepsForeign(d: Desired, start: map<MountId, Live>, before: World, after: World)
    requires OthersKept(start, before.mounts, IdsOf(d.mounts)) && OnlyStaleGone(ScopeOf(d, start), before, after)
    ensures ForeignKept(d, start, after.mounts)
  {
    OthersAreKept(d, start, before.mounts);
    forall id | id in start && !IsManaged(start[id].options)
      ensures !Stale(ScopeOf(d, start), id)
    {
    }
  }

  // ----- Pruning leaves standing what stands -----

  lemma {:induction false} RolesStand(rd: Reader, keys: map<string, string>, before: map<string, Body>,
                                      after: map<string, Body>, d: Desired, start: map<MountId, Live>)
    requires RolesApart(d.roles) && OnlyPrunableGone(before, after, SpotsOf(d, start), DesiredNames(d.roles))
    requires RolesSettled(rd, keys, before, d.roles)
    ensures RolesSettled(rd, keys, after, d.roles)
  {
    forall r | r in d.roles
      ensures PathSettled(rd, keys, after, RolePath(r), r.data)
    {
      DeclaredRoleStays(d, start, r);
      assert RolePath(r) in before;
    }
  }

  lemma {:induction false} RegistrationStands(d: Desired, start: map<MountId, Live>, before: Catalog, after: Catalog,
                                              c: CatalogEntry)
    requires c in d.catalog && CatalogIdOf(c) in before
    requires forall p :: p in after ==> p in before && after[p] == before[p]
    requires forall p :: p in before && p !in after ==> PruneEffect(ScopeOf(d, start), Deregistered(p))
    ensures CatalogIdOf(c) in after && after[CatalogIdOf(c)] == before[CatalogIdOf(c)]
  {
    var s, p := ScopeOf(d, start), CatalogIdOf(c);
    forall id | StaleVersion(s, id)
      ensures StaleRegistration(s, id) != p
    {
      RegistrationUndesired(d, s, id);
    }
  }

  lemma {:induction false} FilesStand(d: Desired, start: map<MountId, Live>, before: Files, after: Files,
                                      c: CatalogEntry)
    requires c in d.catalog && FilesApart(d, start)
    requires forall f :: f in after ==> f in before && after[f] == before[f]
    requires forall f :: f in before && f !in after ==> PruneEffect(ScopeOf(d, start), RemovedFile(f.0, f.1))
    ensures forall pods, sha256 :: FilesSettled(before, pods, FileName(c.name, c.version), sha256) ==>
              FilesSettled(after, pods, FileName(c.name, c.version), sha256)
  {
    var s := ScopeOf(d, start);
    forall f | f in before && f !in after
      ensures f.1 != FileName(c.name, c.version)
    {
      var id :| StaleVersion(s, id) && f.1 == StaleFile(s, id);
      FileUndesired(d, start, id);
    }
  }

  lemma {:induction false} CatalogStands(d: Desired, start: map<MountId, Live>, before: World, after: World)
    requires FilesApart(d, start) && OnlyStaleGone(ScopeOf(d, start), before, after)
             && CatalogSettled(before, d.catalog)
    ensures CatalogSettled(after, d.catalog)
  {
    forall i | 0 <= i < |d.catalog|
      ensures EntrySettled(after, d.catalog[i])
    {
      assert EntrySettled(before, d.catalog[i]);
      RegistrationStands(d, start, before.catalog, after.catalog, d.catalog[i]);
      FilesStand(d, start, before.files, after.files, d.catalog[i]);
    }
  }

  /** The prune never reaches a declared mount. */
  lemma {:induction false} DeclaredMountsStand(d: Desired, start: map<MountId, Live>, before: World, after: World,
                                               id: MountId)
    requires OnlyStaleGone(ScopeOf(d, start), before, after) && id in IdsOf(d.mounts)
    ensures id in after.mounts <==> id in before.mounts
    ensures id in before.mounts ==> after.mounts[id] == before.mounts[id]
  {
  }

  lemma {:induction false} MountsStand(d: Desired, start: map<MountId, Live>, before: World, after: World)
    requires OnlyStaleGone(ScopeOf(d, start), before, after) && MountsSettled(before.mounts, d.mounts)
    ensures MountsSettled(after.mounts, d.mounts)
  {
    forall m | m in d.mounts
      ensures MountSettled(after.mounts, m)
    {
      assert MountSettled(before.mounts, m);
      DeclaredMountsStand(d, start, before, after, IdOf(m));
    }
  }

  lemma {:induction false} EnginesStand(codec: EngineConfigs.Codec, d: Desired, start: map<MountId, Live>,
                                        before: World, after: World)
    requires OnlyStaleGone(ScopeOf(d, start), before, after) && EnginesOnDeclaredMounts(d)
             && EnginesSettled(codec, before, d.engines)
    ensures EnginesSettled(codec, after, d.engines)
  {
    var built := EngineConfigRuns.ResolveAll(codec, d.engines, before.secrets).value;
    forall e | e in built
      ensures e.mount in Uuids(after.mounts) && Uuids(after.mounts)[e.mount] == Uuids(before.mounts)[e.mount]
    {
      var i :| 0 <= i < |built| && built[i] == e;
      assert d.engines[i] in d.engines && e.mount == d.engines[i].mount;
      DeclaredMountsStand(d, start, before, after, MountId(MountType.Secret, e.mount));
      UuidOf(before.mounts, e.mount);
      UuidOf(after.mounts, e.mount);
    }
    EngineConfigs.NothingPendingIffAllRecorded(Recorded(before), built, Uuids(before.mounts));
    EngineConfigs.NothingPendingIffAllRecorded(Recorded(after), built, Uuids(after.mounts));
  }

  /** With nothing ambiguous, whatever declared stood before a prune stands after it. */
  lemma {:induction false} PruningLeavesStanding(codec: EngineConfigs.Codec, rd: Reader, d: Desired,
                                                 start: map<MountId, Live>, t: View, b: World, u: View)
    requires SamePlugin(t.w, b) && u.keys == t.keys && OnlyStaleGone(ScopeOf(d, start), b, u.w)
    requires OnlyPrunableGone(t.w.plugin.roles, b.plugin.roles, SpotsOf(d, start), DesiredNames(d.roles))
    ensures Standing(codec, rd, t, d) && Unambiguous(d, start) ==> Standing(codec, rd, u, d)
  {
    if Standing(codec, rd, t, d) && Unambiguous(d, start) {
      RolesStand(rd, t.keys, t.w.plugin.roles, b.plugin.roles, d, start);
      CatalogFrame(t.w, b, d.catalog);
      CatalogStands(d, start, b, u.w);
      MountsStand(d, start, b, u.w);
      EnginesStand(codec, d, start, b, u.w);
    }
  }

  // ----- What a successful prune achieves -----

  /** Of the declared roles exactly the shadowed ones are gone. */
  ghost predicate OnlyShadowedGone(d: Desired, start: map<MountId, Live>, roles: map<string, Body>) {
    forall r :: r in d.roles && r.name != "" && '/' !in r.name ==> (RolePath(r) !in roles <==> Shadowed(d, start, r))
  }

  /** No undeclared role is left where the prune looked, and no undeclared mount. */
  ghost predicate PrunedNow(w: World, d: Desired) {
    && (d.pruneMode == PRUNE_FULL ==> RolesPruned(w, DesiredNames(d.roles)))
    && (d.pruneMode != PRUNE_NEVER ==> ManagedMounts(w.mounts).Keys <= IdsOf(d.mounts))
  }

  /** After a successful full pass the file placed for a plugin version is gone iff a mount of that plugin was dropped
      that ran it under exactly that spelling: "1.0.0" placed, "v1.0.0" reported leaves the binary on the pods. */
  lemma {:induction false} PlacedFileIsRemovedIff(d: Desired, start: map<MountId, Live>, before: World, after: World,
                                                  pod: string, name: string, version: string)
    requires FilesGone(d, start, before, after) && d.pruneMode == "full"
    requires pod in before.pods && (pod, name + "-" + version) in before.files
    requires forall id :: id in start && Marked(start[id].options) ==>
               start[id].plugin + "-" + start[id].version == name + "-" + version ==> start[id].plugin == name
    ensures (pod, name + "-" + version) !in after.files <==>
            exists id :: Dropped(d, start, id) && start[id].plugin == name && start[id].version == version
  {
    var f := (pod, name + "-" + version);
    assert f.0 in before.pods && f in before.files;
    if id :| DroppedFile(d, start, id, f.1) {
      VersionsOfOnePlugin(name, version, start[id].version);
    }
    if id :| Dropped(d, start, id) && start[id].plugin == name && start[id].version == version {
      assert DroppedFile(d, start, id, f.1);
    }
  }

  lemma {:induction false} GoneFromStart(d: Desired, start: map<MountId, Live>, before: World, after: World)
    requires OthersKept(start, before.mounts, IdsOf(d.mounts)) && OnlyStaleGone(ScopeOf(d, start), before, after)
    requires if d.pruneMode == PRUNE_NEVER then after == before
             else forall id :: Stale(ScopeOf(d, before.mounts), id) ==> AllGone(ScopeOf(d, before.mounts), after, id)
    ensures DroppedAreGone(d, start, before, after)
  {
    var s, t := ScopeOf(d, start), ScopeOf(d, before.mounts);
    forall id | Stale(s, id)
      ensures d.pruneMode != PRUNE_NEVER ==> AllGone(s, after, id)
    {
      SameScope(d, start, before.mounts, id);
      assert d.pruneMode != PRUNE_NEVER ==> AllGone(t, after, id);
    }
    StaleAreGone(d, start, before, after);
  }

  // ----- The role prune in terms of what is declared -----

  lemma {:induction false} SpotIff(d: Desired, mounts: map<MountId, Live>, spot: (string, string))
    ensures spot in SpotsOf(d, mounts) <==>
              && OwnedPath(d, mounts, spot.0)
              && exists r :: r in d.roles && IsTrimOf(r.mount, spot.0) && r.rolesPath == spot.1
    ensures spot in SpotsOf(d, mounts) ==>
              && spot in DesiredNames(d.roles)
              && forall name :: name in DesiredNames(d.roles)[spot] <==> NamedAt(d.roles, spot.0, spot.1, name)
  {
    DesiredNamesAre(d.roles, spot);
    OwnedPathIff(d, mounts, spot.0);
    forall r: RoleEntry
      ensures Spot(r) == spot <==> IsTrimOf(r.mount, spot.0) && r.rolesPath == spot.1
    {
      TrimSlashesIsTheTrim(r.mount, spot.0);
    }
  }

  lemma {:induction false} OwnedPathIff(d: Desired, mounts: map<MountId, Live>, path: string)
    ensures path in PathsOf(OwnedOnce(d, mounts)) <==> OwnedPath(d, mounts, path)
  {
    forall id: MountId
      ensures id in OwnedOnce(d, mounts) <==> if id in mounts then Marked(mounts[id].options) else PlaceDeclared(d, id)
    {
      DeclaredIdIff(d, id);
      if id in mounts {
        MarkedIff(mounts[id].options);
      }
    }
  }

  /** The role prune may delete exactly the entries of declared places on owned mounts that those places do not
      declare. */
  lemma {:induction false} PrunableIff(d: Desired, mounts: map<MountId, Live>, path: string)
    ensures Prunable(SpotsOf(d, mounts), DesiredNames(d.roles), path) <==>
              exists name :: ListEntry(name) && UndeclaredRole(d, mounts, path, name)
  {
    var spots, desired := SpotsOf(d, mounts), DesiredNames(d.roles);
    if spot, name :| spot in spots && spot in desired && path == SpotPath(spot) + "/" + name && IsEntry(name)
                     && name !in desired[spot] {
      SpotIff(d, mounts, spot);
      assert ListEntry(name) && UndeclaredRole(d, mounts, path, name);
    }
    if name :| ListEntry(name) && UndeclaredRole(d, mounts, path, name) {
      var spot := UndeclaredSpot(d, mounts, path, name);
      assert IsEntry(name);
    }
  }

  lemma {:induction false} UndeclaredSpot(d: Desired, mounts: map<MountId, Live>, path: string, name: string)
    returns (spot: (string, string))
    requires UndeclaredRole(d, mounts, path, name)
    ensures spot in SpotsOf(d, mounts) && spot in DesiredNames(d.roles) && name !in DesiredNames(d.roles)[spot]
    ensures path == SpotPath(spot) + "/" + name
  {
    var r, mount :| r in d.roles && IsTrimOf(r.mount, mount) && OwnedPath(d, mounts, mount)
      && path == mount + "/" + r.rolesPath + "/" + name && !NamedAt(d.roles, mount, r.rolesPath, name);
    spot := (mount, r.rolesPath);
    SpotIff(d, mounts, spot);
  }

  /** What the role prune leaves, in terms of what is declared. */
  lemma {:induction false} RolesAreGone(d: Desired, start: map<MountId, Live>, before: map<string, Body>,
                                        after: map<string, Body>)
    requires OnlyPrunableGone(before, after, SpotsOf(d, start), DesiredNames(d.roles))
    requires if d.pruneMode == PRUNE_FULL
             then forall spot :: spot in SpotsOf(d, start) ==> SpotPruned(after, DesiredNames(d.roles), spot)
             else after == before
    ensures UndeclaredAreGone(d, start, before.Keys, after)
  {
    forall path | path in before.Keys
      ensures path !in after ==>
                d.pruneMode == "full" && exists name :: ListEntry(name) && UndeclaredRole(d, start, path, name)
    {
      PrunableIff(d, start, path);
    }
    forall path, name | path in before.Keys && d.pruneMode == "full" && '/' !in name
                        && UndeclaredRole(d, start, path, name)
      ensures path !in after
    {
      var spot := UndeclaredSpot(d, start, path, name);
      assert SpotPruned(after, DesiredNames(d.roles), spot);
      assert path[|SpotPath(spot)| + 1..] == name && SpotPath(spot) + "/" <= path;
      assert path in after ==> name in NamesUnder(after, SpotPath(spot));
    }
  }

  lemma {:induction false} ShadowedAreGone(d: Desired, start: map<MountId, Live>, before: map<string, Body>,
                                           after: World)
    requires OnlyPrunableGone(before, after.plugin.roles, SpotsOf(d, start), DesiredNames(d.roles))
    requires RolePaths(d.roles) <= before.Keys
    requires forall spot :: spot in SpotsOf(d, start) ==> SpotPruned(after.plugin.roles, DesiredNames(d.roles), spot)
    ensures OnlyShadowedGone(d, start, after.plugin.roles)
  {
    forall r | r in d.roles && r.name != "" && '/' !in r.name
      ensures RolePath(r) !in after.plugin.roles <==> Shadowed(d, start, r)
    {
      assert RolePath(r) in RolePaths(d.roles);
      DeclaredRolePrunableIff(d, start, r);
      if Shadowed(d, start, r) {
        ShadowedIsGone(d, start, after.plugin.roles, r);
      }
    }
  }

  lemma {:induction false} ShadowedIsGone(d: Desired, start: map<MountId, Live>, after: map<string, Body>, r: RoleEntry)
    requires '/' !in r.name && Shadowed(d, start, r)
    requires forall spot :: spot in SpotsOf(d, start) ==> SpotPruned(after, DesiredNames(d.roles), spot)
    ensures RolePath(r) !in after
  {
    var s :| s in d.roles && SpotPath(Spot(s)) == SpotPath(Spot(r)) && !DeclaredAt(d.roles, Spot(s), r.name)
             && Spot(s).0 in PathsOf(OwnedOnce(d, start));
    var spot, path := Spot(s), RolePath(r);
    DesiredNamesAre(d.roles, spot);
    assert spot in SpotsOf(d, start) && SpotPruned(after, DesiredNames(d.roles), spot);
    assert path[|SpotPath(spot)| + 1..] == r.name && SpotPath(spot) + "/" <= path;
    assert path in after ==> r.name in NamesUnder(after, SpotPath(spot));
  }

  /** A successful prune: of what there was before, and of these roles, exactly what is undeclared is gone. */
  ghost predicate PruneComplete(start: map<MountId, Live>, before: World, after: World, d: Desired, paths: set<string>)
  {
    && PrunedNow(after, d) && DroppedAreGone(d, start, before, after)
    && UndeclaredAreGone(d, start, paths, after.plugin.roles)
    && (d.pruneMode == PRUNE_FULL ==> OnlyShadowedGone(d, start, after.plugin.roles))
  }

  /** What a prune leaves alone: the records, the key sets, and the mounts that are still there; no role is new. */
  ghost predicate PruneFrame(t: View, u: View) {
    && u.keys == t.keys && u.unread == t.unread && u.w.records == t.w.records
    && u.w.plugin == t.w.plugin.(roles := u.w.plugin.roles) && u.w.plugin.roles.Keys <= t.w.plugin.roles.Keys
    && forall id :: id in u.w.mounts ==> id in t.w.mounts && u.w.mounts[id] == t.w.mounts[id]
  }

  /** Phases 6 and 7, seen from a pass that began with the mounts `start`. */
  ghost predicate Pruned(codec: EngineConfigs.Codec, rd: Reader, start: map<MountId, Live>, t: View, u: View,
                         d: Desired, ok: bool)
  {
    && t.faults <= u.faults && (u.faults == t.faults ==> ok) && PruneFrame(t, u)
    && Went(t.log, u.log, 6, 7, ok) && AllAllowed(d, start, u.log, |t.log|)
    && ForeignKept(d, start, u.w.mounts)
    && (Standing(codec, rd, t, d) && Unambiguous(d, start) ==> Standing(codec, rd, u, d))
    && (ok ==> PruneComplete(start, t.w, u.w, d, t.w.plugin.roles.Keys))
    && (NothingToPrune(t.w, d) ==> Phases.Idle(t, u))
  }

  method Prune(v: Vault, d: Desired, ids: set<MountId>, desired: map<(string, string), set<string>>,
               ghost start: map<MountId, Live>)
    returns (ok: bool)
    requires ids == IdsOf(d.mounts) && desired == DesiredNames(d.roles) && RolePaths(d.roles) <= v.w.plugin.roles.Keys
    requires OthersKept(start, v.w.mounts, ids) && ManagedMounts(v.w.mounts).Keys == OwnedOnce(d, start)
    modifies v`w, v`log, v`faults
    ensures Pruned(v.codec, v.rd, start, old(ViewOf(v)), ViewOf(v), d, ok)
  {
    ghost var t := ViewOf(v);
    ok := PruneRoles(v, d.pruneMode, desired);
    ghost var b := ViewOf(v);
    if !ok {
      RolesStopped(v.codec, v.rd, start, t, b, d);
      return;
    }
    ok := PruneMounts(v, d.pruneMode, ids, DesiredVersions(d));
    PrunedInTwo(v.codec, v.rd, start, t, b, ViewOf(v), d, ok);
  }

  /** What PruneRoles and PruneMounts say of their views. */
  ghost predicate RolesDone(start: map<MountId, Live>, t: View, b: View, d: Desired, ok: bool) {
    && t.faults <= b.faults && (b.faults == t.faults ==> ok)
    && b.keys == t.keys && b.unread == t.unread && SamePlugin(t.w, b.w) && Grew(t.log, b.log, 6, ok)
    && OnlyPrunableGone(t.w.plugin.roles, b.w.plugin.roles, SpotsOf(d, start), DesiredNames(d.roles))
    && DeletesPrunable(b.log, |t.log|, SpotsOf(d, start), DesiredNames(d.roles))
    && (d.pruneMode != PRUNE_FULL ==> b.w == t.w && b.log == t.log)
    && (ok && d.pruneMode == PRUNE_FULL ==> RolesPruned(b.w, DesiredNames(d.roles)))
    && (RolesQuiet(t.w, DesiredNames(d.roles)) ==> Phases.Idle(t, b))
  }

  ghost predicate MountsDone(b: View, u: View, d: Desired, ok: bool) {
    var s := ScopeOf(d, b.w.mounts);
    && b.faults <= u.faults && (u.faults == b.faults ==> ok)
    && u.keys == b.keys && u.unread == b.unread && Grew(b.log, u.log, 7, ok)
    && OnlyStaleGone(s, b.w, u.w) && PruneLog(s, u.log, |b.log|)
    && (ok && d.pruneMode != PRUNE_NEVER ==> forall id :: Stale(s, id) ==> AllGone(s, u.w, id))
    && (d.pruneMode == PRUNE_NEVER ==> u.w == b.w && u.log == b.log)
    && (ok && d.pruneMode != PRUNE_NEVER ==> ManagedMounts(u.w.mounts).Keys <= IdsOf(d.mounts))
    && (ManagedMounts(b.w.mounts).Keys <= IdsOf(d.mounts) ==> Phases.Idle(b, u))
  }

  lemma {:induction false} RolesStopped(codec: EngineConfigs.Codec, rd: Reader, start: map<MountId, Live>, t: View,
                                        b: View, d: Desired)
    requires RolesDone(start, t, b, d, false) && OthersKept(start, t.w.mounts, IdsOf(d.mounts))
    requires ManagedMounts(t.w.mounts).Keys == OwnedOnce(d, start)
    ensures Pruned(codec, rd, start, t, b, d, false)
  {
    OnePhase(t.log, b.log, 6, false);
    NoMorePhases(t.log, b.log, 6, 6, 7, false);
    PruneIsAllowed(d, start, t.w.mounts, t.log, b.log, b.log);
    OthersAreKept(d, start, t.w.mounts);
    StoppedFrame(start, t, b, d);
    PruningLeavesStanding(codec, rd, d, start, t, b.w, b);
  }

  lemma {:induction false} StoppedFrame(start: map<MountId, Live>, t: View, b: View, d: Desired)
    requires RolesDone(start, t, b, d, false)
    ensures PruneFrame(t, b) && (NothingToPrune(t.w, d) ==> Phases.Idle(t, b))
    ensures OnlyStaleGone(ScopeOf(d, start), b.w, b.w)
  {
  }

  lemma {:induction false} PrunedInTwo(codec: EngineConfigs.Codec, rd: Reader, start: map<MountId, Live>, t: View,
                                       b: View, u: View, d: Desired, ok: bool)
    requires RolesDone(start, t, b, d, true) && MountsDone(b, u, d, ok)
             && OthersKept(start, t.w.mounts, IdsOf(d.mounts))
    requires ManagedMounts(t.w.mounts).Keys == OwnedOnce(d, start) && RolePaths(d.roles) <= t.w.plugin.roles.Keys
    ensures Pruned(codec, rd, start, t, u, d, ok)
  {
    PrunedInOrder(start, t, b, u, d, ok);
    PrunedFrame(start, t, b, u, d, ok);
    ScopeFromStart(d, start, b.w, u.w);
    PruneKeepsForeign(d, start, b.w, u.w);
    PruningLeavesStanding(codec, rd, d, start, t, b.w, u);
    if ok {
      PruneAchieves(start, t, b, u, d);
    }
  }

  lemma {:induction false} PrunedFrame(start: map<MountId, Live>, t: View, b: View, u: View, d: Desired, ok: bool)
    requires RolesDone(start, t, b, d, true) && MountsDone(b, u, d, ok)
    ensures PruneFrame(t, u) && (NothingToPrune(t.w, d) ==> Phases.Idle(t, u))
  {
  }

  lemma {:induction false} PruneAchieves(start: map<MountId, Live>, t: View, b: View, u: View, d: Desired)
    requires RolesDone(start, t, b, d, true) && MountsDone(b, u, d, true)
             && OthersKept(start, b.w.mounts, IdsOf(d.mounts))
    requires OnlyStaleGone(ScopeOf(d, start), b.w, u.w)
    requires ManagedMounts(b.w.mounts).Keys == OwnedOnce(d, start) && RolePaths(d.roles) <= t.w.plugin.roles.Keys
    ensures PruneComplete(start, t.w, u.w, d, t.w.plugin.roles.Keys)
  {
    RolesStayPruned(b.w, u.w, DesiredNames(d.roles));
    GoneFromStart(d, start, b.w, u.w);
    GoneFromLess(d, start, t.w, b.w, u.w);
    RolesAreGone(d, start, t.w.plugin.roles, u.w.plugin.roles);
    if d.pruneMode == PRUNE_FULL {
      ShadowedAreGone(d, start, t.w.plugin.roles, u.w);
    }
  }

  lemma {:induction false} PrunedInOrder(start: map<MountId, Live>, t: View, b: View, u: View, d: Desired, ok: bool)
    requires RolesDone(start, t, b, d, true) && MountsDone(b, u, d, ok)
             && OthersKept(start, t.w.mounts, IdsOf(d.mounts))
    requires ManagedMounts(t.w.mounts).Keys == OwnedOnce(d, start)
    ensures Went(t.log, u.log, 6, 7, ok) && AllAllowed(d, start, u.log, |t.log|)
  {
    OnePhase(t.log, b.log, 6, true);
    OnePhase(b.log, u.log, 7, ok);
    ThenPhases(t.log, b.log, u.log, 6, 6, 7, ok);
    PruneIsAllowed(d, start, b.w.mounts, t.log, b.log, u.log);
  }

  lemma {:induction false} RolesStayPruned(b: World, u: World, desired: map<(string, string), set<string>>)
    requires u.plugin == b.plugin
    requires forall id :: id in u.mounts ==> id in b.mounts && u.mounts[id] == b.mounts[id]
    ensures RolesPruned(b, desired) ==> RolesPruned(u, desired)
  {
    assert ManagedMounts(u.mounts).Keys <= ManagedMounts(b.mounts).Keys;
  }

  // ----- The pass -----

  /** An attempt since `from` to delete, unmount, deregister or remove something. */
  ghost predicate Destroyed(log: seq<Attempt>, from: nat) {
    exists i :: from <= i < |log| && PhaseOf(log[i].effect) >= 6
  }

  /** A pass from `s` to `t`, however it ended.
      - Without a failing request it succeeds iff the spec is feasible.
      - It went through its phases in order and left one only when all of it succeeded.
      - It destroyed only what is undeclared and, for mounts, carried the marker when the pass began, a version only
        after its mount and a file only after its version; foreign mounts are as they were.
      - Every mount keeps its plugin, and a new one runs the plugin it is declared with.
      - A success removes exactly the undeclared mounts with the marker, the registrations of the versions these ran and
        nothing declares, and in full mode the files of those versions, the undeclared roles and the shadowed ones. */
  ghost predicate PassDone(codec: EngineConfigs.Codec, s: View, t: View, d: Desired, ok: bool) {
    && s.faults <= t.faults && (t.faults == s.faults ==> (ok <==> Feasible(codec, s.w, d)))
    && Went(s.log, t.log, 1, 7, ok) && s.unread <= t.unread && t.w.plugin == s.w.plugin.(roles := t.w.plugin.roles)
    && AllAllowed(d, s.w.mounts, t.log, |s.log|) && ForeignKept(d, s.w.mounts, t.w.mounts)
    && RunDeclared(s.w.mounts, t.w.mounts, d.mounts)
    && (ok ==> PruneComplete(s.w.mounts, s.w, t.w, d, s.w.plugin.roles.Keys + RolePaths(d.roles)))
  }

  /** A pass over a proper spec and Vault.
      - If it tried to destroy anything, everything declared stands at the end.
      - A success reloads each plugin that moved exactly once and converges, but for records of undeclared engine
        configs it could not read while none is declared. */
  ghost predicate ProperPass(codec: EngineConfigs.Codec, rd: Reader, s: View, t: View, d: Desired, ok: bool)
    requires s.log <= t.log && s.unread <= t.unread
  {
    && (ok || Destroyed(t.log, |s.log|) ==> Standing(codec, rd, t, d))
    && (ok ==> EachOnce(Reloads(t.log, |s.log|), Stirred(s.w, d)))
    && (ok && (d.engines != [] || t.faults == s.faults) ==> Converged(codec, rd, t, d))
  }

  /** Over a converged Vault a pass, whatever fails, sends one write for each role whose read failed and nothing else,
      and leaves Vault converged. */
  ghost predicate QuietPass(codec: EngineConfigs.Codec, rd: Reader, s: View, t: View, d: Desired)
    requires s.log <= t.log && s.unread <= t.unread
  {
    Distinct(s.w.plugin, rd, d) && Converged(codec, rd, s, d) ==>
        Converged(codec, rd, t, d) && RolesAlone(codec, rd, s, t, d)
  }

  method Reconcile(v: Vault, d: Desired) returns (ok: bool)
    requires v.Valid()
    modifies v`w, v`log, v`faults, v`unread, v.client
    ensures PassDone(v.codec, old(ViewOf(v)), ViewOf(v), d, ok)
    ensures Proper(old(v.w), v.rd, d) ==> ProperPass(v.codec, v.rd, old(ViewOf(v)), ViewOf(v), d, ok)
    ensures QuietPass(v.codec, v.rd, old(ViewOf(v)), ViewOf(v), d)
  {
    ghost var s := ViewOf(v);
    var ids, desired;
    ok, ids, desired := Build(v, d);
    ghost var t := ViewOf(v);
    if !ok {
      BuildStopped(v.codec, v.rd, s, t, d);
      return;
    }
    ok := Prune(v, d, ids, desired, s.w.mounts);
    PassInTwo(v.codec, v.rd, s, t, ViewOf(v), d, ok);
    QuietInTwo(v.codec, v.rd, s, t, ViewOf(v), d, ok);
    if Proper(s.w, v.rd, d) {
      ProperInTwo(v.codec, v.rd, s, t, ViewOf(v), d, ok);
    }
  }

  lemma {:induction false} BuildStopped(codec: EngineConfigs.Codec, rd: Reader, s: View, t: View, d: Desired)
    requires Built(codec, rd, s, t, d, false)
    ensures PassDone(codec, s, t, d, false)
    ensures ProperPass(codec, rd, s, t, d, false) && QuietPass(codec, rd, s, t, d)
  {
    NoMorePhases(s.log, t.log, 1, 5, 7, false);
    OthersAreKept(d, s.w.mounts, t.w.mounts);
    if Distinct(s.w.plugin, rd, d) && Converged(codec, rd, s, d) {
      AloneStaysConverged(codec, rd, s, t, d);
    }
  }

  lemma {:induction false} EarnedEarlier(s: PruneScope, log: seq<Attempt>, from: nat, from': nat, i: nat)
    requires from <= from' && i < |log| && Earned(s, log, from', i)
    ensures Earned(s, log, from, i)
  {
  }

  lemma {:induction false} AllowedThen(d: Desired, start: map<MountId, Live>, a: seq<Attempt>, b: seq<Attempt>,
                                       c: seq<Attempt>)
    requires Went(a, b, 1, 5, true) && b <= c && AllAllowed(d, start, c, |b|)
    ensures AllAllowed(d, start, c, |a|)
  {
    forall i | |a| <= i < |c|
      ensures Allowed(d, start, c[i].effect)
      ensures PhaseOf(c[i].effect) == 7 ==> Earned(ScopeOf(d, start), c, |a|, i)
    {
      if i < |b| {
        assert c[i] == b[i];
      } else if PhaseOf(c[i].effect) == 7 {
        EarnedEarlier(ScopeOf(d, start), c, |a|, |b|, i);
      }
    }
  }

  lemma {:induction false} PassInTwo(codec: EngineConfigs.Codec, rd: Reader, s: View, t: View, u: View, d: Desired,
                                     ok: bool)
    requires Built(codec, rd, s, t, d, true) && Pruned(codec, rd, s.w.mounts, t, u, d, ok)
    ensures PassDone(codec, s, u, d, ok)
  {
    ThenPhases(s.log, t.log, u.log, 1, 5, 7, ok);
    AllowedThen(d, s.w.mounts, s.log, t.log, u.log);
    RunAfterPrune(s.w.mounts, t.w.mounts, u.w.mounts, d.mounts);
    if ok {
      CompleteFromLess(s.w, t.w, u.w, d, s.w.plugin.roles.Keys + RolePaths(d.roles));
    }
  }

  lemma {:induction false} CompleteFromLess(start: World, before: World, after: World, d: Desired, paths: set<string>)
    requires PruneComplete(start.mounts, before, after, d, before.plugin.roles.Keys)
    requires paths <= before.plugin.roles.Keys && start.pods == before.pods
    requires NoneLost(start, before) && UuidsKept(start.mounts, before.mounts)
    ensures PruneComplete(start.mounts, start, after, d, paths)
  {
    GoneFromLess(d, start.mounts, start, before, after);
  }

  lemma {:induction false} RunAfterPrune(start: map<MountId, Live>, before: map<MountId, Live>,
                                         after: map<MountId, Live>, ms: seq<Mount>)
    requires RunDeclared(start, before, ms) && UuidsKept(start, before)
    requires forall id :: id in after ==> id in before && after[id] == before[id]
    ensures RunDeclared(start, after, ms)
  {
  }

  lemma {:induction false} ProperInTwo(codec: EngineConfigs.Codec, rd: Reader, s: View, t: View, u: View, d: Desired,
                                       ok: bool)
    requires Built(codec, rd, s, t, d, true) && Pruned(codec, rd, s.w.mounts, t, u, d, ok) && Proper(s.w, rd, d)
    ensures s.log <= u.log && s.unread <= u.unread && ProperPass(codec, rd, s, u, d, ok)
  {
    OtherPhasesReloadNothing(t.log, u.log, 6, 7, ok, |s.log|);
    if ok {
      PrunedIsQuiet(d, s.w, u.w);
    }
  }

  lemma {:induction false} QuietInTwo(codec: EngineConfigs.Codec, rd: Reader, s: View, t: View, u: View, d: Desired,
                                      ok: bool)
    requires Built(codec, rd, s, t, d, true) && Pruned(codec, rd, s.w.mounts, t, u, d, ok)
    ensures s.log <= u.log && s.unread <= u.unread && QuietPass(codec, rd, s, u, d)
  {
    if Distinct(s.w.plugin, rd, d) && Converged(codec, rd, s, d) {
      AloneStaysConverged(codec, rd, s, t, d);
      assert u.w == t.w && u.log == t.log;
    }
  }

  /** On flat places a listing names roles only. */
  lemma {:induction false} PrunedIsQuiet(d: Desired, s: World, u: World)
    requires PrunedNow(u, d) && (d.pruneMode == PRUNE_FULL ==> PlacesFlat(d, s.plugin.roles.Keys))
    requires u.plugin.roles.Keys <= s.plugin.roles.Keys + RolePaths(d.roles)
    ensures NothingToPrune(u, d)
  {
    var desired := DesiredNames(d.roles);
    if d.pruneMode == PRUNE_FULL {
      forall spot | spot in ManagedSpots(u, desired)
        ensures SpotQuiet(u.plugin.roles, desired, spot)
      {
        DesiredNamesAre(d.roles, spot);
        var r :| r in d.roles && Spot(r) == spot;
        assert SpotPruned(u.plugin.roles, desired, spot);
        assert forall p :: p in u.plugin.roles ==> !Deeper(p, SpotPath(Spot(r)));
        assert FoldersUnder(u.plugin.roles, SpotPath(spot)) == {};
      }
    }
  }

  /** What a pass over a converged Vault changes keeps it converged. */
  lemma {:induction false} AloneStaysConverged(codec: EngineConfigs.Codec, rd: Reader, s: View, t: View, d: Desired)
    requires Converged(codec, rd, s, d) && s.log <= t.log && s.unread <= t.unread && RolesAlone(codec, rd, s, t, d)
    ensures Converged(codec, rd, t, d)
  {
    CatalogFrame(s.w, t.w, d.catalog);
    SameListing(s.w, t.w, d);
  }

  lemma {:induction false} SameListing(s: World, t: World, d: Desired)
    requires SamePlugin(s, t) && t.plugin.roles.Keys == s.plugin.roles.Keys
    ensures NothingToPrune(s, d) ==> NothingToPrune(t, d)
  {
    var desired := DesiredNames(d.roles);
    forall spot | spot in ManagedSpots(s, desired)
      ensures SpotQuiet(s.plugin.roles, desired, spot) ==> SpotQuiet(t.plugin.roles, desired, spot)
    {
      ListedByKeys(s.plugin.roles, t.plugin.roles, SpotPath(spot));
    }
    assert ManagedSpots(t, desired) == ManagedSpots(s, desired);
  }

  lemma {:induction false} ListedByKeys(a: map<string, Body>, b: map<string, Body>, under: string)
    requires a.Keys == b.Keys
    ensures Listed(a, under) == Listed(b, under)
  {
    assert NamesUnder(a, under) == NamesUnder(b, under);
    assert FoldersUnder(a, under) == FoldersUnder(b, under);
  }

  // ----- Again and again -----

  lemma {:induction false} ConvergedIsFeasible(codec: EngineConfigs.Codec, rd: Reader, s: View, d: Desired)
    requires Converged(codec, rd, s, d)
    ensures Feasible(codec, s.w, d)
  {
    forall c | c in d.catalog
      ensures Available(s.w, c)
    {
      var i :| 0 <= i < |d.catalog| && d.catalog[i] == c;
      assert EntrySettled(s.w, d.catalog[i]);
    }
    forall m | m in d.mounts
      ensures !m.mtype.Database?
    {
      assert MountSettled(s.w.mounts, m);
    }
    forall e | e in EngineConfigRuns.ResolveAll(codec, d.engines, s.w.secrets).value
      ensures WillHaveUuid(d, s.w.mounts, e.mount)
    {
      UuidOf(s.w.mounts, e.mount);
    }
  }

  lemma {:induction false} AloneThenAlone(codec: EngineConfigs.Codec, rd: Reader, s: View, t: View, u: View, d: Desired)
    requires s.log <= t.log <= u.log && s.unread <= t.unread <= u.unread
    requires RolesAlone(codec, rd, s, t, d) && RolesAlone(codec, rd, t, u, d)
    ensures RolesAlone(codec, rd, s, u, d)
  {
    RewritesThenRewrites(s.log, t.log, u.log, s.unread, t.unread, u.unread, RolePaths(d.roles));
  }

  /** From `s` to `t` nothing but rewrites of unread roles, and a pass without a failing request succeeds. */
  ghost predicate LaterPass(codec: EngineConfigs.Codec, rd: Reader, s: View, t: View, d: Desired, ok: bool) {
    && s.log <= t.log && s.unread <= t.unread && s.faults <= t.faults
    && Converged(codec, rd, t, d) && RolesAlone(codec, rd, s, t, d) && Distinct(t.w.plugin, rd, d)
    && (t.faults == s.faults ==> ok)
  }

  lemma {:induction false} PassIsLater(codec: EngineConfigs.Codec, rd: Reader, s: View, t: View, d: Desired, ok: bool)
    requires Converged(codec, rd, s, d) && Distinct(s.w.plugin, rd, d) && PassDone(codec, s, t, d, ok)
    requires QuietPass(codec, rd, s, t, d)
    ensures LaterPass(codec, rd, s, t, d, ok)
  {
    ConvergedIsFeasible(codec, rd, s, d);
  }

  /** Resyncs of an unchanged spec against a Vault nobody else edits, whatever requests fail: once a pass left Vault
      converged, all later ones together send one write for each role whose read failed and nothing else, Vault stays
      converged, and each of them without a failing request succeeds. */
  method Resync(v: Vault, d: Desired, passes: nat) returns (first: bool, later: seq<bool>, ghost views: seq<View>)
    requires v.Valid() && Distinct(v.w.plugin, v.rd, d)
    modifies v`w, v`log, v`faults, v`unread, v.client
    ensures |later| == passes && |views| == passes + 1 && views[passes] == ViewOf(v)
    ensures PassDone(v.codec, old(ViewOf(v)), views[0], d, first)
    ensures Proper(old(v.w), v.rd, d) ==> ProperPass(v.codec, v.rd, old(ViewOf(v)), views[0], d, first)
    ensures Converged(v.codec, v.rd, views[0], d) ==>
              && views[0].log <= v.log && views[0].unread <= v.unread
              && Converged(v.codec, v.rd, ViewOf(v), d) && RolesAlone(v.codec, v.rd, views[0], ViewOf(v), d)
              && forall i :: 0 <= i < passes ==> LaterPass(v.codec, v.rd, views[i], views[i + 1], d, later[i])
  {
    first := Reconcile(v, d);
    ghost var settled := ViewOf(v);
    later, views := [], [settled];
    assert Since(settled.log, settled.log) == [] && Since(settled.unread, settled.unread) == [];
    for n := 0 to passes
      invariant |later| == n && |views| == n + 1 && views[0] == settled && views[n] == ViewOf(v)
      invariant Converged(v.codec, v.rd, settled, d) ==> AllLater(v.codec, v.rd, views, d, later)
    {
      ghost var t := ViewOf(v);
      var ok := Reconcile(v, d);
      if Converged(v.codec, v.rd, settled, d) {
        LaterStill(v.codec, v.rd, views, d, later, ViewOf(v), ok);
      }
      later, views := later + [ok], views + [ViewOf(v)];
    }
  }

  /** A run of later passes. */
  ghost predicate AllLater(codec: EngineConfigs.Codec, rd: Reader, views: seq<View>, d: Desired, later: seq<bool>) {
    var n := |later|;
    && |views| == n + 1 && views[0].log <= views[n].log && views[0].unread <= views[n].unread
    && Converged(codec, rd, views[n], d) && RolesAlone(codec, rd, views[0], views[n], d)
    && Distinct(views[n].w.plugin, rd, d)
    && forall i :: 0 <= i < n ==> LaterPass(codec, rd, views[i], views[i + 1], d, later[i])
  }

  lemma {:induction false} LaterStill(codec: EngineConfigs.Codec, rd: Reader, views: seq<View>, d: Desired,
                                      later: seq<bool>, u: View, ok: bool)
    requires AllLater(codec, rd, views, d, later)
    requires PassDone(codec, views[|later|], u, d, ok) && QuietPass(codec, rd, views[|later|], u, d)
    ensures AllLater(codec, rd, views + [u], d, later + [ok])
  {
    var n, more, oks := |later|, views + [u], later + [ok];
    PassIsLater(codec, rd, views[n], u, d, ok);
    AloneThenAlone(codec, rd, views[0], views[n], u, d);
    forall i | 0 <= i < n + 1
      ensures LaterPass(codec, rd, more[i], more[i + 1], d, oks[i])
    {
      if i < n {
        assert more[i] == views[i] && more[i + 1] == views[i + 1] && oks[i] == later[i];
      }
    }
  }
}
