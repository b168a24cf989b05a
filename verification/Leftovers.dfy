/** What is left over for the prune, said of the declarations themselves: prune and reconcileRoles of
internal/reconcile/reconcile.go. */
module Leftovers {
  import opened RoleValues
  import opened Strings
  import opened Specs
  import opened Mounts
  import opened Cluster
  import opened Phases
  import opened Pruning

  // ----- Releases -----

  /** One plugin and one version, up to a leading "v". */
  ghost predicate SameRelease(a: string, v: string, b: string, w: string) {
    a == b && EqualUpToV(v, w)
  }

  /** The plugin names differ and nvKey takes the one for the other: `b` extends `a` by "@", and the first version
      begins with what `b` has left. */
  ghost predicate Confused(a: string, v: string, b: string, w: string) {
    a + "@" <= b && exists t, u :: WithoutV(v, t) && WithoutV(w, u) && t == b[|a| + 1..] + "@" + u
  }

  ghost predicate TakenForOne(a: string, v: string, b: string, w: string) {
    SameRelease(a, v, b, w) || Confused(a, v, b, w) || Confused(b, w, a, v)
  }

  /** Two keys are equal iff they are of one release, or a name holds an "@" and they are confused. */
  lemma {:induction false} KeysAlikeIff(a: string, v: string, b: string, w: string)
    ensures NvKey(a, v) == NvKey(b, w) <==> TakenForOne(a, v, b, w)
  {
    SameVersionIff(v, w);
    if |a| < |b| {
      LongerName(a, v, b, w);
    } else if |b| < |a| {
      LongerName(b, w, a, v);
    } else {
      SameLengthNames(a, TrimV(v), b, TrimV(w));
    }
  }

  lemma {:induction false} SameLengthNames(a: string, t: string, b: string, u: string)
    requires |a| == |b|
    ensures a + "@" + t == b + "@" + u <==> a == b && t == u
  {
    var x, y := a + "@" + t, b + "@" + u;
    assert x[..|a|] == a && y[..|a|] == b && x[|a| + 1..] == t && y[|a| + 1..] == u;
  }

  lemma {:induction false} LongerName(a: string, v: string, b: string, w: string)
    requires |a| < |b|
    ensures NvKey(a, v) == NvKey(b, w) <==> Confused(a, v, b, w)
  {
    forall x, t
      ensures WithoutV(x, t) <==> t == TrimV(x)
    {
      TrimVIff(x, t);
    }
    assert WithoutV(v, TrimV(v)) && WithoutV(w, TrimV(w));
    SplitsAtLonger(a, TrimV(v), b, TrimV(w));
  }

  lemma {:induction false} SplitsAtLonger(a: string, t: string, b: string, u: string)
    requires |a| < |b|
    ensures a + "@" + t == b + "@" + u <==> a + "@" <= b && t == b[|a| + 1..] + "@" + u
  {
    var x, y, rest := a + "@" + t, b + "@" + u, b[|a| + 1..] + "@" + u;
    assert x[..|a| + 1] == a + "@" && x[|a| + 1..] == t;
    assert y[..|a| + 1] == b[..|a| + 1] && y[|a| + 1..] == rest;
    assert y == b[..|a| + 1] + rest;
    if a + "@" <= b {
      assert b[..|a| + 1] == a + "@";
    }
  }

  /** Names without an "@" are never confused. */
  lemma {:induction false} PlainNamesAreTold(a: string, v: string, b: string, w: string)
    requires '@' !in a && '@' !in b
    ensures TakenForOne(a, v, b, w) <==> SameRelease(a, v, b, w)
  {
    if a + "@" <= b {
      HoldsAt(a, b);
    }
    if b + "@" <= a {
      HoldsAt(b, a);
    }
  }

  lemma {:induction false} HoldsAt(a: string, b: string)
    requires a + "@" <= b
    ensures '@' in b
  {
    assert (a + "@")[|a|] == '@';
  }

  // ----- What is declared -----

  /** A catalog entry or a mount is of this release, or is taken for it. */
  ghost predicate ReleaseDeclared(d: Desired, plugin: string, version: string) {
    || (exists c :: c in d.catalog && TakenForOne(c.name, c.version, plugin, version))
    || exists m :: m in d.mounts && TakenForOne(m.plugin, m.version, plugin, version)
  }

  ghost predicate PlaceDeclared(d: Desired, id: MountId) {
    exists m :: m in d.mounts && m.mtype == id.mtype && IsTrimOf(m.path, id.path)
  }

  /** A mount that carries the marker and is not declared. */
  ghost predicate Abandoned(d: Desired, mounts: map<MountId, Live>, id: MountId) {
    id in mounts && Marked(mounts[id].options) && !PlaceDeclared(d, id)
  }

  /** Such a mount with a version pinned that nothing declares. */
  ghost predicate Dropped(d: Desired, mounts: map<MountId, Live>, id: MountId) {
    && Abandoned(d, mounts, id) && mounts[id].version != ""
    && !ReleaseDeclared(d, mounts[id].plugin, mounts[id].version)
  }

  /** The registration of a dropped version: the mount's type and plugin, and the version without its "v". */
  ghost predicate DroppedRegistration(d: Desired, mounts: map<MountId, Live>, id: MountId, p: PluginId) {
    && Dropped(d, mounts, id) && p.name == mounts[id].plugin && WithoutV(mounts[id].version, p.version)
    && match id.mtype
       case Secret => p.ptype == "secret"
       case Auth => p.ptype == "auth"
       case Database => p.ptype == "database"
  }

  /** Its file, under the version as Vault reports it. */
  ghost predicate DroppedFile(d: Desired, mounts: map<MountId, Live>, id: MountId, file: string) {
    Dropped(d, mounts, id) && file == mounts[id].plugin + "-" + mounts[id].version
  }

  // ----- Roles -----

  /** The marker is on a mount of this path once the declared mounts are ensured: it was, or the mount is missing and
      declared. */
  ghost predicate OwnedPath(d: Desired, mounts: map<MountId, Live>, path: string) {
    exists id: MountId :: id.path == path && if id in mounts then Marked(mounts[id].options) else PlaceDeclared(d, id)
  }

  ghost predicate NamedAt(roles: seq<RoleEntry>, mount: string, rolesPath: string, name: string) {
    exists q :: q in roles && IsTrimOf(q.mount, mount) && q.rolesPath == rolesPath && q.name == name
  }

  /** `path` is `name` under a declared place on a mount the pass owns, and that place declares no such role. */
  ghost predicate UndeclaredRole(d: Desired, mounts: map<MountId, Live>, path: string, name: string) {
    exists r, mount :: && r in d.roles && IsTrimOf(r.mount, mount) && OwnedPath(d, mounts, mount)
                       && path == mount + "/" + r.rolesPath + "/" + name
                       && !NamedAt(d.roles, mount, r.rolesPath, name)
  }

  /** A LIST answers role names, which have no slash, and folders, which end in one. */
  ghost predicate ListEntry(name: string) {
    '/' in name ==> name[|name| - 1] == '/'
  }

  // ----- What a successful pass removes -----

  /** Exactly the abandoned mounts, the registrations of the dropped versions and, in full mode, their files. */
  ghost predicate DroppedAreGone(d: Desired, start: map<MountId, Live>, before: World, after: World) {
    MountsGone(d, start, before, after) && RegistrationsGone(d, start, before, after)
    && FilesGone(d, start, before, after)
  }

  ghost predicate MountsGone(d: Desired, start: map<MountId, Live>, before: World, after: World) {
    forall id :: id in before.mounts ==> (id !in after.mounts <==> d.pruneMode != "never" && Abandoned(d, start, id))
  }

  ghost predicate RegistrationsGone(d: Desired, start: map<MountId, Live>, before: World, after: World) {
    forall p :: p in before.catalog ==>
      (p !in after.catalog <==> d.pruneMode != "never" && exists id :: DroppedRegistration(d, start, id, p))
  }

  ghost predicate FilesGone(d: Desired, start: map<MountId, Live>, before: World, after: World) {
    forall f :: f in before.files && f.0 in before.pods ==>
      (f !in after.files <==> d.pruneMode == "full" && exists id :: DroppedFile(d, start, id, f.1))
  }

  /** Of these roles only undeclared entries of places are gone, all in full mode, and none with a plain name is
      left. */
  ghost predicate UndeclaredAreGone(d: Desired, start: map<MountId, Live>, paths: set<string>, after: map<string, Body>)
  {
    forall path :: path in paths ==>
      && (path !in after ==>
            d.pruneMode == "full" && exists name :: ListEntry(name) && UndeclaredRole(d, start, path, name))
      && (d.pruneMode == "full" ==> forall name :: '/' !in name && UndeclaredRole(d, start, path, name) ==>
                                      path !in after)
  }

  // ----- The prune's own terms -----

  /** The scope of a pass's prune, from the mounts that carried the marker when the pass began. */
  ghost function ScopeOf(d: Desired, mounts: map<MountId, Live>): PruneScope {
    PruneScope(d.pruneMode, ManagedMounts(mounts), IdsOf(d.mounts), DesiredVersions(d))
  }

  lemma {:induction false} DeclaredIdIff(d: Desired, id: MountId)
    ensures id in IdsOf(d.mounts) <==> PlaceDeclared(d, id)
  {
    forall m | m in d.mounts
      ensures IdOf(m) == id <==> m.mtype == id.mtype && IsTrimOf(m.path, id.path)
    {
      TrimSlashesIsTheTrim(m.path, id.path);
    }
  }

  lemma {:induction false} DeclaredVersionIff(d: Desired, plugin: string, version: string)
    ensures NvKey(plugin, version) in DesiredVersions(d) <==> ReleaseDeclared(d, plugin, version)
  {
    forall name, v
      ensures NvKey(name, v) == NvKey(plugin, version) <==> TakenForOne(name, v, plugin, version)
    {
      KeysAlikeIff(name, v, plugin, version);
    }
  }

  lemma {:induction false} MarkedIff(opts: Options)
    ensures IsManaged(opts) <==> Marked(opts)
  {
    OptionsConformIff(opts, map[]);
  }

  /** A mount is stale iff it is abandoned, and its version iff that is dropped. */
  lemma {:induction false} StaleIff(d: Desired, mounts: map<MountId, Live>, id: MountId)
    ensures Stale(ScopeOf(d, mounts), id) <==> Abandoned(d, mounts, id)
    ensures StaleVersion(ScopeOf(d, mounts), id) <==> Dropped(d, mounts, id)
  {
    DeclaredIdIff(d, id);
    if id in mounts {
      MarkedIff(mounts[id].options);
      DeclaredVersionIff(d, mounts[id].plugin, mounts[id].version);
    }
  }

  lemma {:induction false} StaleNamesIff(d: Desired, mounts: map<MountId, Live>, id: MountId)
    requires Dropped(d, mounts, id)
    ensures StaleVersion(ScopeOf(d, mounts), id)
    ensures forall p :: p == StaleRegistration(ScopeOf(d, mounts), id) <==> DroppedRegistration(d, mounts, id, p)
    ensures forall file :: file == StaleFile(ScopeOf(d, mounts), id) <==> DroppedFile(d, mounts, id, file)
  {
    StaleIff(d, mounts, id);
    forall p: PluginId
      ensures WithoutV(mounts[id].version, p.version) <==> p.version == TrimV(mounts[id].version)
    {
      TrimVIff(mounts[id].version, p.version);
    }
  }

  /** What a prune that reached all that is stale leaves, in terms of what is declared. */
  lemma {:induction false} StaleAreGone(d: Desired, start: map<MountId, Live>, before: World, after: World)
    requires OnlyStaleGone(ScopeOf(d, start), before, after)
    requires if d.pruneMode == PRUNE_NEVER then after == before
             else forall id :: Stale(ScopeOf(d, start), id) ==> AllGone(ScopeOf(d, start), after, id)
    ensures DroppedAreGone(d, start, before, after)
  {
    StaleMountsAreGone(d, start, before, after);
    StaleRegistrationsAreGone(d, start, before, after);
    StaleFilesAreGone(d, start, before, after);
  }

  lemma {:induction false} StaleMountsAreGone(d: Desired, start: map<MountId, Live>, before: World, after: World)
    requires OnlyStaleGone(ScopeOf(d, start), before, after)
    requires if d.pruneMode == PRUNE_NEVER then after == before
             else forall id :: Stale(ScopeOf(d, start), id) ==> AllGone(ScopeOf(d, start), after, id)
    ensures MountsGone(d, start, before, after)
  {
    forall id
      ensures Stale(ScopeOf(d, start), id) <==> Abandoned(d, start, id)
    {
      StaleIff(d, start, id);
    }
  }

  /** The prune may deregister exactly the registrations of dropped versions, and remove exactly their files. */
  lemma {:induction false} PruneEffectIff(d: Desired, start: map<MountId, Live>, p: PluginId, pod: string,
                                          file: string)
    ensures PruneEffect(ScopeOf(d, start), Deregistered(p)) <==> exists id :: DroppedRegistration(d, start, id, p)
    ensures PruneEffect(ScopeOf(d, start), RemovedFile(pod, file)) <==>
              d.pruneMode == "full" && exists id :: DroppedFile(d, start, id, file)
  {
    var s := ScopeOf(d, start);
    forall id
      ensures StaleVersion(s, id) && p == StaleRegistration(s, id) <==> DroppedRegistration(d, start, id, p)
      ensures StaleVersion(s, id) && file == StaleFile(s, id) <==> DroppedFile(d, start, id, file)
    {
      StaleIff(d, start, id);
      if Dropped(d, start, id) {
        StaleNamesIff(d, start, id);
      }
    }
  }

  lemma {:induction false} StaleRegistrationsAreGone(d: Desired, start: map<MountId, Live>, before: World, after: World)
    requires OnlyStaleGone(ScopeOf(d, start), before, after)
    requires if d.pruneMode == PRUNE_NEVER then after == before
             else forall id :: Stale(ScopeOf(d, start), id) ==> AllGone(ScopeOf(d, start), after, id)
    ensures RegistrationsGone(d, start, before, after)
  {
    var s := ScopeOf(d, start);
    forall p | p in before.catalog
      ensures p !in after.catalog <==> d.pruneMode != "never" && exists id :: DroppedRegistration(d, start, id, p)
    {
      PruneEffectIff(d, start, p, "", "");
      if d.pruneMode != PRUNE_NEVER && PruneEffect(s, Deregistered(p)) {
        var id :| StaleVersion(s, id) && p == StaleRegistration(s, id);
        assert AllGone(s, after, id);
      }
    }
  }

  lemma {:induction false} StaleFilesAreGone(d: Desired, start: map<MountId, Live>, before: World, after: World)
    requires OnlyStaleGone(ScopeOf(d, start), before, after)
    requires if d.pruneMode == PRUNE_NEVER then after == before
             else forall id :: Stale(ScopeOf(d, start), id) ==> AllGone(ScopeOf(d, start), after, id)
    ensures FilesGone(d, start, before, after)
  {
    var s := ScopeOf(d, start);
    forall f | f in before.files && f.0 in before.pods
      ensures f !in after.files <==> d.pruneMode == "full" && exists id :: DroppedFile(d, start, id, f.1)
    {
      PruneEffectIff(d, start, PluginId("", "", ""), f.0, f.1);
      if d.pruneMode != PRUNE_NEVER && PruneEffect(s, RemovedFile(f.0, f.1)) {
        var id :| StaleVersion(s, id) && f.1 == StaleFile(s, id);
        assert AllGone(s, after, id) && f == (f.0, StaleFile(s, id));
      }
    }
  }

  /** What is said of a bigger world holds of a smaller one. */
  lemma {:induction false} GoneFromLess(d: Desired, start: map<MountId, Live>, less: World, before: World, after: World)
    requires DroppedAreGone(d, start, before, after) && less.pods == before.pods
    requires less.mounts.Keys <= before.mounts.Keys && less.catalog.Keys <= before.catalog.Keys
    requires less.files.Keys <= before.files.Keys
    ensures DroppedAreGone(d, start, less, after)
  {
    assert forall id :: id in less.mounts ==> id in before.mounts;
    assert forall p :: p in less.catalog ==> p in before.catalog;
    assert forall f :: f in less.files ==> f in before.files;
  }
}
