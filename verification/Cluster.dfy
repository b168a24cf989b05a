/** What a reconcile pass acts on: the Vault pods' plugin files, Vault's catalog, mounts and role paths,
and the recorded engine configs.  Each operation is one of the interfaces of
internal/reconcile/reconcile.go with the client code behind it (internal/vault/catalog.go,
internal/vault/mounts.go, internal/vault/roles.go, internal/k8s/pods.go). */
module Cluster {
  import opened Requests
  import opened RoleValues
  import opened Strings
  import opened Specs
  import opened Mounts
  import EngineConfigs
  import EngineConfigRuns
  import RoleWrites

  /** Vault keeps a version once, with or without a leading "v". */
  datatype PluginId = PluginId(ptype: string, name: string, version: string)
  datatype Registration = Registration(version: string, command: string, sha256: string)

  type Files = map<(string, string), string>
  type Catalog = map<PluginId, Registration>

  /** `artifacts` is the checksum of the binary each source yields, `files` the checksum of each plugin
      file by pod and name, `secrets` what the referenced Secrets hold, `records` the state Secret, if it
      exists. */
  datatype World = World(
    pods: seq<string>, artifacts: map<Source, string>, files: Files, catalog: Catalog, mounts: map<MountId, Live>,
    plugin: RoleWrites.Plugin, secrets: EngineConfigRuns.Snapshot, records: Option<EngineConfigs.Records>)

  /** The writes of a pass. */
  datatype Effect =
    | Copied(pod: string, file: string)
    | Registered(id: PluginId)
    | EnsuredMount(mountId: MountId)
    | Reloaded(plugin: string)
    | CreatedState
    | WroteConfig(key: string)
    | SavedRecords
    | WroteRole(path: string)
    | DeletedRole(path: string)
    | Unmounted(mountId: MountId)
    | Deregistered(id: PluginId)
    | RemovedFile(pod: string, file: string)

  /** A write that was tried, and whether it was acknowledged. */
  datatype Attempt = Attempt(effect: Effect, ok: bool)

  function FileName(name: string, version: string): string {
    name + "-" + version
  }

  function CatalogIdOf(c: CatalogEntry): PluginId {
    PluginId(c.ptype, c.name, TrimV(c.version))
  }

  /** strings.EqualFold on hex digests. */
  predicate EqualFold(a: string, b: string) {
    |a| == |b| && forall i :: 0 <= i < |a| ==> Lower(a[i]) == Lower(b[i])
  }

  function Lower(c: char): char {
    if 'A' <= c <= 'Z' then c + ('a' - 'A') else c
  }

  /** A registration EnsurePlugin leaves alone. */
  predicate Matches(reg: Registration, c: CatalogEntry, sha256: string) {
    EqualFold(reg.sha256, sha256) && reg.command == FileName(c.name, c.version) && SameVersion(reg.version, c.version)
  }

  /** Hex digests fold alike iff they differ in the case of letters only. */
  lemma {:induction false} EqualFoldIff(a: string, b: string)
    ensures EqualFold(a, b) <==> SameButCase(a, b)
  {
  }

  ghost predicate SameButCase(a: string, b: string) {
    |a| == |b| && forall i :: 0 <= i < |a| ==> a[i] == b[i] || OtherCase(a[i], b[i]) || OtherCase(b[i], a[i])
  }

  ghost predicate OtherCase(upper: char, lower: char) {
    'A' <= upper <= 'Z' && lower as int == upper as int + 32
  }

  /** A registration runs the file of this plugin and version, with this checksum. */
  ghost predicate RegisteredAs(reg: Registration, c: CatalogEntry, sha256: string) {
    && reg.command == c.name + "-" + c.version && EqualUpToV(reg.version, c.version)
    && SameButCase(reg.sha256, sha256)
  }

  /** A catalog entry is registered as desired under its type, its name and its version without a leading "v". */
  ghost predicate RegisteredIn(catalog: Catalog, c: CatalogEntry, sha256: string) {
    exists t :: && WithoutV(c.version, t) && PluginId(c.ptype, c.name, t) in catalog
                && RegisteredAs(catalog[PluginId(c.ptype, c.name, t)], c, sha256)
  }

  lemma {:induction false} RegisteredIff(catalog: Catalog, c: CatalogEntry, sha256: string)
    ensures CatalogIdOf(c) in catalog && Matches(catalog[CatalogIdOf(c)], c, sha256) <==>
              RegisteredIn(catalog, c, sha256)
  {
    var id := CatalogIdOf(c);
    forall t
      ensures WithoutV(c.version, t) <==> PluginId(c.ptype, c.name, t) == id
    {
      TrimVIff(c.version, t);
    }
    assert WithoutV(c.version, TrimV(c.version));
    if id in catalog {
      SameVersionIff(catalog[id].version, c.version);
      EqualFoldIff(catalog[id].sha256, sha256);
    }
  }

  /** The UUIDs of the live secret mounts by path. */
  function Uuids(mounts: map<MountId, Live>): map<string, string> {
    map id | id in mounts && id.mtype.Secret? :: id.path := mounts[id].uuid
  }

  /** The names directly under a path: those of the roles one segment below it. */
  function NamesUnder(roles: map<string, Body>, under: string): set<string> {
    set path | path in roles && under + "/" <= path && '/' !in path[|under| + 1..] :: path[|under| + 1..]
  }

  /** A role lies deeper than one segment below a path. */
  predicate Deeper(path: string, under: string) {
    under + "/" <= path && '/' in path[|under| + 1..]
  }

  /** The first segment of a text that has a slash, with that slash. */
  function FirstFolder(s: string): (f: string)
    requires '/' in s
    ensures f != "" && f <= s && f[|f| - 1] == '/'
  {
    if s[0] == '/' then "/" else [s[0]] + FirstFolder(s[1..])
  }

  /** The entries that stand for deeper paths: a segment and a slash. */
  function FoldersUnder(roles: map<string, Body>, under: string): set<string> {
    set path | path in roles && Deeper(path, under) :: FirstFolder(path[|under| + 1..])
  }

  /** What a Vault LIST answers. */
  function Listed(roles: map<string, Body>, under: string): set<string> {
    NamesUnder(roles, under) + FoldersUnder(roles, under)
  }

  /** The mounts that carry the marker. */
  function ManagedMounts(mounts: map<MountId, Live>): map<MountId, Live> {
    map id | id in mounts && IsManaged(mounts[id].options) :: mounts[id]
  }

  class Vault {
    const sem: Semantics
    const rd: Reader
    const codec: EngineConfigs.Codec
    const client: RoleWrites.Client
    var w: World
    var log: seq<Attempt>
    /** How many requests failed, and the roles whose read did. */
    ghost var faults: nat
    ghost var unread: seq<string>

    constructor (sem: Semantics, codec: EngineConfigs.Codec, client: RoleWrites.Client, w: World)
      ensures this.sem == sem && this.rd == client.rd && this.codec == codec && this.client == client
      ensures this.w == w && log == [] && faults == 0 && unread == []
    {
      this.sem, this.rd, this.codec, this.client := sem, client.rd, codec, client;
      this.w, log, faults, unread := w, [], 0, [];
    }

    ghost predicate Valid() {
      client.rd == rd && Plausible(sem)
    }

    /** The outcome of one request. */
    method Pick() returns (fate: Fate)
      modifies `faults
      ensures faults == old(faults) + if fate.Done? then 0 else 1
    {
      fate := *;
      faults := faults + if fate.Done? then 0 else 1;
    }

    /** EnsureFile: copy unless the checksum is right already, then verify. */
    method EnsureFile(pod: string, file: string, sha256: string) returns (ok: bool)
      requires Valid()
      modifies `w, `log, `faults
      ensures faults >= old(faults) && (faults == old(faults) ==> ok)
      ensures w == old(w).(files := w.files)
      ensures w.files == old(w.files)
           || ((pod, file) in w.files && w.files == old(w.files)[(pod, file) := w.files[(pod, file)]])
      ensures ok ==> (pod, file) in w.files && w.files[(pod, file)] == sha256
      ensures log == old(log) || log == old(log) + [Attempt(Copied(pod, file), ok)]
      ensures (pod, file) in old(w.files) && old(w.files)[(pod, file)] == sha256 ==> w == old(w) && log == old(log)
    {
      var read := Pick();
      if !read.Done? {
        return false;
      }
      if (pod, file) in w.files && w.files[(pod, file)] == sha256 {
        return true;
      }
      var fate := Pick();
      var content: string := *;
      if fate.Done? {
        content := sha256;
      }
      if !fate.NotDone? {
        w := w.(files := w.files[(pod, file) := content]);
      }
      ok := fate.Done?;
      log := log + [Attempt(Copied(pod, file), ok)];
    }

    /** EnsurePlugin: register unless it is registered as desired. */
    method EnsurePlugin(c: CatalogEntry, sha256: string) returns (ok: bool, changed: bool)
      requires Valid()
      modifies `w, `log, `faults
      ensures faults >= old(faults) && (faults == old(faults) && ValidType(c.ptype) ==> ok)
      ensures w == old(w).(catalog := w.catalog)
      ensures ok ==> ValidType(c.ptype) && CatalogIdOf(c) in w.catalog && Matches(w.catalog[CatalogIdOf(c)], c, sha256)
                     && w.catalog == old(w.catalog)[CatalogIdOf(c) := w.catalog[CatalogIdOf(c)]]
      ensures log == old(log) || log == old(log) + [Attempt(Registered(CatalogIdOf(c)), ok)]
      ensures ok ==> (changed <==>
                        !(CatalogIdOf(c) in old(w.catalog) && Matches(old(w.catalog)[CatalogIdOf(c)], c, sha256)))
      ensures CatalogIdOf(c) in old(w.catalog) && Matches(old(w.catalog)[CatalogIdOf(c)], c, sha256) ==>
                w == old(w) && log == old(log) && !changed
      ensures old(w.catalog).Keys <= w.catalog.Keys
      ensures ok ==> c.ptype in {"secret", "auth", "database"} && RegisteredIn(w.catalog, c, sha256)
      ensures ok ==> (changed <==> !RegisteredIn(old(w.catalog), c, sha256))
      ensures RegisteredIn(old(w.catalog), c, sha256) ==> w == old(w) && log == old(log)
    {
      RegisteredIff(w.catalog, c, sha256);
      changed := false;
      if !ValidType(c.ptype) {
        return false, changed;
      }
      var read := Pick();
      if !read.Done? {
        return false, changed;
      }
      var id := CatalogIdOf(c);
      if id in w.catalog && Matches(w.catalog[id], c, sha256) {
        return true, changed;
      }
      var fate := Pick();
      if !fate.NotDone? {
        var reg := Registration(sem.report(c.version), FileName(c.name, c.version), sha256);
        ReportKeepsVersion(sem, c.version);
        w := w.(catalog := w.catalog[id := reg]);
      }
      RegisteredIff(w.catalog, c, sha256);
      ok, changed := fate.Done?, fate.Done?;
      log := log + [Attempt(Registered(id), ok)];
    }

    /** EnsureMount, with nobody else in between: see Mounts.EnsureMount, and Ownership for the rest. */
    method EnsureMount(m: Mount) returns (res: Option<MountResult>)
      requires Valid()
      modifies `w, `log, `faults
      ensures faults >= old(faults) && (faults == old(faults) && !m.mtype.Database? ==> res.Some?)
      ensures w == old(w).(mounts := w.mounts)
      ensures MountEnsured(sem, old(w.mounts), IdOf(m), m, w.mounts, res)
      ensures log == old(log) || log == old(log) + [Attempt(EnsuredMount(IdOf(m)), res.Some?)]
      ensures IdOf(m) in old(w.mounts) && Conforms(old(w.mounts)[IdOf(m)], m) ==> w == old(w) && log == old(log)
      ensures PluginsStay(old(w.mounts), w.mounts)
      ensures forall id :: id in w.mounts && id !in old(w.mounts) ==>
                id == IdOf(m) && RunsDeclared(sem, w.mounts[id], m)
      ensures res.Some? ==> IdOf(m) in w.mounts
    {
      var path := Trim(m.path);
      var id := MountId(m.mtype, path);
      var uuid: string := *;
      if uuid == "" {
        uuid := "0";
      }
      if m.mtype.Database? {
        return None;
      }
      var read := Pick();
      if !read.Done? {
        return None;
      }
      var after, result, needed;
      if id !in w.mounts {
        after, result, needed := Enabled(sem, m, uuid), MountResult(true, true), true;
      } else {
        var tune;
        tune, result := MountTune(w.mounts[id], m);
        ChangeIffNonconforming(w.mounts[id], m);
        after, needed := ApplyTune(sem, w.mounts[id], tune), result.changed;
      }
      if !needed {
        assert (w.mounts, Some(result)) == Mounts.EnsureMount(sem, w.mounts, id, m, uuid, Done);
        Ensured(sem, w.mounts, id, m, w.mounts, Some(result), uuid, Done);
        return Some(result);
      }
      var fate := Pick();
      ghost var before := w.mounts;
      if !fate.NotDone? {
        w := w.(mounts := w.mounts[id := after]);
      }
      res := if fate.Done? then Some(result) else None;
      assert (w.mounts, res) == Mounts.EnsureMount(sem, before, id, m, uuid, fate);
      Ensured(sem, before, id, m, w.mounts, res, uuid, fate);
      EnsuredRunsDeclared(sem, before, id, m, uuid, fate);
      log := log + [Attempt(EnsuredMount(id), res.Some?)];
    }

    /** ReloadPlugin */
    method ReloadPlugin(name: string) returns (ok: bool)
      modifies `log, `faults
      ensures faults == old(faults) + if ok then 0 else 1
      ensures log == old(log) + [Attempt(Reloaded(name), ok)]
    {
      var fate := Pick();
      ok := fate.Done?;
      log := log + [Attempt(Reloaded(name), ok)];
    }

    /** WriteEngineConfig */
    method WriteEngineConfig(key: string) returns (ok: bool)
      modifies `log, `faults
      ensures faults == old(faults) + if ok then 0 else 1
      ensures log == old(log) + [Attempt(WroteConfig(key), ok)]
    {
      var fate := Pick();
      ok := fate.Done?;
      log := log + [Attempt(WroteConfig(key), ok)];
    }

    /** The create of the state Secret, with no record. */
    method CreateState() returns (ok: bool)
      requires w.records.None?
      modifies `w, `log, `faults
      ensures faults == old(faults) + if ok then 0 else 1
      ensures w == old(w) || w == old(w).(records := Some(map[]))
      ensures ok ==> w.records == Some(map[])
      ensures log == old(log) + [Attempt(CreatedState, ok)]
    {
      var fate := Pick();
      if !fate.NotDone? {
        w := w.(records := Some(map[]));
      }
      ok := fate.Done?;
      log := log + [Attempt(CreatedState, ok)];
    }

    /** The save of the engine config records. */
    method SaveRecords(records: EngineConfigs.Records) returns (ok: bool)
      modifies `w, `log, `faults
      ensures faults == old(faults) + if ok then 0 else 1
      ensures w == old(w) || w == old(w).(records := Some(records))
      ensures ok ==> w.records == Some(records)
      ensures log == old(log) + [Attempt(SavedRecords, ok)]
    {
      var fate := Pick();
      if !fate.NotDone? {
        w := w.(records := Some(records));
      }
      ok := fate.Done?;
      log := log + [Attempt(SavedRecords, ok)];
    }

    /** EnsureRole: the role is read only if its key set is the remembered one. */
    method EnsureRole(path: string, data: Body) returns (ok: bool)
      requires Valid()
      modifies `w, `log, `faults, `unread, client
      ensures faults >= old(faults) && (faults == old(faults) ==> ok && unread == old(unread))
      ensures w == old(w).(plugin := w.plugin)
      ensures old(unread) <= unread && old(log) <= log
      ensures RoleEnsured(rd, old(RoleWrites.Session(client.roleKeys, w.plugin)),
                          RoleWrites.Session(client.roleKeys, w.plugin),
                          path, data, ok, unread[|old(unread)|..], log[|old(log)|..])
    {
      ghost var before := RoleWrites.Session(client.roleKeys, w.plugin);
      var readable := true;
      var remembered := client.SameRoleKeysAsLastWrite(path, data);
      if remembered {
        var read := Pick();
        readable := read.Done?;
      }
      if !readable {
        unread := unread + [path];
      }
      var fate: Fate := *;
      var after, report := client.EnsureRole(w.plugin, path, data, readable, fate);
      w := w.(plugin := after);
      ok := !report.Failed?;
      if !report.Unchanged? {
        faults := faults + if ok then 0 else 1;
      }
      if !report.Unchanged? {
        log := log + [Attempt(WroteRole(path), ok)];
      }
      RoleDone(rd, before, path, data, readable, fate);
      assert unread[|old(unread)|..] == if readable then [] else [path];
      assert log[|old(log)|..] == if report.Unchanged? then [] else [Attempt(WroteRole(path), ok)];
    }

    /** ListRoles */
    method ListRoles(under: string) returns (names: Option<set<string>>)
      modifies `faults
      ensures faults == old(faults) + if names.Some? then 0 else 1
      ensures names.Some? ==> names.value == Listed(w.plugin.roles, under)
    {
      var read := Pick();
      names := if read.Done? then Some(Listed(w.plugin.roles, under)) else None;
    }

    /** DeleteRole: a missing role is deleted already. */
    method DeleteRole(path: string) returns (ok: bool)
      modifies `w, `log, `faults
      ensures faults == old(faults) + if ok then 0 else 1
      ensures w == old(w).(plugin := old(w.plugin).(roles := w.plugin.roles))
      ensures w.plugin.roles == old(w.plugin.roles) || w.plugin.roles == old(w.plugin.roles) - {path}
      ensures ok ==> path !in w.plugin.roles
      ensures log == old(log) + [Attempt(DeletedRole(path), ok)]
    {
      var fate := Pick();
      if !fate.NotDone? {
        w := w.(plugin := w.plugin.(roles := w.plugin.roles - {path}));
      }
      ok := fate.Done?;
      log := log + [Attempt(DeletedRole(path), ok)];
    }

    /** ListManagedMounts */
    method ListManagedMounts() returns (managed: Option<map<MountId, Live>>)
      modifies `faults
      ensures faults == old(faults) + if managed.Some? then 0 else 1
      ensures managed.Some? ==> managed.value == ManagedMounts(w.mounts)
    {
      var read := Pick();
      managed := if read.Done? then Some(ManagedMounts(w.mounts)) else None;
    }

    /** DisableMount: a missing mount is disabled already. */
    method DisableMount(id: MountId) returns (ok: bool)
      modifies `w, `log, `faults
      ensures faults == old(faults) + if ok then 0 else 1
      ensures w == old(w).(mounts := w.mounts)
      ensures w.mounts == old(w.mounts) || w.mounts == old(w.mounts) - {id}
      ensures ok ==> id !in w.mounts
      ensures log == old(log) + [Attempt(Unmounted(id), ok)]
    {
      var fate := Pick();
      if !fate.NotDone? {
        w := w.(mounts := w.mounts - {id});
      }
      ok := fate.Done?;
      log := log + [Attempt(Unmounted(id), ok)];
    }

    /** DeregisterPlugin: a missing version is deregistered already. */
    method DeregisterPlugin(id: PluginId) returns (ok: bool)
      modifies `w, `log, `faults
      ensures faults == old(faults) + if ok then 0 else 1
      ensures w == old(w).(catalog := w.catalog)
      ensures w.catalog == old(w.catalog) || w.catalog == old(w.catalog) - {id}
      ensures ok ==> id !in w.catalog
      ensures log == old(log) + [Attempt(Deregistered(id), ok)]
    {
      var fate := Pick();
      if !fate.NotDone? {
        w := w.(catalog := w.catalog - {id});
      }
      ok := fate.Done?;
      log := log + [Attempt(Deregistered(id), ok)];
    }

    /** RemoveFile: a missing file is removed already. */
    method RemoveFile(pod: string, file: string) returns (ok: bool)
      modifies `w, `log, `faults
      ensures faults == old(faults) + if ok then 0 else 1
      ensures w == old(w).(files := w.files)
      ensures w.files == old(w.files) || w.files == old(w.files) - {(pod, file)}
      ensures ok ==> (pod, file) !in w.files
      ensures log == old(log) + [Attempt(RemovedFile(pod, file), ok)]
    {
      var fate := Pick();
      if !fate.NotDone? {
        w := w.(files := w.files - {(pod, file)});
      }
      ok := fate.Done?;
      log := log + [Attempt(RemovedFile(pod, file), ok)];
    }
  }

  /** What one EnsureRole call does: it follows EnsureStep, `unread` is the path if a read was made and failed, and
      `sent` is its write, if it made one. */
  ghost predicate RoleEnsured(rd: Reader, before: RoleWrites.Session, after: RoleWrites.Session, path: string,
                              data: Body, ok: bool, unread: seq<string>, sent: seq<Attempt>)
  {
    exists readable, fate :: RoleEnsuredBy(rd, before, after, path, data, ok, unread, sent, readable, fate)
  }

  ghost predicate RoleEnsuredBy(rd: Reader, before: RoleWrites.Session, after: RoleWrites.Session, path: string,
                                data: Body, ok: bool, unread: seq<string>, sent: seq<Attempt>, readable: bool,
                                fate: Fate)
  {
    var step := RoleWrites.EnsureStep(rd, before, path, data, readable, fate);
    && after == step.0 && ok == !step.1.Failed?
    && (!readable ==> path in before.roleKeys && before.roleKeys[path] == RoleWrites.RoleKeySet(data.Keys))
    && unread == (if readable then [] else [path])
    && sent == (if step.1.Unchanged? then [] else [Attempt(WroteRole(path), ok)])
  }

  lemma {:induction false} RoleDone(rd: Reader, before: RoleWrites.Session, path: string, data: Body, readable: bool,
                                    fate: Fate)
    requires !readable ==> path in before.roleKeys && before.roleKeys[path] == RoleWrites.RoleKeySet(data.Keys)
    ensures var step := RoleWrites.EnsureStep(rd, before, path, data, readable, fate);
            RoleEnsured(rd, before, step.0, path, data, !step.1.Failed?, if readable then [] else [path],
                        if step.1.Unchanged? then [] else [Attempt(WroteRole(path), !step.1.Failed?)])
  {
    var step := RoleWrites.EnsureStep(rd, before, path, data, readable, fate);
    assert RoleEnsuredBy(rd, before, step.0, path, data, !step.1.Failed?, if readable then [] else [path],
                         if step.1.Unchanged? then [] else [Attempt(WroteRole(path), !step.1.Failed?)], readable, fate);
  }

  /** A mount that was there is there, with its plugin. */
  ghost predicate PluginsStay(before: map<MountId, Live>, after: map<MountId, Live>) {
    forall id :: id in before ==> id in after && after[id].plugin == before[id].plugin
  }

  /** What an EnsureMount call can leave: its listing failed, or it did what Mounts.EnsureMount says. */
  ghost predicate MountEnsured(sem: Semantics, before: map<MountId, Live>, id: MountId, m: Mount,
                               after: map<MountId, Live>, res: Option<MountResult>)
  {
    || (res.None? && after == before)
    || exists uuid, fate :: uuid != "" && (after, res) == Mounts.EnsureMount(sem, before, id, m, uuid, fate)
  }

  lemma {:induction false} Ensured(sem: Semantics, before: map<MountId, Live>, id: MountId, m: Mount,
                                   after: map<MountId, Live>, res: Option<MountResult>, uuid: string, fate: Fate)
    requires uuid != "" && (after, res) == Mounts.EnsureMount(sem, before, id, m, uuid, fate)
    ensures MountEnsured(sem, before, id, m, after, res)
  {
  }
}
