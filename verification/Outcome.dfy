/** What the outcome of a pass means, declaration by declaration: internal/reconcile/reconcile.go with the client code
behind it. */
module Outcome {
  import opened Requests
  import opened RoleValues
  import opened Strings
  import opened Specs
  import opened Mounts
  import opened Cluster
  import opened Phases
  import opened Pruning
  import opened Leftovers
  import opened Reconcile
  import EngineConfigs
  import EngineConfigRuns

  // ----- One declaration -----

  /** The binary is on every pod with the checksum of the artifact, and registered. */
  ghost predicate BinaryStands(w: World, c: CatalogEntry) {
    && c.ptype in {"secret", "auth", "database"} && c.source in w.artifacts
    && (forall pod :: pod in w.pods ==> && (pod, c.name + "-" + c.version) in w.files
                                        && w.files[(pod, c.name + "-" + c.version)] == w.artifacts[c.source])
    && RegisteredIn(w.catalog, c, w.artifacts[c.source])
  }

  /** At this place is a mount of the declared version and, if it carries the marker, with the declared description and
      options. */
  ghost predicate MountAt(mounts: map<MountId, Live>, m: Mount, id: MountId) {
    && id.mtype == m.mtype && !id.mtype.Database? && IsTrimOf(m.path, id.path)
    && id in mounts && EqualUpToV(mounts[id].version, m.version)
    && (Marked(mounts[id].options) ==>
          mounts[id].description == m.description && ReadsDeclared(mounts[id].options, m.options))
  }

  ghost predicate MountStands(mounts: map<MountId, Live>, m: Mount) {
    exists id :: MountAt(mounts, m, id)
  }

  /** The body's digest is recorded under the UUID its mount has now. */
  ghost predicate ConfigStands(w: World, e: EngineConfigs.Resolved) {
    var id := MountId(MountType.Secret, e.mount);
    && id in w.mounts && w.mounts[id].uuid != "" && w.records.Some?
    && e.key in w.records.value && w.records.value[e.key] == EngineConfigs.Record(e.digest, w.mounts[id].uuid)
  }

  ghost predicate AllConfigsStand(w: World, built: seq<EngineConfigs.Resolved>) {
    forall e :: e in built ==> ConfigStands(w, e)
  }

  /** The role reads back as declared and its key set is remembered. */
  ghost predicate RoleStands(rd: Reader, s: View, r: RoleEntry) {
    exists mount :: IsTrimOf(r.mount, mount)
      && PathSettled(rd, s.keys, s.w.plugin.roles, mount + "/" + r.rolesPath + "/" + r.name, r.data)
  }

  // ----- All of them -----

  lemma {:induction false} BinaryStandsIff(w: World, c: CatalogEntry)
    ensures EntrySettled(w, c) <==> BinaryStands(w, c)
  {
    if c.source in w.artifacts {
      RegisteredIff(w.catalog, c, w.artifacts[c.source]);
    }
  }

  lemma {:induction false} MountStandsIff(mounts: map<MountId, Live>, m: Mount)
    ensures MountSettled(mounts, m) <==> MountStands(mounts, m)
  {
    forall id: MountId
      ensures id == IdOf(m) <==> id.mtype == m.mtype && IsTrimOf(m.path, id.path)
    {
      TrimSlashesIsTheTrim(m.path, id.path);
    }
    if IdOf(m) in mounts {
      ConformsIff(mounts[IdOf(m)], m);
      assert MountSettled(mounts, m) ==> MountAt(mounts, m, IdOf(m));
    }
  }

  lemma {:induction false} ConfigsStandIff(codec: EngineConfigs.Codec, w: World, es: seq<EngineConfigEntry>)
    ensures EnginesSettled(codec, w, es) <==>
              exists built :: AllBuiltFrom(codec, w, es, built) && AllConfigsStand(w, built)
  {
    forall built
      ensures EngineConfigRuns.ResolveAll(codec, es, w.secrets) == Some(built) <==> AllBuiltFrom(codec, w, es, built)
    {
      EngineConfigRuns.ResolvedAllIffBuilt(codec, es, w.secrets, built);
    }
    var r := EngineConfigRuns.ResolveAll(codec, es, w.secrets);
    if r.Some? {
      BuiltStandIff(w, r.value);
    }
  }

  ghost predicate AllBuiltFrom(codec: EngineConfigs.Codec, w: World, es: seq<EngineConfigEntry>,
                               built: seq<EngineConfigs.Resolved>)
  {
    EngineConfigRuns.AllBuiltFrom(codec, es, w.secrets, built)
  }

  lemma {:induction false} BuiltStandIff(w: World, built: seq<EngineConfigs.Resolved>)
    ensures EngineConfigs.MountsKnown(built, Uuids(w.mounts))
            && EngineConfigs.Pending(Recorded(w), built, Uuids(w.mounts)) == [] <==>
              AllConfigsStand(w, built)
  {
    forall e | e in built
      ensures e.mount in Uuids(w.mounts) <==> MountId(MountType.Secret, e.mount) in w.mounts
      ensures e.mount in Uuids(w.mounts) ==>
                Uuids(w.mounts)[e.mount] == w.mounts[MountId(MountType.Secret, e.mount)].uuid
    {
      UuidOf(w.mounts, e.mount);
    }
    if EngineConfigs.MountsKnown(built, Uuids(w.mounts)) {
      EngineConfigs.NothingPendingIffAllRecorded(Recorded(w), built, Uuids(w.mounts));
    }
  }

  lemma {:induction false} RoleStandsIff(rd: Reader, s: View, r: RoleEntry)
    ensures PathSettled(rd, s.keys, s.w.plugin.roles, RolePath(r), r.data) <==> RoleStands(rd, s, r)
  {
    forall mount
      ensures IsTrimOf(r.mount, mount) <==> mount == TrimSlashes(r.mount)
    {
      TrimSlashesIsTheTrim(r.mount, mount);
    }
    assert IsTrimOf(r.mount, TrimSlashes(r.mount));
    assert RolePath(r) == TrimSlashes(r.mount) + "/" + r.rolesPath + "/" + r.name;
  }

  /** Everything declared stands iff there are pods, every binary is on all of them and registered, every mount is there
      as declared, every engine config is recorded as it is declared now, and every role reads back. */
  lemma {:induction false} StandingIff(codec: EngineConfigs.Codec, rd: Reader, s: View, d: Desired)
    ensures Standing(codec, rd, s, d) <==>
              && s.w.pods != []
              && (forall c :: c in d.catalog ==> BinaryStands(s.w, c))
              && (forall m :: m in d.mounts ==> MountStands(s.w.mounts, m))
              && (exists built :: AllBuiltFrom(codec, s.w, d.engines, built) && AllConfigsStand(s.w, built))
              && (forall r :: r in d.roles ==> RoleStands(rd, s, r))
  {
    forall c
      ensures EntrySettled(s.w, c) <==> BinaryStands(s.w, c)
    {
      BinaryStandsIff(s.w, c);
    }
    assert CatalogSettled(s.w, d.catalog) <==> forall c :: c in d.catalog ==> EntrySettled(s.w, c);
    forall m
      ensures MountSettled(s.w.mounts, m) <==> MountStands(s.w.mounts, m)
    {
      MountStandsIff(s.w.mounts, m);
    }
    ConfigsStandIff(codec, s.w, d.engines);
    forall r
      ensures PathSettled(rd, s.keys, s.w.plugin.roles, RolePath(r), r.data) <==> RoleStands(rd, s, r)
    {
      RoleStandsIff(rd, s, r);
    }
  }

  // ----- When a pass can succeed, and what it reloads -----

  /** The mount of an engine config has a UUID, or is missing and declared. */
  ghost predicate UuidToBe(d: Desired, mounts: map<MountId, Live>, path: string) {
    var id := MountId(MountType.Secret, path);
    if id in mounts then mounts[id].uuid != "" else PlaceDeclared(d, id)
  }

  /** Without a failing request a pass succeeds iff there are pods, every binary can be had and is of a type Vault has,
      no mount is of type database, and every engine config can be built and will have a mount with a UUID. */
  lemma {:induction false} FeasibleIff(codec: EngineConfigs.Codec, w: World, d: Desired)
    ensures Feasible(codec, w, d) <==>
              && w.pods != []
              && (forall c :: c in d.catalog ==> c.ptype in {"secret", "auth", "database"} && c.source in w.artifacts)
              && (forall m :: m in d.mounts ==> m.mtype != Database)
              && exists built: seq<EngineConfigs.Resolved> :: AllBuiltFrom(codec, w, d.engines, built)
                   && forall e :: e in built ==> UuidToBe(d, w.mounts, e.mount)
  {
    forall built
      ensures EngineConfigRuns.ResolveAll(codec, d.engines, w.secrets) == Some(built)
         <==> AllBuiltFrom(codec, w, d.engines, built)
    {
      EngineConfigRuns.ResolvedAllIffBuilt(codec, d.engines, w.secrets, built);
    }
    forall path
      ensures WillHaveUuid(d, w.mounts, path) <==> UuidToBe(d, w.mounts, path)
    {
      DeclaredIdIff(d, MountId(MountType.Secret, path));
    }
  }

  /** The mount is missing, or its version or its options are not as declared. */
  ghost predicate NotInPlace(mounts: map<MountId, Live>, m: Mount) {
    forall id :: id in mounts && id.mtype == m.mtype && IsTrimOf(m.path, id.path) ==>
      !EqualUpToV(mounts[id].version, m.version)
        || (Marked(mounts[id].options) && !ReadsDeclared(mounts[id].options, m.options))
  }

  ghost predicate NotRegistered(w: World, c: CatalogEntry) {
    c.source in w.artifacts ==> !RegisteredIn(w.catalog, c, w.artifacts[c.source])
  }

  /** A pass owes a reload to exactly the plugins that were not registered as declared and those of mounts that were
      missing or had a version or an option off. */
  lemma {:induction false} StirredIff(w: World, d: Desired, plugin: string)
    ensures plugin in Stirred(w, d) <==>
              || (exists c :: c in d.catalog && c.name == plugin && NotRegistered(w, c))
              || exists m :: m in d.mounts && m.plugin == plugin && NotInPlace(w.mounts, m)
  {
    forall c
      ensures Unregistered(w, c) <==> NotRegistered(w, c)
    {
      if c.source in w.artifacts {
        RegisteredIff(w.catalog, c, w.artifacts[c.source]);
      }
    }
    forall m
      ensures Moves(w.mounts, m) <==> NotInPlace(w.mounts, m)
    {
      MovesIff(w.mounts, m);
    }
  }

  lemma {:induction false} MovesIff(mounts: map<MountId, Live>, m: Mount)
    ensures Moves(mounts, m) <==> NotInPlace(mounts, m)
  {
    forall id: MountId
      ensures id == IdOf(m) <==> id.mtype == m.mtype && IsTrimOf(m.path, id.path)
    {
      TrimSlashesIsTheTrim(m.path, id.path);
    }
    if IdOf(m) in mounts {
      ConformsIff(mounts[IdOf(m)].(description := m.description), m);
    }
  }

  // ----- What a pass may try to destroy -----

  /** A pass may try to destroy exactly what is undeclared: abandoned mounts, the registrations of dropped versions, and
      in full mode their files and the undeclared entries of declared places. */
  lemma {:induction false} AllowedIff(d: Desired, mounts: map<MountId, Live>, e: Effect)
    ensures Allowed(d, mounts, e) <==>
              match e
              case Unmounted(id) => d.pruneMode != "never" && Abandoned(d, mounts, id)
              case Deregistered(p) => d.pruneMode != "never" && exists id :: DroppedRegistration(d, mounts, id, p)
              case RemovedFile(_, file) => d.pruneMode == "full" && exists id :: DroppedFile(d, mounts, id, file)
              case DeletedRole(path) =>
                d.pruneMode == "full" && exists name :: ListEntry(name) && UndeclaredRole(d, mounts, path, name)
              case _ => true
  {
    match e
    case Unmounted(id) => StaleIff(d, mounts, id);
    case Deregistered(p) => PruneEffectIff(d, mounts, p, "", "");
    case RemovedFile(pod, file) => PruneEffectIff(d, mounts, PluginId("", "", ""), pod, file);
    case DeletedRole(path) => PrunableIff(d, mounts, path);
    case _ =>
  }

  // ----- What converged means -----

  /** Nothing that the prune would remove: in full mode no entry is listed at a declared place on a marked mount that
      the place does not declare, and, unless the prune is off, every marked mount is declared. */
  lemma {:induction false} NothingToPruneIff(w: World, d: Desired)
    ensures NothingToPrune(w, d) <==>
              && (d.pruneMode == "full" ==> OnlyDeclaredListed(w, d))
              && (d.pruneMode != "never" ==>
                    forall id :: id in w.mounts && Marked(w.mounts[id].options) ==> PlaceDeclared(d, id))
  {
    QuietIff(w, d);
    forall id
      ensures id in IdsOf(d.mounts) <==> PlaceDeclared(d, id)
      ensures id in w.mounts ==> (IsManaged(w.mounts[id].options) <==> Marked(w.mounts[id].options))
    {
      DeclaredIdIff(d, id);
      if id in w.mounts {
        MarkedIff(w.mounts[id].options);
      }
    }
  }

  ghost predicate MarkedPath(mounts: map<MountId, Live>, path: string) {
    exists id: MountId :: id in mounts && id.path == path && Marked(mounts[id].options)
  }

  /** A LIST of `under` answers `name`: a role is there, or a deeper one below the folder `name`. */
  ghost predicate ListedAt(roles: map<string, Body>, under: string, name: string) {
    exists rest :: under + "/" + rest in roles && Answers(rest, name)
  }

  ghost predicate Answers(rest: string, name: string) {
    if '/' in rest then name <= rest && name != "" && name[|name| - 1] == '/' && '/' !in name[..|name| - 1]
    else name == rest
  }

  lemma {:induction false} FirstFolderIff(rest: string, name: string)
    requires '/' in rest
    ensures name == FirstFolder(rest) <==> Answers(rest, name)
  {
    if rest[0] != '/' {
      assert rest == [rest[0]] + rest[1..];
      FirstFolderIff(rest[1..], FirstFolder(rest[1..]));
      if name != "" {
        FirstFolderIff(rest[1..], name[1..]);
        assert name == [name[0]] + name[1..];
      }
    }
  }

  lemma {:induction false} Below(under: string, rest: string)
    ensures under + "/" <= under + "/" + rest && (under + "/" + rest)[|under| + 1..] == rest
  {
  }

  lemma {:induction false} SplitBelow(under: string, path: string)
    requires under + "/" <= path
    ensures path == under + "/" + path[|under| + 1..]
  {
  }

  lemma {:induction false} ListedIff(roles: map<string, Body>, under: string, name: string)
    ensures name in Listed(roles, under) <==> ListedAt(roles, under, name)
  {
    if name in Listed(roles, under) {
      var path :| path in roles && under + "/" <= path
        && name == if '/' in path[|under| + 1..] then FirstFolder(path[|under| + 1..]) else path[|under| + 1..];
      ListedIsAnswered(roles, under, path, name);
    }
    if ListedAt(roles, under, name) {
      var rest :| under + "/" + rest in roles && Answers(rest, name);
      AnsweredIsListed(roles, under, rest, name);
    }
  }

  lemma {:induction false} ListedIsAnswered(roles: map<string, Body>, under: string, path: string, name: string)
    requires path in roles && under + "/" <= path
    requires name == if '/' in path[|under| + 1..] then FirstFolder(path[|under| + 1..]) else path[|under| + 1..]
    ensures ListedAt(roles, under, name)
  {
    var rest := path[|under| + 1..];
    SplitBelow(under, path);
    if '/' in rest {
      FirstFolderIff(rest, name);
    }
    assert under + "/" + rest in roles && Answers(rest, name);
  }

  lemma {:induction false} AnsweredIsListed(roles: map<string, Body>, under: string, rest: string, name: string)
    requires under + "/" + rest in roles && Answers(rest, name)
    ensures name in Listed(roles, under)
  {
    var path := under + "/" + rest;
    Below(under, rest);
    if '/' in rest {
      FirstFolderIff(rest, name);
      assert Deeper(path, under);
    }
  }

  /** A declared place on a marked mount, and what it declares. */
  lemma {:induction false} PlaceIff(w: World, d: Desired, spot: (string, string))
    ensures spot in ManagedSpots(w, DesiredNames(d.roles)) <==>
              && MarkedPath(w.mounts, spot.0)
              && exists r :: r in d.roles && IsTrimOf(r.mount, spot.0) && r.rolesPath == spot.1
    ensures spot in ManagedSpots(w, DesiredNames(d.roles)) ==>
              forall name :: name in DesiredNames(d.roles)[spot] <==> NamedAt(d.roles, spot.0, spot.1, name)
  {
    DesiredNamesAre(d.roles, spot);
    forall r: RoleEntry
      ensures Spot(r) == spot <==> IsTrimOf(r.mount, spot.0) && r.rolesPath == spot.1
    {
      TrimSlashesIsTheTrim(r.mount, spot.0);
    }
    forall id | id in w.mounts
      ensures IsManaged(w.mounts[id].options) <==> Marked(w.mounts[id].options)
    {
      MarkedIff(w.mounts[id].options);
    }
    assert spot.0 in PathsOf(ManagedMounts(w.mounts).Keys) <==> MarkedPath(w.mounts, spot.0);
  }

  lemma {:induction false} QuietIff(w: World, d: Desired)
    ensures RolesQuiet(w, DesiredNames(d.roles)) <==> OnlyDeclaredListed(w, d)
  {
    var desired := DesiredNames(d.roles);
    if OnlyDeclaredListed(w, d) {
      forall spot, name | spot in ManagedSpots(w, desired) && name in Listed(w.plugin.roles, SpotPath(spot))
        ensures name in desired[spot]
      {
        PlaceIff(w, d, spot);
        ListedIff(w.plugin.roles, SpotPath(spot), name);
        var r :| r in d.roles && IsTrimOf(r.mount, spot.0) && r.rolesPath == spot.1;
        assert SpotPath(spot) == spot.0 + "/" + r.rolesPath;
      }
    }
    if RolesQuiet(w, desired) {
      forall r, mount, name | r in d.roles && IsTrimOf(r.mount, mount) && MarkedPath(w.mounts, mount)
                              && ListedAt(w.plugin.roles, mount + "/" + r.rolesPath, name)
        ensures NamedAt(d.roles, mount, r.rolesPath, name)
      {
        var spot := (mount, r.rolesPath);
        PlaceIff(w, d, spot);
        ListedIff(w.plugin.roles, SpotPath(spot), name);
        assert SpotQuiet(w.plugin.roles, desired, spot);
      }
    }
  }

  /** Every entry listed at a declared place on a marked mount is declared there. */
  ghost predicate OnlyDeclaredListed(w: World, d: Desired) {
    forall r, mount, name ::
      && r in d.roles && IsTrimOf(r.mount, mount) && MarkedPath(w.mounts, mount)
      && ListedAt(w.plugin.roles, mount + "/" + r.rolesPath, name) ==>
        NamedAt(d.roles, mount, r.rolesPath, name)
  }

  /** Every record is of a declared engine config. */
  lemma {:induction false} NoStaleRecordsIff(w: World, es: seq<EngineConfigEntry>)
    ensures NoStaleRecords(w, es) <==>
              (w.records.Some? ==>
                 forall key :: key in w.records.value ==> exists e :: e in es && key == e.mount + "/" + e.path)
  {
    forall e: EngineConfigEntry
      ensures EngineConfigs.EntryKey(e) == e.mount + "/" + e.path
    {
    }
  }

  // ----- What a pass is promised for -----

  /** Two catalog entries share neither registration nor file. */
  ghost predicate BinariesDiffer(a: CatalogEntry, b: CatalogEntry) {
    && !(a.ptype == b.ptype && a.name == b.name && EqualUpToV(a.version, b.version))
    && a.name + "-" + a.version != b.name + "-" + b.version
  }

  ghost predicate PlacesDiffer(a: Mount, b: Mount) {
    forall path :: IsTrimOf(a.path, path) && IsTrimOf(b.path, path) ==> a.mtype != b.mtype
  }

  /** The path of a role's place, and of the role. */
  ghost predicate KeptAt(r: RoleEntry, place: string) {
    exists mount :: IsTrimOf(r.mount, mount) && place == mount + "/" + r.rolesPath
  }

  ghost predicate RolesDiffer(a: RoleEntry, b: RoleEntry) {
    forall p, q :: KeptAt(a, p) && KeptAt(b, q) ==> p + "/" + a.name != q + "/" + b.name
  }

  /** Every engine config, mount, role and binary is declared once. */
  lemma {:induction false} DeclaredOnceIff(d: Desired)
    ensures DistinctCatalog(d.catalog) <==>
              forall i, j :: 0 <= i < j < |d.catalog| ==> BinariesDiffer(d.catalog[i], d.catalog[j])
    ensures DistinctMounts(d.mounts) <==>
              forall i, j :: 0 <= i < j < |d.mounts| ==> PlacesDiffer(d.mounts[i], d.mounts[j])
    ensures DistinctEngines(d.engines) <==>
              forall i, j :: 0 <= i < j < |d.engines| ==>
                d.engines[i].mount + "/" + d.engines[i].path != d.engines[j].mount + "/" + d.engines[j].path
    ensures DistinctPaths(d.roles) <==>
              forall i, j :: 0 <= i < j < |d.roles| ==> RolesDiffer(d.roles[i], d.roles[j])
  {
    forall a: CatalogEntry, b: CatalogEntry
      ensures BinariesDiffer(a, b) <==>
              CatalogIdOf(a) != CatalogIdOf(b) && FileName(a.name, a.version) != FileName(b.name, b.version)
    {
      SameVersionIff(a.version, b.version);
    }
    forall a, b
      ensures PlacesDiffer(a, b) <==> IdOf(a) != IdOf(b)
    {
      PlacesDifferIff(a, b);
    }
    forall a, b
      ensures RolesDiffer(a, b) <==> RolePath(a) != RolePath(b)
    {
      RolesDifferIff(a, b);
    }
  }

  lemma {:induction false} PlacesDifferIff(a: Mount, b: Mount)
    ensures PlacesDiffer(a, b) <==> IdOf(a) != IdOf(b)
  {
    forall p, path
      ensures IsTrimOf(p, path) <==> path == TrimSlashes(p)
    {
      TrimSlashesIsTheTrim(p, path);
    }
    assert IsTrimOf(a.path, TrimSlashes(a.path));
  }

  lemma {:induction false} KeptAtIff(r: RoleEntry, place: string)
    ensures KeptAt(r, place) <==> place == SpotPath(Spot(r))
  {
    forall mount
      ensures IsTrimOf(r.mount, mount) <==> mount == TrimSlashes(r.mount)
    {
      TrimSlashesIsTheTrim(r.mount, mount);
    }
    assert IsTrimOf(r.mount, TrimSlashes(r.mount));
  }

  lemma {:induction false} RolesDifferIff(a: RoleEntry, b: RoleEntry)
    ensures RolesDiffer(a, b) <==> RolePath(a) != RolePath(b)
  {
    forall r, place
      ensures KeptAt(r, place) <==> place == SpotPath(Spot(r))
    {
      KeptAtIff(r, place);
    }
    assert KeptAt(a, SpotPath(Spot(a))) && KeptAt(b, SpotPath(Spot(b)));
  }

  /** Nothing declared can be taken for something else: engine configs are on declared secret mounts, role names are
      segments, places of one path are one, and no marked mount runs a binary named like another plugin's. */
  lemma {:induction false} UnambiguousIff(d: Desired, mounts: map<MountId, Live>)
    ensures EnginesOnDeclaredMounts(d) <==>
              forall e :: e in d.engines ==> PlaceDeclared(d, MountId(MountType.Secret, e.mount))
    ensures RolesApart(d.roles) <==>
              && (forall r :: r in d.roles ==> r.name != "" && '/' !in r.name)
              && forall r, s :: r in d.roles && s in d.roles ==> OneIfSamePath(r, s)
    ensures FilesApart(d, mounts) <==>
              forall id, c :: id in mounts && Marked(mounts[id].options) && c in d.catalog ==>
                mounts[id].plugin + "-" + mounts[id].version == c.name + "-" + c.version ==> mounts[id].plugin == c.name
  {
    forall id
      ensures id in IdsOf(d.mounts) <==> PlaceDeclared(d, id)
      ensures id in mounts ==> (IsManaged(mounts[id].options) <==> Marked(mounts[id].options))
    {
      DeclaredIdIff(d, id);
      if id in mounts {
        MarkedIff(mounts[id].options);
      }
    }
    forall r: RoleEntry, s: RoleEntry
      ensures (SpotPath(Spot(r)) == SpotPath(Spot(s)) ==> Spot(r) == Spot(s)) <==> OneIfSamePath(r, s)
    {
      OneIfSamePathIff(r, s);
    }
  }

  /** If the places of two roles have one path, they are one. */
  ghost predicate OneIfSamePath(r: RoleEntry, s: RoleEntry) {
    forall place :: KeptAt(r, place) && KeptAt(s, place) ==> r.rolesPath == s.rolesPath
  }

  lemma {:induction false} OneIfSamePathIff(r: RoleEntry, s: RoleEntry)
    ensures (SpotPath(Spot(r)) == SpotPath(Spot(s)) ==> Spot(r) == Spot(s)) <==> OneIfSamePath(r, s)
  {
    forall place
      ensures KeptAt(r, place) <==> place == SpotPath(Spot(r))
      ensures KeptAt(s, place) <==> place == SpotPath(Spot(s))
    {
      KeptAtIff(r, place);
      KeptAtIff(s, place);
    }
    assert KeptAt(r, SpotPath(Spot(r)));
    SameTail(Spot(r), Spot(s));
  }

  lemma {:induction false} SameTail(a: (string, string), b: (string, string))
    ensures SpotPath(a) == SpotPath(b) && a.1 == b.1 ==> a == b
  {
    var x, y := SpotPath(a), SpotPath(b);
    assert |x| == |a.0| + 1 + |a.1| && |y| == |b.0| + 1 + |b.1|;
    assert x[..|a.0|] == a.0 && y[..|b.0|] == b.0;
  }

  /** A declared role has this path. */
  ghost predicate RoleAt(d: Desired, path: string) {
    exists q, place :: q in d.roles && KeptAt(q, place) && path == place + "/" + q.name
  }

  ghost predicate NothingDeeper(d: Desired, paths: set<string>) {
    forall r, place, rest :: r in d.roles && KeptAt(r, place) && '/' in rest ==>
      place + "/" + rest !in paths && !RoleAt(d, place + "/" + rest)
  }

  /** No role, live or declared, is more than one segment below a declared place. */
  lemma {:induction false} PlacesFlatIff(d: Desired, paths: set<string>)
    ensures PlacesFlat(d, paths) <==> NothingDeeper(d, paths)
  {
    if NothingDeeper(d, paths) {
      forall r, p | r in d.roles && p in paths + RolePaths(d.roles)
        ensures !Deeper(p, SpotPath(Spot(r)))
      {
        NotDeeper(d, paths, r, p);
      }
    }
    if PlacesFlat(d, paths) {
      forall r, place, rest | r in d.roles && KeptAt(r, place) && '/' in rest
        ensures place + "/" + rest !in paths && !RoleAt(d, place + "/" + rest)
      {
        NotBelow(d, paths, r, place, rest);
      }
    }
  }

  lemma {:induction false} NotDeeper(d: Desired, paths: set<string>, r: RoleEntry, path: string)
    requires NothingDeeper(d, paths) && r in d.roles && path in paths + RolePaths(d.roles)
    ensures !Deeper(path, SpotPath(Spot(r)))
  {
    var under := SpotPath(Spot(r));
    if Deeper(path, under) {
      SplitBelow(under, path);
      KeptAtIff(r, under);
      RoleAtIff(d, path);
    }
  }

  lemma {:induction false} NotBelow(d: Desired, paths: set<string>, r: RoleEntry, place: string, rest: string)
    requires PlacesFlat(d, paths) && r in d.roles && KeptAt(r, place) && '/' in rest
    ensures place + "/" + rest !in paths && !RoleAt(d, place + "/" + rest)
  {
    var path := place + "/" + rest;
    KeptAtIff(r, place);
    Below(place, rest);
    assert Deeper(path, place);
    RoleAtIff(d, path);
    assert path !in paths + RolePaths(d.roles);
  }

  lemma {:induction false} RoleAtIff(d: Desired, path: string)
    ensures path in RolePaths(d.roles) <==> RoleAt(d, path)
  {
    forall r, place
      ensures KeptAt(r, place) <==> place == SpotPath(Spot(r))
    {
      KeptAtIff(r, place);
    }
    forall r | r in d.roles
      ensures KeptAt(r, SpotPath(Spot(r)))
    {
    }
  }
}
