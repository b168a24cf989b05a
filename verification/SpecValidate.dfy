/** Checking and normalising a spec: internal/config/parse.go. */
module SpecValidate {
  import opened Requests
  import opened RoleValues
  import opened Strings
  import opened Specs
  import EngineConfigs

  const DEFAULT_ROLES_PATH := "roles"
  const DEFAULT_ENGINE_CONFIG_PATH := "config"

  // ----- Subpaths -----

  predicate BadSegment(seg: string) {
    seg == "" || seg == "." || seg == ".."
  }

  /** A path of proper segments. */
  ghost predicate ProperPath(p: string) {
    forall seg :: seg in Split(p, '/') ==> !BadSegment(seg)
  }

  ghost function NormSubPath(p: string, default: string): Option<string> {
    if p == "" then Some(default)
    else if ProperPath(TrimSlashes(p)) then Some(TrimSlashes(p)) else None
  }

  method ComputeNormSubPath(p: string, default: string) returns (r: Option<string>)
    ensures r == NormSubPath(p, default)
  {
    if p == "" {
      return Some(default);
    }
    var trimmed := Trim(p);
    if trimmed == "" {
      assert "" in Split("", '/');
      return None;
    }
    var segs := Split(trimmed, '/');
    for i := 0 to |segs|
      invariant forall k :: 0 <= k < i ==> !BadSegment(segs[k])
    {
      if BadSegment(segs[i]) {
        return None;
      }
    }
    r := Some(trimmed);
  }

  lemma {:induction false} LeadingSlash(p: string)
    requires p != "" && p[0] == '/'
    ensures Split(p, '/')[0] == ""
  {
  }

  lemma {:induction false} LastSegmentEmpty(p: string)
    requires p != "" && p[|p| - 1] == '/'
    ensures |Split(p, '/')| > 1 && Split(p, '/')[|Split(p, '/')| - 1] == ""
  {
    if |p| == 1 {
      assert p[1..] == "";
    } else {
      LastSegmentEmpty(p[1..]);
    }
  }

  /** A proper path is already normal; what is accepted is proper, or the default for an omitted one. */
  lemma {:induction false} NormSubPathIsNormal(p: string, default: string)
    ensures ProperPath(p) ==> NormSubPath(p, default) == Some(p)
    ensures NormSubPath(p, default).Some? && p != "" ==> ProperPath(NormSubPath(p, default).value)
    ensures NormSubPath(p, default).Some? && ProperPath(default) ==>
              var q := NormSubPath(p, default).value;
              ProperPath(q) && forall d :: NormSubPath(q, d) == Some(q)
  {
    ProperPathsAreTrimmed(p);
    if NormSubPath(p, default).Some? && ProperPath(default) {
      ProperPathsAreTrimmed(NormSubPath(p, default).value);
    }
  }

  lemma {:induction false} ProperPathsAreTrimmed(p: string)
    ensures ProperPath(p) ==> p != "" && TrimSlashes(p) == p
  {
    if p == "" {
      assert "" in Split("", '/');
    } else if p[0] == '/' {
      LeadingSlash(p);
      assert Split(p, '/')[0] in Split(p, '/');
    } else if p[|p| - 1] == '/' {
      LastSegmentEmpty(p);
      assert Split(p, '/')[|Split(p, '/')| - 1] in Split(p, '/');
    } else {
      TrimmedStays(p);
    }
  }

  // ----- Engine config data -----

  /** checkEngineValue: no date, and no number that is not finite, at any depth. */
  predicate EngineValueOk(v: Value)
    decreases v
  {
    && !v.Time?
    && (v.Number? ==> v.f.Finite?)
    && (v.List? ==> forall i :: 0 <= i < |v.items| ==> EngineValueOk(v.items[i]))
    && (v.Object? ==> forall k :: k in v.fields ==> EngineValueOk(v.fields[k]))
  }

  predicate EngineDataOk(data: Body) {
    forall k :: k in data ==> EngineValueOk(data[k])
  }

  /** What the entry's body needs: something to write, well named secret fields, no field set twice. */
  predicate BodyOk(data: Body, secretRef: Option<EngineConfigs.SecretRef>) {
    && (data != map[] || secretRef.Some?)
    && (secretRef.Some? ==>
          && secretRef.value.name != "" && secretRef.value.keys != map[]
          && forall f :: f in secretRef.value.keys ==> f != "" && secretRef.value.keys[f] != "" && f !in data)
    && EngineDataOk(data)
  }

  method CheckBody(e: EngineConfigEntry) returns (ok: bool)
    ensures ok == BodyOk(e.data, e.secretRef)
  {
    if e.data == map[] && e.secretRef.None? {
      return false;
    }
    if e.secretRef.Some? {
      var ref := e.secretRef.value;
      if ref.name == "" || ref.keys == map[] {
        return false;
      }
      var left := ref.keys.Keys;
      while left != {}
        invariant left <= ref.keys.Keys
        invariant forall f :: f in ref.keys.Keys - left ==> f != "" && ref.keys[f] != "" && f !in e.data
        decreases left
      {
        var f :| f in left;
        if f == "" || ref.keys[f] == "" || f in e.data {
          return false;
        }
        left := left - {f};
      }
    }
    ok := EngineDataOk(e.data);
  }

  // ----- What Validate accepts -----

  predicate CatalogEntryOk(c: CatalogEntry) {
    c.name != "" && ValidType(c.ptype) && c.version != "" && SourceValid(c.source)
  }

  ghost function PluginNames(catalog: seq<CatalogEntry>): set<string> {
    set c | c in catalog :: c.name
  }

  predicate MountOk(plugins: set<string>, m: MountEntry) {
    m.path != "" && m.plugin != "" && ValidType(m.ptype) && m.version != "" && m.plugin in plugins
  }

  /** The declared mounts: normalised path and type. */
  ghost function Declared(mounts: seq<MountEntry>): set<(string, string)> {
    set m | m in mounts :: (TrimSlashes(m.path), m.ptype)
  }

  ghost function Paths(declared: set<(string, string)>): set<string> {
    set d | d in declared :: d.0
  }

  ghost predicate RoleOk(paths: set<string>, r: RoleEntry) {
    && r.mount != "" && r.name != "" && TrimSlashes(r.mount) in paths
    && r.name != "config" && '/' !in r.name
    && NormSubPath(r.rolesPath, DEFAULT_ROLES_PATH).Some?
  }

  /** A role with its rolesPath normalised, if it can be. */
  ghost function NormRole(r: RoleEntry): RoleEntry {
    var p := NormSubPath(r.rolesPath, DEFAULT_ROLES_PATH);
    if p.Some? then r.(rolesPath := p.value) else r
  }

  ghost function NormRoles(roles: seq<RoleEntry>): (ns: seq<RoleEntry>)
    ensures |ns| == |roles| && forall i :: 0 <= i < |roles| ==> ns[i] == NormRole(roles[i])
  {
    if roles == [] then [] else NormRoles(roles[..|roles| - 1]) + [NormRole(roles[|roles| - 1])]
  }

  ghost predicate EngineOk(declared: set<(string, string)>, e: EngineConfigEntry) {
    && e.mount != "" && (TrimSlashes(e.mount), SECRET) in declared
    && NormSubPath(e.path, DEFAULT_ENGINE_CONFIG_PATH).Some?
    && BodyOk(e.data, e.secretRef)
  }

  /** An engine config with its mount and its path normalised, if it can be. */
  ghost function NormEngine(e: EngineConfigEntry): EngineConfigEntry {
    var p := NormSubPath(e.path, DEFAULT_ENGINE_CONFIG_PATH);
    e.(mount := TrimSlashes(e.mount), path := if p.Some? then p.value else e.path)
  }

  ghost function NormEngines(engines: seq<EngineConfigEntry>): (ns: seq<EngineConfigEntry>)
    ensures |ns| == |engines| && forall i :: 0 <= i < |engines| ==> ns[i] == NormEngine(engines[i])
  {
    if engines == [] then [] else NormEngines(engines[..|engines| - 1]) + [NormEngine(engines[|engines| - 1])]
  }

  /** Where a role's mount keeps roles: normalised mount path and rolesPath. */
  ghost function Spot(r: RoleEntry): (string, string) {
    (TrimSlashes(r.mount), r.rolesPath)
  }

  ghost function Spots(roles: seq<RoleEntry>): (spots: seq<(string, string)>)
    ensures |spots| == |roles| && forall i :: 0 <= i < |roles| ==> spots[i] == Spot(roles[i])
  {
    if roles == [] then [] else Spots(roles[..|roles| - 1]) + [Spot(roles[|roles| - 1])]
  }

  /** The entry's path is, or lies under, a place where its mount keeps roles. */
  predicate Overlaps(e: EngineConfigEntry, spot: (string, string)) {
    spot.0 == e.mount && (e.path == spot.1 || spot.1 + "/" <= e.path)
  }

  ghost predicate Separate(engines: seq<EngineConfigEntry>, spots: seq<(string, string)>) {
    forall e, spot :: e in engines && spot in spots ==> !Overlaps(e, spot)
  }

  ghost predicate UniqueKeys(engines: seq<EngineConfigEntry>) {
    forall i, j :: 0 <= i < j < |engines| ==> EngineConfigs.EntryKey(engines[i]) != EngineConfigs.EntryKey(engines[j])
  }

  ghost predicate EnginesOk(declared: set<(string, string)>, spots: seq<(string, string)>,
                            engines: seq<EngineConfigEntry>)
  {
    && (forall e :: e in engines ==> EngineOk(declared, e))
    && Separate(NormEngines(engines), spots) && UniqueKeys(NormEngines(engines))
  }

  ghost predicate RolesOk(paths: set<string>, roles: seq<RoleEntry>) {
    forall i :: 0 <= i < |roles| ==> RoleOk(paths, roles[i])
  }

  ghost predicate Accepts(settings: Settings, catalog: seq<CatalogEntry>, mounts: seq<MountEntry>,
                    roles: seq<RoleEntry>, engines: seq<EngineConfigEntry>) {
    && SettingsValid(settings)
    && (forall c :: c in catalog ==> CatalogEntryOk(c))
    && (forall m :: m in mounts ==> MountOk(PluginNames(catalog), m))
    && RolesOk(Paths(Declared(mounts)), roles)
    && EnginesOk(Declared(mounts), Spots(NormRoles(roles)), engines)
  }

  // ----- Every reason to reject -----

  ghost predicate SettingsFault(s: Settings) {
    || s.pruneMode !in {"full", "deregister", "never"} || s.logLevel !in {"debug", "info", "warn", "error"}
    || s.resyncInterval <= 0 || s.stallTimeout <= 0 || s.tokenGracePeriod <= 0 || s.watchGracePeriod <= 0
    || s.tokenFailTimeout < s.tokenGracePeriod
  }

  ghost predicate SourceFault(s: Source) {
    || (s.url == "" && s.image == "") || (s.url != "" && s.image != "") || (s.image != "" && s.path == "")
  }

  ghost predicate TypeFault(t: string) {
    t != "secret" && t != "auth" && t != "database"
  }

  ghost predicate CatalogFault(c: CatalogEntry) {
    c.name == "" || TypeFault(c.ptype) || c.version == "" || SourceFault(c.source)
  }

  ghost predicate MountFault(catalog: seq<CatalogEntry>, m: MountEntry) {
    || m.path == "" || m.plugin == "" || TypeFault(m.ptype) || m.version == ""
    || forall c :: c in catalog ==> c.name != m.plugin
  }

  /** A path given, without its outer slashes, has a segment that is empty or a dot or two. */
  ghost predicate PathFault(p: string) {
    p != "" && exists t, seg :: IsTrimOf(p, t) && seg in Split(t, '/') && (seg == "" || seg == "." || seg == "..")
  }

  /** Two paths name one mount. */
  ghost predicate SameMount(a: string, b: string) {
    exists t :: IsTrimOf(a, t) && IsTrimOf(b, t)
  }

  ghost predicate RoleFault(mounts: seq<MountEntry>, r: RoleEntry) {
    || r.mount == "" || r.name == "" || (forall m :: m in mounts ==> !SameMount(m.path, r.mount))
    || r.name == "config" || '/' in r.name || PathFault(r.rolesPath)
  }

  /** A date, or a number that is not finite. */
  ghost predicate Unwritable(w: Value) {
    w.Time? || w == Number(NaN) || w == Number(Infinite(true)) || w == Number(Infinite(false))
  }

  ghost predicate BodyFault(data: Body, secretRef: Option<EngineConfigs.SecretRef>) {
    || (|data| == 0 && secretRef.None?)
    || (secretRef.Some? && (secretRef.value.name == "" || |secretRef.value.keys| == 0))
    || (secretRef.Some? && exists f :: f in secretRef.value.keys
                             && (f == "" || secretRef.value.keys[f] == "" || f in data))
    || exists k, w :: k in data && PartOf(w, data[k]) && Unwritable(w)
  }

  ghost predicate EngineFault(mounts: seq<MountEntry>, e: EngineConfigEntry) {
    || e.mount == "" || (forall m :: m in mounts && m.ptype == "secret" ==> !SameMount(m.path, e.mount))
    || PathFault(e.path) || BodyFault(e.data, e.secretRef)
  }

  /** What a path comes to: the default if it is left out, and what is left without its outer slashes otherwise. */
  ghost predicate ComesTo(p: string, default: string, q: string) {
    if p == "" then q == default else IsTrimOf(p, q)
  }

  /** The Vault path an engine config is written to. */
  ghost predicate WrittenTo(e: EngineConfigEntry, path: string) {
    exists mount, q :: IsTrimOf(e.mount, mount) && ComesTo(e.path, "config", q) && path == mount + "/" + q
  }

  ghost predicate Twice(engines: seq<EngineConfigEntry>) {
    exists i, j, path :: 0 <= i < j < |engines| && WrittenTo(engines[i], path) && WrittenTo(engines[j], path)
  }

  /** An engine config on a role's mount has the path of the roles there, or lies under it. */
  ghost predicate Overlap(r: RoleEntry, e: EngineConfigEntry) {
    exists p, q :: && SameMount(r.mount, e.mount) && ComesTo(e.path, "config", p) && ComesTo(r.rolesPath, "roles", q)
                   && (p == q || q + "/" <= p)
  }

  ghost predicate EntryFault(catalog: seq<CatalogEntry>, mounts: seq<MountEntry>, roles: seq<RoleEntry>,
                             engines: seq<EngineConfigEntry>)
  {
    || (exists c :: c in catalog && CatalogFault(c))
    || (exists m :: m in mounts && MountFault(catalog, m))
    || (exists r :: r in roles && RoleFault(mounts, r))
    || (exists e :: e in engines && EngineFault(mounts, e))
  }

  ghost predicate Clash(roles: seq<RoleEntry>, engines: seq<EngineConfigEntry>) {
    Twice(engines) || exists r, e :: r in roles && e in engines && Overlap(r, e)
  }

  ghost predicate Faulty(settings: Settings, catalog: seq<CatalogEntry>, mounts: seq<MountEntry>, roles: seq<RoleEntry>,
                         engines: seq<EngineConfigEntry>)
  {
    SettingsFault(settings) || EntryFault(catalog, mounts, roles, engines) || Clash(roles, engines)
  }

  lemma {:induction false} TrimsAre()
    ensures forall p, t :: IsTrimOf(p, t) <==> t == TrimSlashes(p)
  {
    forall p, t
      ensures IsTrimOf(p, t) <==> t == TrimSlashes(p)
    {
      TrimSlashesIsTheTrim(p, t);
    }
  }

  lemma {:induction false} PathFaultIff(p: string, default: string)
    ensures PathFault(p) <==> NormSubPath(p, default).None?
    ensures NormSubPath(p, default).Some? ==> forall q :: ComesTo(p, default, q) <==> q == NormSubPath(p, default).value
  {
    TrimsAre();
    assert IsTrimOf(p, TrimSlashes(p));
  }

  lemma {:induction false} SameMountIff(a: string, b: string)
    ensures SameMount(a, b) <==> TrimSlashes(a) == TrimSlashes(b)
  {
    TrimsAre();
    assert IsTrimOf(a, TrimSlashes(a));
  }

  lemma {:induction false} DeclaredIff(mounts: seq<MountEntry>, path: string)
    ensures TrimSlashes(path) in Paths(Declared(mounts)) <==> exists m :: m in mounts && SameMount(m.path, path)
    ensures (TrimSlashes(path), SECRET) in Declared(mounts) <==>
              exists m :: m in mounts && m.ptype == "secret" && SameMount(m.path, path)
  {
    forall m: MountEntry
      ensures SameMount(m.path, path) <==> TrimSlashes(m.path) == TrimSlashes(path)
    {
      SameMountIff(m.path, path);
    }
    forall m | m in mounts
      ensures (TrimSlashes(m.path), m.ptype) in Declared(mounts)
      ensures (TrimSlashes(m.path), m.ptype).0 in Paths(Declared(mounts))
    {
    }
  }

  lemma {:induction false} RoleFaultIff(mounts: seq<MountEntry>, r: RoleEntry)
    ensures RoleFault(mounts, r) <==> !RoleOk(Paths(Declared(mounts)), r)
  {
    DeclaredIff(mounts, r.mount);
    PathFaultIff(r.rolesPath, DEFAULT_ROLES_PATH);
  }

  lemma {:induction false} PartsAreOk(v: Value, w: Value)
    requires EngineValueOk(v) && PartOf(w, v)
    ensures !Unwritable(w)
    decreases v
  {
    if w != v {
      if v.List? {
        var i :| 0 <= i < |v.items| && PartOf(w, v.items[i]);
        PartsAreOk(v.items[i], w);
      } else {
        var k :| k in v.fields && PartOf(w, v.fields[k]);
        PartsAreOk(v.fields[k], w);
      }
    }
  }

  lemma {:induction false} BadPart(v: Value) returns (w: Value)
    requires !EngineValueOk(v)
    ensures PartOf(w, v) && Unwritable(w)
    decreases v
  {
    w := v;
    if v.List? {
      var i :| 0 <= i < |v.items| && !EngineValueOk(v.items[i]);
      w := BadPart(v.items[i]);
    } else if v.Object? {
      var k :| k in v.fields && !EngineValueOk(v.fields[k]);
      w := BadPart(v.fields[k]);
    } else if v.Number? && v.f.Infinite? {
      assert v == Number(Infinite(true)) || v == Number(Infinite(false));
    }
  }

  /** A value can be written iff no part of it is unwritable. */
  lemma {:induction false} EngineValueOkIff(v: Value)
    ensures EngineValueOk(v) <==> forall w :: PartOf(w, v) ==> !Unwritable(w)
  {
    if EngineValueOk(v) {
      forall w | PartOf(w, v)
        ensures !Unwritable(w)
      {
        PartsAreOk(v, w);
      }
    } else {
      var w := BadPart(v);
    }
  }

  lemma {:induction false} BodyFaultIff(data: Body, secretRef: Option<EngineConfigs.SecretRef>)
    ensures BodyFault(data, secretRef) <==> !BodyOk(data, secretRef)
  {
    forall k | k in data
      ensures EngineValueOk(data[k]) <==> forall w :: PartOf(w, data[k]) ==> !Unwritable(w)
    {
      EngineValueOkIff(data[k]);
    }
  }

  lemma {:induction false} EngineFaultIff(mounts: seq<MountEntry>, e: EngineConfigEntry)
    ensures EngineFault(mounts, e) <==> !EngineOk(Declared(mounts), e)
  {
    DeclaredIff(mounts, e.mount);
    PathFaultIff(e.path, DEFAULT_ENGINE_CONFIG_PATH);
    BodyFaultIff(e.data, e.secretRef);
  }

  lemma {:induction false} WrittenToIff(e: EngineConfigEntry, path: string)
    requires NormSubPath(e.path, DEFAULT_ENGINE_CONFIG_PATH).Some?
    ensures WrittenTo(e, path) <==> path == EngineConfigs.EntryKey(NormEngine(e))
  {
    TrimsAre();
    PathFaultIff(e.path, DEFAULT_ENGINE_CONFIG_PATH);
    assert IsTrimOf(e.mount, NormEngine(e).mount) && ComesTo(e.path, "config", NormEngine(e).path);
    assert EngineConfigs.EntryKey(NormEngine(e)) == NormEngine(e).mount + "/" + NormEngine(e).path;
  }

  lemma {:induction false} TwiceIff(engines: seq<EngineConfigEntry>)
    requires forall e :: e in engines ==> NormSubPath(e.path, DEFAULT_ENGINE_CONFIG_PATH).Some?
    ensures Twice(engines) <==> !UniqueKeys(NormEngines(engines))
  {
    var ns := NormEngines(engines);
    forall i, path | 0 <= i < |engines|
      ensures WrittenTo(engines[i], path) <==> path == EngineConfigs.EntryKey(ns[i])
    {
      WrittenToIff(engines[i], path);
    }
    if !UniqueKeys(ns) {
      var i, j :| 0 <= i < j < |ns| && EngineConfigs.EntryKey(ns[i]) == EngineConfigs.EntryKey(ns[j]);
      assert WrittenTo(engines[i], EngineConfigs.EntryKey(ns[i]))
             && WrittenTo(engines[j], EngineConfigs.EntryKey(ns[i]));
    }
  }

  lemma {:induction false} OverlapIff(r: RoleEntry, e: EngineConfigEntry)
    requires NormSubPath(r.rolesPath, DEFAULT_ROLES_PATH).Some?
    requires NormSubPath(e.path, DEFAULT_ENGINE_CONFIG_PATH).Some?
    ensures Overlap(r, e) <==> Overlaps(NormEngine(e), Spot(NormRole(r)))
  {
    SameMountIff(r.mount, e.mount);
    PathFaultIff(r.rolesPath, DEFAULT_ROLES_PATH);
    PathFaultIff(e.path, DEFAULT_ENGINE_CONFIG_PATH);
    assert ComesTo(e.path, "config", NormEngine(e).path) && ComesTo(r.rolesPath, "roles", NormRole(r).rolesPath);
  }

  lemma {:induction false} SeparateIff(roles: seq<RoleEntry>, engines: seq<EngineConfigEntry>)
    requires forall r :: r in roles ==> NormSubPath(r.rolesPath, DEFAULT_ROLES_PATH).Some?
    requires forall e :: e in engines ==> NormSubPath(e.path, DEFAULT_ENGINE_CONFIG_PATH).Some?
    ensures (exists r, e :: r in roles && e in engines && Overlap(r, e))
       <==> !Separate(NormEngines(engines), Spots(NormRoles(roles)))
  {
    var ns, spots := NormEngines(engines), Spots(NormRoles(roles));
    forall i, j | 0 <= i < |roles| && 0 <= j < |engines|
      ensures Overlap(roles[i], engines[j]) <==> Overlaps(ns[j], spots[i])
    {
      OverlapIff(roles[i], engines[j]);
    }
    SomeOverlap(roles, engines, ns, spots);
  }

  lemma {:induction false} SomeOverlap(roles: seq<RoleEntry>, engines: seq<EngineConfigEntry>,
                                       ns: seq<EngineConfigEntry>, spots: seq<(string, string)>)
    requires |ns| == |engines| && |spots| == |roles|
    requires forall i, j :: 0 <= i < |roles| && 0 <= j < |engines| ==>
               (Overlap(roles[i], engines[j]) <==> Overlaps(ns[j], spots[i]))
    ensures (exists r, e :: r in roles && e in engines && Overlap(r, e)) <==> !Separate(ns, spots)
  {
    if r, e :| r in roles && e in engines && Overlap(r, e) {
      var i :| 0 <= i < |roles| && roles[i] == r;
      var j :| 0 <= j < |engines| && engines[j] == e;
      assert ns[j] in ns && spots[i] in spots && Overlaps(ns[j], spots[i]);
    }
    if n, spot :| n in ns && spot in spots && Overlaps(n, spot) {
      var j :| 0 <= j < |ns| && ns[j] == n;
      var i :| 0 <= i < |spots| && spots[i] == spot;
      assert roles[i] in roles && engines[j] in engines && Overlap(roles[i], engines[j]);
    }
  }

  lemma {:induction false} PathsComeToSomething(mounts: seq<MountEntry>, roles: seq<RoleEntry>,
                                                engines: seq<EngineConfigEntry>)
    ensures (forall r :: r in roles ==> !RoleFault(mounts, r)) ==>
              forall r :: r in roles ==> NormSubPath(r.rolesPath, DEFAULT_ROLES_PATH).Some?
    ensures (forall e :: e in engines ==> !EngineFault(mounts, e)) ==>
              forall e :: e in engines ==> NormSubPath(e.path, DEFAULT_ENGINE_CONFIG_PATH).Some?
  {
    forall r | r in roles
      ensures !RoleFault(mounts, r) ==> NormSubPath(r.rolesPath, DEFAULT_ROLES_PATH).Some?
    {
      RoleFaultIff(mounts, r);
    }
    forall e | e in engines
      ensures !EngineFault(mounts, e) ==> NormSubPath(e.path, DEFAULT_ENGINE_CONFIG_PATH).Some?
    {
      EngineFaultIff(mounts, e);
    }
  }

  /** A spec is accepted iff nothing is wrong with it: the settings, an entry, an entry that refers to no other, an
      engine config declared twice or in the place of roles. */
  lemma {:induction false} RejectedIffFaulty(settings: Settings, catalog: seq<CatalogEntry>, mounts: seq<MountEntry>,
                                             roles: seq<RoleEntry>, engines: seq<EngineConfigEntry>)
    ensures !Accepts(settings, catalog, mounts, roles, engines) <==> Faulty(settings, catalog, mounts, roles, engines)
  {
    EntriesFaultIff(catalog, mounts, roles, engines);
    if !EntryFault(catalog, mounts, roles, engines) {
      ClashIff(mounts, roles, engines);
    }
  }

  lemma {:induction false} ClashIff(mounts: seq<MountEntry>, roles: seq<RoleEntry>, engines: seq<EngineConfigEntry>)
    requires forall r :: r in roles ==> !RoleFault(mounts, r)
    requires forall e :: e in engines ==> !EngineFault(mounts, e)
    ensures !Clash(roles, engines) <==>
              Separate(NormEngines(engines), Spots(NormRoles(roles))) && UniqueKeys(NormEngines(engines))
  {
    PathsComeToSomething(mounts, roles, engines);
    TwiceIff(engines);
    SeparateIff(roles, engines);
  }

  /** What an accepted spec is turned into: every rolesPath and every path is what it comes to, and the mount of an
      engine config is without its outer slashes; nothing else moves. */
  lemma {:induction false} NormalisedMeans(settings: Settings, catalog: seq<CatalogEntry>, mounts: seq<MountEntry>,
                                           roles: seq<RoleEntry>, engines: seq<EngineConfigEntry>)
    requires Accepts(settings, catalog, mounts, roles, engines)
    ensures forall i :: 0 <= i < |roles| ==>
              && ComesTo(roles[i].rolesPath, "roles", NormRoles(roles)[i].rolesPath)
              && NormRoles(roles)[i] == roles[i].(rolesPath := NormRoles(roles)[i].rolesPath)
    ensures forall i :: 0 <= i < |engines| ==>
              var e := NormEngines(engines)[i];
              && IsTrimOf(engines[i].mount, e.mount) && ComesTo(engines[i].path, "config", e.path)
              && e == engines[i].(mount := e.mount, path := e.path)
  {
    forall i | 0 <= i < |roles|
      ensures ComesTo(roles[i].rolesPath, "roles", NormRole(roles[i]).rolesPath)
    {
      PathFaultIff(roles[i].rolesPath, DEFAULT_ROLES_PATH);
    }
    forall i | 0 <= i < |engines|
      ensures IsTrimOf(engines[i].mount, NormEngine(engines[i]).mount)
      ensures ComesTo(engines[i].path, "config", NormEngine(engines[i]).path)
    {
      assert engines[i] in engines;
      PathFaultIff(engines[i].path, DEFAULT_ENGINE_CONFIG_PATH);
      TrimSlashesIsTheTrim(engines[i].mount, TrimSlashes(engines[i].mount));
    }
  }

  lemma {:induction false} EntriesFaultIff(catalog: seq<CatalogEntry>, mounts: seq<MountEntry>, roles: seq<RoleEntry>,
                                           engines: seq<EngineConfigEntry>)
    ensures !EntryFault(catalog, mounts, roles, engines) <==>
              && (forall c :: c in catalog ==> CatalogEntryOk(c))
              && (forall m :: m in mounts ==> MountOk(PluginNames(catalog), m))
              && RolesOk(Paths(Declared(mounts)), roles)
              && forall e :: e in engines ==> EngineOk(Declared(mounts), e)
  {
    forall r | r in roles
      ensures RoleFault(mounts, r) <==> !RoleOk(Paths(Declared(mounts)), r)
    {
      RoleFaultIff(mounts, r);
    }
    forall e | e in engines
      ensures EngineFault(mounts, e) <==> !EngineOk(Declared(mounts), e)
    {
      EngineFaultIff(mounts, e);
    }
    forall m
      ensures MountFault(catalog, m) <==> !MountOk(PluginNames(catalog), m)
    {
      assert m.plugin in PluginNames(catalog) <==> exists c :: c in catalog && c.name == m.plugin;
    }
  }

  // ----- The code -----

  /** The declared types by mount path, as Validate collects them. */
  ghost predicate TypesOf(declared: set<(string, string)>, types: map<string, set<string>>) {
    && types.Keys == Paths(declared)
    && forall path, t :: path in types ==> (t in types[path] <==> (path, t) in declared)
  }

  class Spec {
    const settings: Settings
    const catalog: seq<CatalogEntry>
    const mounts: seq<MountEntry>
    var roles: seq<RoleEntry>
    var engineConfigs: seq<EngineConfigEntry>

    constructor (settings: Settings, catalog: seq<CatalogEntry>, mounts: seq<MountEntry>, roles: seq<RoleEntry>,
                 engineConfigs: seq<EngineConfigEntry>)
      ensures this.settings == settings && this.catalog == catalog && this.mounts == mounts
      ensures this.roles == roles && this.engineConfigs == engineConfigs
    {
      this.settings, this.catalog, this.mounts := settings, catalog, mounts;
      this.roles, this.engineConfigs := roles, engineConfigs;
    }

    /** Validate: accept or reject the whole spec; an accepted one has its paths normalised in place. */
    method Validate() returns (ok: bool)
      modifies this
      ensures ok == old(Accepts(settings, catalog, mounts, roles, engineConfigs))
      ensures ok == !old(Faulty(settings, catalog, mounts, roles, engineConfigs))
      ensures ok ==> roles == old(NormRoles(roles)) && engineConfigs == old(NormEngines(engineConfigs))
    {
      RejectedIffFaulty(settings, catalog, mounts, roles, engineConfigs);
      if !SettingsValid(settings) {
        return false;
      }
      var plugins;
      ok, plugins := ValidateCatalog();
      if !ok {
        return;
      }
      var mountTypes;
      ok, mountTypes := ValidateMounts(plugins);
      if !ok {
        return;
      }
      ok := ValidateRoles(mountTypes);
      if ok {
        ok := ValidateEngineConfigs(mountTypes);
      }
    }

    method ValidateCatalog() returns (ok: bool, plugins: set<string>)
      ensures ok <==> forall c :: c in catalog ==> CatalogEntryOk(c)
      ensures ok ==> plugins == PluginNames(catalog)
    {
      plugins := {};
      for i := 0 to |catalog|
        invariant forall c :: c in catalog[..i] ==> CatalogEntryOk(c)
        invariant plugins == PluginNames(catalog[..i])
      {
        var c := catalog[i];
        assert c in catalog && catalog[..i + 1] == catalog[..i] + [c];
        if !CatalogEntryOk(c) {
          return false, plugins;
        }
        plugins := plugins + {c.name};
      }
      assert catalog[..|catalog|] == catalog;
      ok := true;
    }

    method ValidateMounts(plugins: set<string>) returns (ok: bool, mountTypes: map<string, set<string>>)
      ensures ok <==> forall m :: m in mounts ==> MountOk(plugins, m)
      ensures ok ==> TypesOf(Declared(mounts), mountTypes)
    {
      mountTypes := map[];
      for i := 0 to |mounts|
        invariant forall m :: m in mounts[..i] ==> MountOk(plugins, m)
        invariant TypesOf(Declared(mounts[..i]), mountTypes)
      {
        var m := mounts[i];
        assert m in mounts && mounts[..i + 1] == mounts[..i] + [m];
        if !MountOk(plugins, m) {
          return false, mountTypes;
        }
        var mp := Trim(m.path);
        TypesOfOneMore(Declared(mounts[..i]), mp, m.ptype, mountTypes);
        DeclaredOneMore(mounts[..i], m);
        mountTypes := mountTypes[mp := (if mp in mountTypes then mountTypes[mp] else {}) + {m.ptype}];
      }
      assert mounts[..|mounts|] == mounts;
      ok := true;
    }

    method ValidateRoles(mountTypes: map<string, set<string>>) returns (ok: bool)
      modifies this`roles
      ensures ok == old(RolesOk(mountTypes.Keys, roles))
      ensures ok ==> roles == old(NormRoles(roles))
    {
      for i := 0 to |roles|
        invariant |roles| == |old(roles)| && roles[i..] == old(roles)[i..]
        invariant RolesOk(mountTypes.Keys, old(roles)[..i])
        invariant forall k :: 0 <= k < i ==> roles[k] == NormRole(old(roles)[k])
      {
        var r := roles[i];
        assert r == old(roles)[i] by {
          assert r == roles[i..][0];
        }
        var normal := CheckRole(r, mountTypes);
        if normal.None? {
          return false;
        }
        roles := roles[i := normal.value];
      }
      ok := true;
    }

    method ValidateEngineConfigs(mountTypes: map<string, set<string>>) returns (ok: bool)
      requires TypesOf(Declared(mounts), mountTypes)
      modifies this`engineConfigs
      ensures ok == old(EnginesOk(Declared(mounts), Spots(roles), engineConfigs))
      ensures ok ==> engineConfigs == old(NormEngines(engineConfigs))
    {
      ghost var declared, spots, before := Declared(mounts), Spots(roles), engineConfigs;
      var seen: set<string> := {};
      NothingNormalisedYet(declared, spots, before);
      for i := 0 to |engineConfigs|
        invariant NormalisedUpTo(declared, spots, before, engineConfigs, i, seen)
      {
        var entry := CheckEntry(roles, engineConfigs[i], declared, mountTypes, seen);
        NormaliseOneMore(declared, spots, before, engineConfigs, i, seen);
        if entry.None? {
          return false;
        }
        engineConfigs := engineConfigs[i := entry.value];
        seen := seen + {EngineConfigs.EntryKey(entry.value)};
      }
      AllNormalised(declared, spots, before, engineConfigs, seen);
      ok := true;
    }
  }

  /** The first `i` entries are checked and normalised in place, the rest as they were. */
  ghost predicate NormalisedUpTo(declared: set<(string, string)>, spots: seq<(string, string)>,
                                 before: seq<EngineConfigEntry>, now: seq<EngineConfigEntry>, i: nat,
                                 seen: set<string>)
  {
    && i <= |before|
    && now == NormEngines(before[..i]) + before[i..]
    && EnginesOk(declared, spots, before[..i])
    && seen == KeysOf(NormEngines(before[..i]))
  }

  lemma {:induction false} NormaliseOneMore(declared: set<(string, string)>, spots: seq<(string, string)>,
                                            before: seq<EngineConfigEntry>, now: seq<EngineConfigEntry>, i: nat,
                                            seen: set<string>)
    requires NormalisedUpTo(declared, spots, before, now, i, seen) && i < |before|
    ensures |now| == |before| && now[i] == before[i]
    ensures if EntryAccepted(declared, spots, now[i], seen)
            then NormalisedUpTo(declared, spots, before, now[i := NormEngine(now[i])], i + 1,
                                seen + {EngineConfigs.EntryKey(NormEngine(now[i]))})
            else !EnginesOk(declared, spots, before)
  {
    var e, prefix := before[i], before[..i];
    assert before[..i + 1] == prefix + [e];
    EngineOneMore(declared, spots, prefix, e);
    NormEnginesSnoc(prefix, e);
    PrefixIfOk(declared, spots, before, i + 1);
    KeysOfSnoc(NormEngines(prefix), NormEngine(e));
    ReplaceNext(NormEngines(prefix), before[i..], NormEngine(e));
    assert before[i..][1..] == before[i + 1..];
  }

  lemma {:induction false} ReplaceNext<T>(done: seq<T>, rest: seq<T>, x: T)
    requires rest != []
    ensures (done + rest)[|done|] == rest[0]
    ensures (done + rest)[|done| := x] == (done + [x]) + rest[1..]
  {
  }

  lemma {:induction false} KeysOfSnoc(engines: seq<EngineConfigEntry>, e: EngineConfigEntry)
    ensures KeysOf(engines + [e]) == KeysOf(engines) + {EngineConfigs.EntryKey(e)}
  {
    assert e in engines + [e];
  }

  lemma {:induction false} NothingNormalisedYet(declared: set<(string, string)>, spots: seq<(string, string)>,
                                                before: seq<EngineConfigEntry>)
    ensures NormalisedUpTo(declared, spots, before, before, 0, {})
  {
    assert before[..0] == [] && [] + before[0..] == before;
  }

  lemma {:induction false} AllNormalised(declared: set<(string, string)>, spots: seq<(string, string)>,
                                         before: seq<EngineConfigEntry>, now: seq<EngineConfigEntry>, seen: set<string>)
    requires NormalisedUpTo(declared, spots, before, now, |before|, seen)
    ensures EnginesOk(declared, spots, before) && now == NormEngines(before)
  {
    assert before[..|before|] == before && before[|before|..] == [];
    assert NormEngines(before) + [] == NormEngines(before);
  }

  /** The checks on one role: the role normalised, or nothing. */
  method CheckRole(r: RoleEntry, mountTypes: map<string, set<string>>) returns (normal: Option<RoleEntry>)
    ensures normal.Some? <==> RoleOk(mountTypes.Keys, r)
    ensures normal.Some? ==> normal.value == NormRole(r)
  {
    var mount := Trim(r.mount);
    if r.mount == "" || r.name == "" || mount !in mountTypes || r.name == "config" || '/' in r.name {
      return None;
    }
    var normalized := ComputeNormSubPath(r.rolesPath, DEFAULT_ROLES_PATH);
    normal := if normalized.None? then None else Some(r.(rolesPath := normalized.value));
  }

  ghost predicate EntryAccepted(declared: set<(string, string)>, spots: seq<(string, string)>, e: EngineConfigEntry,
                                seen: set<string>)
  {
    && EngineOk(declared, e)
    && EngineConfigs.EntryKey(NormEngine(e)) !in seen
    && forall spot :: spot in spots ==> !Overlaps(NormEngine(e), spot)
  }

  /** The checks on one engine config: the entry normalised, or nothing. */
  method CheckEntry(roles: seq<RoleEntry>, e: EngineConfigEntry, ghost declared: set<(string, string)>,
                    mountTypes: map<string, set<string>>, seen: set<string>) returns (entry: Option<EngineConfigEntry>)
    requires TypesOf(declared, mountTypes)
    ensures entry.Some? <==> EntryAccepted(declared, Spots(roles), e, seen)
    ensures entry.Some? ==> entry.value == NormEngine(e)
  {
    if e.mount == "" {
      return None;
    }
    var mount := Trim(e.mount);
    SecretKnown(declared, mountTypes, mount);
    if mount !in mountTypes || SECRET !in mountTypes[mount] {
      return None;
    }
    var path := ComputeNormSubPath(e.path, DEFAULT_ENGINE_CONFIG_PATH);
    if path.None? {
      return None;
    }
    var normal := e.(mount := mount, path := path.value);
    assert normal == NormEngine(e);
    if EngineConfigs.EntryKey(normal) in seen {
      return None;
    }
    var clear := CheckSpots(roles, normal);
    var bodyOk := CheckBody(e);
    entry := if clear && bodyOk then Some(normal) else None;
  }

  method CheckSpots(roles: seq<RoleEntry>, normal: EngineConfigEntry) returns (clear: bool)
    ensures clear <==> forall spot :: spot in Spots(roles) ==> !Overlaps(normal, spot)
  {
    for j := 0 to |roles|
      invariant forall k :: 0 <= k < j ==> !Overlaps(normal, Spots(roles)[k])
    {
      var r := roles[j];
      var mount := Trim(r.mount);
      if Overlaps(normal, (mount, r.rolesPath)) {
        assert Spots(roles)[j] == Spot(r);
        return false;
      }
    }
    clear := true;
  }

  lemma {:induction false} SecretKnown(declared: set<(string, string)>, types: map<string, set<string>>, mount: string)
    requires TypesOf(declared, types)
    ensures (mount, SECRET) in declared <==> mount in types && SECRET in types[mount]
  {
    if (mount, SECRET) in declared {
      assert (mount, SECRET).0 in Paths(declared);
    }
  }

  ghost function KeysOf(engines: seq<EngineConfigEntry>): set<string> {
    set e | e in engines :: EngineConfigs.EntryKey(e)
  }

  lemma {:induction false} DeclaredOneMore(mounts: seq<MountEntry>, m: MountEntry)
    ensures Declared(mounts + [m]) == Declared(mounts) + {(TrimSlashes(m.path), m.ptype)}
  {
    assert m in mounts + [m];
  }

  lemma {:induction false} TypesOfOneMore(declared: set<(string, string)>, mp: string, t: string,
                                          types: map<string, set<string>>)
    requires TypesOf(declared, types)
    ensures TypesOf(declared + {(mp, t)}, types[mp := (if mp in types then types[mp] else {}) + {t}])
  {
    forall u
      ensures (mp, u) in declared ==> mp in Paths(declared)
    {
      assert (mp, u) in declared ==> (mp, u).0 in Paths(declared);
    }
    assert (mp, t).0 in Paths(declared + {(mp, t)});
  }

  /** One more normalised entry is fine iff it overlaps no spot and its key is new. */
  lemma {:induction false} NormalOneMore(spots: seq<(string, string)>, before: seq<EngineConfigEntry>,
                                         n: EngineConfigEntry)
    requires Separate(before, spots) && UniqueKeys(before)
    ensures Separate(before + [n], spots) && UniqueKeys(before + [n])
       <==> (forall spot :: spot in spots ==> !Overlaps(n, spot)) && EngineConfigs.EntryKey(n) !in KeysOf(before)
  {
    var all := before + [n];
    assert n in all && forall b :: b in before ==> b in all;
    if EngineConfigs.EntryKey(n) in KeysOf(before) {
      var k :| 0 <= k < |before| && EngineConfigs.EntryKey(before[k]) == EngineConfigs.EntryKey(n);
      assert EngineConfigs.EntryKey(all[k]) == EngineConfigs.EntryKey(all[|before|]);
    } else {
      assert forall k :: 0 <= k < |before| ==>
               before[k] in before && EngineConfigs.EntryKey(before[k]) in KeysOf(before);
    }
  }

  lemma {:induction false} PrefixIfOk(declared: set<(string, string)>, spots: seq<(string, string)>,
                                      engines: seq<EngineConfigEntry>, i: nat)
    requires i <= |engines|
    ensures EnginesOk(declared, spots, engines) ==> EnginesOk(declared, spots, engines[..i])
  {
    var part, all := NormEngines(engines[..i]), NormEngines(engines);
    assert part == all[..i];
  }

  lemma {:induction false} NormEnginesSnoc(engines: seq<EngineConfigEntry>, e: EngineConfigEntry)
    ensures NormEngines(engines + [e]) == NormEngines(engines) + [NormEngine(e)]
  {
    assert (engines + [e])[..|engines|] == engines;
  }

  /** One more entry is fine iff those before it are and it is accepted. */
  lemma {:induction false} EngineOneMore(declared: set<(string, string)>, spots: seq<(string, string)>,
                                         engines: seq<EngineConfigEntry>, e: EngineConfigEntry)
    requires EnginesOk(declared, spots, engines)
    ensures EnginesOk(declared, spots, engines + [e]) <==>
              EntryAccepted(declared, spots, e, KeysOf(NormEngines(engines)))
  {
    NormEnginesSnoc(engines, e);
    NormalOneMore(spots, NormEngines(engines), NormEngine(e));
    assert e in engines + [e];
  }

  // ----- What an accepted spec guarantees -----

  lemma {:induction false} DefaultsAreProper()
    ensures ProperPath(DEFAULT_ROLES_PATH) && ProperPath(DEFAULT_ENGINE_CONFIG_PATH)
  {
    SplitWithoutSeparator(DEFAULT_ROLES_PATH, '/');
    SplitWithoutSeparator(DEFAULT_ENGINE_CONFIG_PATH, '/');
  }

  lemma {:induction false} NormRoleStable(paths: set<string>, r: RoleEntry)
    requires RoleOk(paths, r)
    ensures RoleOk(paths, NormRole(r)) && NormRole(NormRole(r)) == NormRole(r) && ProperPath(NormRole(r).rolesPath)
  {
    DefaultsAreProper();
    NormSubPathIsNormal(r.rolesPath, DEFAULT_ROLES_PATH);
  }

  lemma {:induction false} NormEngineStable(declared: set<(string, string)>, e: EngineConfigEntry)
    requires EngineOk(declared, e)
    ensures EngineOk(declared, NormEngine(e)) <==> TrimSlashes(e.mount) != ""
    ensures NormEngine(NormEngine(e)) == NormEngine(e) && ProperPath(NormEngine(e).path)
  {
    DefaultsAreProper();
    NormSubPathIsNormal(e.path, DEFAULT_ENGINE_CONFIG_PATH);
    TrimSlashesIsTheTrim(e.mount, TrimSlashes(e.mount));
    TrimmedStays(TrimSlashes(e.mount));
  }

  /** Normalisation is settled: normalising twice is normalising once, every stored subpath is of proper
      segments, and the normalised spec is accepted again, unless an engine config names its mount by
      slashes alone: its empty mount path then reads as an omitted one. */
  lemma {:induction false} NormalisedSpecIsStable(settings: Settings, catalog: seq<CatalogEntry>,
                                                  mounts: seq<MountEntry>, roles: seq<RoleEntry>,
                                                  engines: seq<EngineConfigEntry>)
    requires Accepts(settings, catalog, mounts, roles, engines)
    ensures NormRoles(NormRoles(roles)) == NormRoles(roles) && NormEngines(NormEngines(engines)) == NormEngines(engines)
    ensures forall r :: r in NormRoles(roles) ==> ProperPath(r.rolesPath)
    ensures forall e :: e in NormEngines(engines) ==> ProperPath(e.path)
    ensures Accepts(settings, catalog, mounts, NormRoles(roles), NormEngines(engines))
       <==> forall e :: e in engines ==> TrimSlashes(e.mount) != ""
  {
    var rs, es := NormRoles(roles), NormEngines(engines);
    RolesStable(Paths(Declared(mounts)), roles);
    EnginesStable(Declared(mounts), engines);
    assert UniqueKeys(NormEngines(es)) && Separate(NormEngines(es), Spots(NormRoles(rs)));
  }

  lemma {:induction false} RolesStable(paths: set<string>, roles: seq<RoleEntry>)
    requires RolesOk(paths, roles)
    ensures RolesOk(paths, NormRoles(roles)) && NormRoles(NormRoles(roles)) == NormRoles(roles)
    ensures forall r :: r in NormRoles(roles) ==> ProperPath(r.rolesPath)
  {
    var rs := NormRoles(roles);
    forall i | 0 <= i < |rs|
      ensures RoleOk(paths, rs[i]) && NormRole(rs[i]) == rs[i] && ProperPath(rs[i].rolesPath)
    {
      NormRoleStable(paths, roles[i]);
    }
  }

  lemma {:induction false} EnginesStable(declared: set<(string, string)>, engines: seq<EngineConfigEntry>)
    requires forall e :: e in engines ==> EngineOk(declared, e)
    ensures NormEngines(NormEngines(engines)) == NormEngines(engines)
    ensures forall e :: e in NormEngines(engines) ==> ProperPath(e.path)
    ensures (forall e :: e in NormEngines(engines) ==> EngineOk(declared, e))
       <==> forall e :: e in engines ==> TrimSlashes(e.mount) != ""
  {
    if engines != [] {
      var last, before := engines[|engines| - 1], engines[..|engines| - 1];
      assert engines == before + [last];
      EnginesStable(declared, before);
      NormEngineStable(declared, last);
      NormEnginesSnoc(before, last);
      NormEnginesSnoc(NormEngines(before), NormEngine(last));
      EachOfSnoc(NormEngines(before), NormEngine(last), (e: EngineConfigEntry) => ProperPath(e.path));
      EachOfSnoc(NormEngines(before), NormEngine(last), (e: EngineConfigEntry) => EngineOk(declared, e));
      EachOfSnoc(before, last, (e: EngineConfigEntry) => TrimSlashes(e.mount) != "");
    }
  }

  lemma {:induction false} EachOfSnoc(es: seq<EngineConfigEntry>, e: EngineConfigEntry, p: EngineConfigEntry -> bool)
    ensures (forall x :: x in es + [e] ==> p(x)) <==> (forall x :: x in es ==> p(x)) && p(e)
  {
    assert forall x :: x in es ==> x in es + [e];
    assert e in es + [e];
  }

  /** In an accepted, normalised spec no two engine configs share a Vault path, and on an engine config's
      mount no declared role, and nothing the role prune could delete under a declared rolesPath, has
      its path. */
  lemma {:induction false} EngineConfigsAndRolesAreApart(settings: Settings, catalog: seq<CatalogEntry>,
                                                         mounts: seq<MountEntry>, roles: seq<RoleEntry>,
                                                         engines: seq<EngineConfigEntry>, e: EngineConfigEntry,
                                                         r: RoleEntry, name: string)
    requires Accepts(settings, catalog, mounts, roles, engines)
    requires e in NormEngines(engines) && r in NormRoles(roles) && TrimSlashes(r.mount) == e.mount
    ensures UniqueKeys(NormEngines(engines))
    ensures e.path != r.rolesPath && e.path != r.rolesPath + "/" + name
  {
    assert EnginesOk(Declared(mounts), Spots(NormRoles(roles)), engines);
    SeparateRole(NormEngines(engines), NormRoles(roles), e, r, name);
  }

  lemma {:induction false} SeparateRole(engines: seq<EngineConfigEntry>, roles: seq<RoleEntry>, e: EngineConfigEntry,
                                        r: RoleEntry, name: string)
    requires Separate(engines, Spots(roles)) && e in engines && r in roles && TrimSlashes(r.mount) == e.mount
    ensures e.path != r.rolesPath && e.path != r.rolesPath + "/" + name
  {
    var i :| 0 <= i < |roles| && roles[i] == r;
    var spot := Spot(r);
    assert Spots(roles)[i] == spot;
    assert !Overlaps(e, spot);
    assert r.rolesPath + "/" <= r.rolesPath + "/" + name;
  }

  /** Across mounts a role and an engine config can share a Vault path only if one mount lies under the
      other, which the validation does not look at. */
  lemma {:induction false} CollisionNeedsNestedMounts(settings: Settings, catalog: seq<CatalogEntry>,
                                                      mounts: seq<MountEntry>, roles: seq<RoleEntry>,
                                                      engines: seq<EngineConfigEntry>, e: EngineConfigEntry,
                                                      r: RoleEntry, name: string)
    requires Accepts(settings, catalog, mounts, roles, engines)
    requires e in NormEngines(engines) && r in NormRoles(roles)
    requires EngineConfigs.EntryKey(e) == TrimSlashes(r.mount) + "/" + r.rolesPath + "/" + name
    ensures TrimSlashes(r.mount) + "/" <= e.mount || e.mount + "/" <= TrimSlashes(r.mount)
  {
    var m, q := TrimSlashes(r.mount), r.rolesPath + "/" + name;
    if m == e.mount {
      EngineConfigsAndRolesAreApart(settings, catalog, mounts, roles, engines, e, r, name);
    }
    Regroup(m, r.rolesPath, name);
    SamePathSplits(e.mount, e.path, m, q);
  }

  predicate Segment(s: string) {
    !BadSegment(s) && '/' !in s
  }

  /** And then it always can: a whole spec that declares mounts a and a/b, the role d under rolesPath b/c of the first
      and the engine config c/d of the second is accepted, and the two are one Vault path. */
  lemma {:induction false} NestedMountsCanCollide(settings: Settings, plugin: CatalogEntry, outer: MountEntry,
                                                  inner: MountEntry, r: RoleEntry, e: EngineConfigEntry, a: string,
                                                  b: string, c: string, d: string)
    requires SettingsValid(settings) && CatalogEntryOk(plugin) && BodyOk(e.data, e.secretRef)
    requires MountOk({plugin.name}, outer) && MountOk({plugin.name}, inner)
    requires outer.ptype == SECRET && inner.ptype == SECRET
    requires Segment(a) && Segment(b) && Segment(c) && Segment(d) && d != "config"
    requires outer.path == a && inner.path == a + "/" + b
    requires r.mount == a && r.rolesPath == b + "/" + c && r.name == d && e.mount == a + "/" + b
             && e.path == c + "/" + d
    ensures Accepts(settings, [plugin], [outer, inner], [r], [e])
    ensures NormRoles([r]) == [r] && NormEngines([e]) == [e]
    ensures EngineConfigs.EntryKey(e) == r.mount + "/" + r.rolesPath + "/" + r.name
  {
    var mounts := [outer, inner];
    TrimmedStays(a);
    TrimmedStays(e.mount);
    assert outer in mounts && inner in mounts;
    assert (a, SECRET) in Declared(mounts) && (e.mount, SECRET) in Declared(mounts);
    assert plugin in [plugin] && PluginNames([plugin]) == {plugin.name};
    assert (a, SECRET).0 in Paths(Declared(mounts));
    OneRoleOk(Paths(Declared(mounts)), r, b, c);
    OneEngineOk(Declared(mounts), r, e, c, d);
    FourParts(a, b, c, d);
  }

  lemma {:induction false} OneRoleOk(paths: set<string>, r: RoleEntry, b: string, c: string)
    requires Segment(b) && Segment(c) && r.rolesPath == b + "/" + c
    requires r.mount != "" && r.name != "" && TrimSlashes(r.mount) in paths && r.name != "config" && '/' !in r.name
    ensures RolesOk(paths, [r]) && NormRoles([r]) == [r]
  {
    TwoSegmentsAreProper(b, c);
    NormSubPathIsNormal(r.rolesPath, DEFAULT_ROLES_PATH);
  }

  lemma {:induction false} OneEngineOk(declared: set<(string, string)>, r: RoleEntry, e: EngineConfigEntry, c: string,
                                       d: string)
    requires Segment(c) && Segment(d) && e.path == c + "/" + d && BodyOk(e.data, e.secretRef)
    requires e.mount != "" && TrimSlashes(e.mount) == e.mount && (e.mount, SECRET) in declared
    requires NormRoles([r]) == [r] && TrimSlashes(r.mount) != e.mount
    ensures EnginesOk(declared, Spots(NormRoles([r])), [e]) && NormEngines([e]) == [e]
  {
    TwoSegmentsAreProper(c, d);
    NormSubPathIsNormal(e.path, DEFAULT_ENGINE_CONFIG_PATH);
    assert Spots([r]) == [Spot(r)];
    OneEntryOk(declared, Spots([r]), e);
    NormEnginesSnoc([], e);
    assert [] + [e] == [e] && NormEngines([]) == [];
  }

  lemma {:induction false} TwoSegmentsAreProper(c: string, d: string)
    requires Segment(c) && Segment(d)
    ensures ProperPath(c + "/" + d)
  {
    SplitHead(c, d, '/');
    SplitWithoutSeparator(d, '/');
  }

  lemma {:induction false} FourParts(a: string, b: string, c: string, d: string)
    ensures (a + "/" + b) + "/" + (c + "/" + d) == a + "/" + (b + "/" + c) + "/" + d
  {
  }

  lemma {:induction false} OneEntryOk(declared: set<(string, string)>, spots: seq<(string, string)>,
                                      e: EngineConfigEntry)
    requires EngineOk(declared, e) && NormEngine(e) == e && forall spot :: spot in spots ==> !Overlaps(e, spot)
    ensures EnginesOk(declared, spots, [e])
  {
    NormEnginesSnoc([], e);
    assert [] + [e] == [e] && NormEngines([]) == [];
  }

  lemma {:induction false} Regroup(a: string, b: string, c: string)
    ensures a + "/" + b + "/" + c == a + "/" + (b + "/" + c)
  {
  }

  /** One path split at two places: the same place, or one head lies under the other. */
  lemma {:induction false} SamePathSplits(a: string, p: string, b: string, q: string)
    ensures a + "/" + p == b + "/" + q ==> (a == b && p == q) || a + "/" <= b || b + "/" <= a
  {
    var s, t := a + "/" + p, b + "/" + q;
    if s == t {
      if |a| == |b| {
        assert a == s[..|a|] == t[..|b|] == b;
        assert p == s[|a| + 1..] == t[|b| + 1..] == q;
      } else if |a| < |b| {
        assert s[..|a| + 1] == a + "/";
        assert t[..|b|] == b;
        assert a + "/" == b[..|a| + 1];
      } else {
        assert t[..|b| + 1] == b + "/";
        assert s[..|a|] == a;
        assert b + "/" == a[..|b| + 1];
      }
    }
  }
}
