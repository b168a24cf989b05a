/** From an accepted spec to what the reconciler is asked for: internal/config/parse.go, then desiredMounts of
internal/reconcile/reconcile.go. */
module Accepted {
  import opened Requests
  import opened RoleValues
  import opened Strings
  import opened Specs
  import SpecValidate
  import opened Mounts
  import Cluster
  import opened Phases
  import opened Reconcile
  import opened Leftovers
  import EngineConfigs
  import SpecDiff

  /** toMount */
  function MountOf(m: MountEntry): Mount
    requires ValidType(m.ptype)
  {
    SpecDiff.Desired(m, if m.ptype == SECRET then Secret else if m.ptype == AUTH then Auth else Database)
  }

  /** The mount asked for is the one written, without options if none are given. */
  ghost predicate AsWritten(m: MountEntry, a: Mount) {
    && (a.path, a.plugin, a.version, a.description) == (m.path, m.plugin, m.version, m.description)
    && (m.options == None ==> a.options == map[]) && (m.options != None ==> m.options == Some(a.options))
    && (m.ptype == "secret" <==> a.mtype == Secret) && (m.ptype == "auth" <==> a.mtype == Auth)
    && (m.ptype == "database" <==> a.mtype == Database)
  }

  function MountsOf(mounts: seq<MountEntry>): (ms: seq<Mount>)
    requires forall m :: m in mounts ==> ValidType(m.ptype)
    ensures |ms| == |mounts| && forall i :: 0 <= i < |mounts| ==> ms[i] == MountOf(mounts[i])
  {
    if mounts == [] then [] else [MountOf(mounts[0])] + MountsOf(mounts[1..])
  }

  /** What an accepted spec, normalised in place, asks for. */
  ghost function DesiredOf(settings: Settings, catalog: seq<CatalogEntry>, mounts: seq<MountEntry>,
                           roles: seq<RoleEntry>, engines: seq<EngineConfigEntry>): Desired
    requires SpecValidate.Accepts(settings, catalog, mounts, roles, engines)
  {
    Desired(settings.pruneMode, catalog, MountsOf(mounts), SpecValidate.NormEngines(engines),
            SpecValidate.NormRoles(roles))
  }

  /** A pass is asked for what the spec says, mount by mount as it is written. */
  lemma {:induction false} AskedForAll(settings: Settings, catalog: seq<CatalogEntry>, mounts: seq<MountEntry>,
                                       roles: seq<RoleEntry>, engines: seq<EngineConfigEntry>)
    requires SpecValidate.Accepts(settings, catalog, mounts, roles, engines)
    ensures var d := DesiredOf(settings, catalog, mounts, roles, engines);
            && d.pruneMode == settings.pruneMode && d.catalog == catalog
            && d.roles == SpecValidate.NormRoles(roles) && d.engines == SpecValidate.NormEngines(engines)
            && |d.mounts| == |mounts| && forall i :: 0 <= i < |mounts| ==> AsWritten(mounts[i], d.mounts[i])
  {
    AllAsWritten(mounts);
  }

  lemma {:induction false} AllAsWritten(mounts: seq<MountEntry>)
    requires forall m :: m in mounts ==> ValidType(m.ptype)
    ensures |MountsOf(mounts)| == |mounts|
    ensures forall i :: 0 <= i < |mounts| ==> AsWritten(mounts[i], MountsOf(mounts)[i])
  {
    forall i | 0 <= i < |mounts|
      ensures AsWritten(mounts[i], MountsOf(mounts)[i])
    {
      OneAsWritten(mounts[i], MountsOf(mounts)[i]);
    }
  }

  lemma {:induction false} OneAsWritten(m: MountEntry, a: Mount)
    requires ValidType(m.ptype) && a == MountOf(m)
    ensures AsWritten(m, a)
  {
  }

  /** Two declared places with one path are one place. */
  ghost predicate PlacesApart(roles: seq<RoleEntry>) {
    forall r, s :: r in roles && s in roles && SpotPath(Spot(r)) == SpotPath(Spot(s)) ==> Spot(r) == Spot(s)
  }

  /** What validation does not look at: whether anything but an engine config is declared twice, nested mounts, and the
      names of binaries and places. */
  ghost predicate Unchecked(w: Cluster.World, rd: Reader, d: Desired) {
    && DistinctCatalog(d.catalog) && DistinctMounts(d.mounts) && RolesProper(rd, w.plugin, d.roles)
    && PlacesApart(d.roles) && FilesApart(d, w.mounts)
    && (d.pruneMode == PRUNE_FULL ==> PlacesFlat(d, w.plugin.roles.Keys))
  }

  /** An accepted spec is proper iff it passes what validation does not look at: validation itself ensures the rest. */
  lemma {:induction false} AcceptedIsProperIff(w: Cluster.World, rd: Reader, settings: Settings,
                                               catalog: seq<CatalogEntry>, mounts: seq<MountEntry>,
                                               roles: seq<RoleEntry>, engines: seq<EngineConfigEntry>)
    requires SpecValidate.Accepts(settings, catalog, mounts, roles, engines)
    ensures var d := DesiredOf(settings, catalog, mounts, roles, engines); Proper(w, rd, d) <==> Unchecked(w, rd, d)
  {
    var d := DesiredOf(settings, catalog, mounts, roles, engines);
    EnginesHaveMounts(settings, catalog, mounts, roles, engines);
    RoleNamesAreSegments(settings, catalog, mounts, roles, engines);
    assert DistinctEngines(d.engines) by {
      assert SpecValidate.UniqueKeys(SpecValidate.NormEngines(engines));
    }
  }

  /** An accepted engine config is on a declared secret mount. */
  lemma {:induction false} EnginesHaveMounts(settings: Settings, catalog: seq<CatalogEntry>, mounts: seq<MountEntry>,
                                             roles: seq<RoleEntry>, engines: seq<EngineConfigEntry>)
    requires SpecValidate.Accepts(settings, catalog, mounts, roles, engines)
    ensures EnginesOnDeclaredMounts(DesiredOf(settings, catalog, mounts, roles, engines))
  {
    var d := DesiredOf(settings, catalog, mounts, roles, engines);
    forall e | e in d.engines
      ensures MountId(MountType.Secret, e.mount) in IdsOf(d.mounts)
    {
      var i :| 0 <= i < |engines| && d.engines[i] == e;
      assert engines[i] in engines && SpecValidate.EngineOk(SpecValidate.Declared(mounts), engines[i]);
      var m :| m in mounts && (TrimSlashes(m.path), m.ptype) == (e.mount, SECRET);
      var j :| 0 <= j < |mounts| && mounts[j] == m;
      assert d.mounts[j] in d.mounts && IdOf(d.mounts[j]) == MountId(MountType.Secret, e.mount);
    }
  }

  lemma {:induction false} RoleNamesAreSegments(settings: Settings, catalog: seq<CatalogEntry>, mounts: seq<MountEntry>,
                                                roles: seq<RoleEntry>, engines: seq<EngineConfigEntry>)
    requires SpecValidate.Accepts(settings, catalog, mounts, roles, engines)
    ensures forall r :: r in SpecValidate.NormRoles(roles) ==> r.name != "" && '/' !in r.name && r.name != "config"
  {
    var ns := SpecValidate.NormRoles(roles);
    forall r | r in ns
      ensures r.name != "" && '/' !in r.name && r.name != "config"
    {
      var i :| 0 <= i < |ns| && ns[i] == r;
      assert SpecValidate.RoleOk(SpecValidate.Paths(SpecValidate.Declared(mounts)), roles[i]);
    }
  }

  /** Validation accepts a mount of type database, which no pass can mount. */
  lemma {:induction false} AcceptedIsMountableIff(settings: Settings, catalog: seq<CatalogEntry>,
                                                  mounts: seq<MountEntry>, roles: seq<RoleEntry>,
                                                  engines: seq<EngineConfigEntry>)
    requires SpecValidate.Accepts(settings, catalog, mounts, roles, engines)
    ensures Mountable(DesiredOf(settings, catalog, mounts, roles, engines).mounts)
       <==> forall m :: m in mounts ==> m.ptype != DATABASE
  {
    var ms := MountsOf(mounts);
    forall i | 0 <= i < |mounts|
      ensures ms[i].mtype.Database? <==> mounts[i].ptype == DATABASE
      ensures ms[i] in ms && mounts[i] in mounts
    {
    }
  }

  // ----- The keys of the change log -----

  /** The change log tells entries apart as the reconciler does: catalog entries by release, mounts by type and place,
      and engine configs and roles by the Vault path they are written to. */
  lemma {:induction false} DiffKeysAreTheReconcilers(settings: Settings, catalog: seq<CatalogEntry>,
                                                     mounts: seq<MountEntry>, roles: seq<RoleEntry>,
                                                     engines: seq<EngineConfigEntry>)
    requires SpecValidate.Accepts(settings, catalog, mounts, roles, engines)
    ensures forall a, b :: a in catalog && b in catalog ==>
              (SpecDiff.CatalogKey(a) == SpecDiff.CatalogKey(b)
               <==> TakenForOne(a.name, a.version, b.name, b.version))
    ensures forall a, b :: a in mounts && b in mounts ==>
              (SpecDiff.MountDiffKey(a) == SpecDiff.MountDiffKey(b) <==> IdOf(MountOf(a)) == IdOf(MountOf(b)))
    ensures forall e :: e in SpecValidate.NormEngines(engines) ==>
              SpecDiff.EngineConfigKey(e) == EngineConfigs.EntryKey(e)
    ensures forall r :: r in SpecValidate.NormRoles(roles) ==> SpecDiff.RoleKey(r) == RolePath(r)
  {
    forall a, b | a in catalog && b in catalog
      ensures SpecDiff.CatalogKey(a) == SpecDiff.CatalogKey(b) <==> TakenForOne(a.name, a.version, b.name, b.version)
    {
      KeysAlikeIff(a.name, a.version, b.name, b.version);
    }
    forall a, b | a in mounts && b in mounts
      ensures SpecDiff.MountDiffKey(a) == SpecDiff.MountDiffKey(b) <==> IdOf(MountOf(a)) == IdOf(MountOf(b))
    {
      MountKeysAlikeIff(a, b);
    }
    var paths, declared := SpecValidate.Paths(SpecValidate.Declared(mounts)), SpecValidate.Declared(mounts);
    var es, rs := SpecValidate.NormEngines(engines), SpecValidate.NormRoles(roles);
    forall e | e in es
      ensures SpecDiff.EngineConfigKey(e) == EngineConfigs.EntryKey(e)
    {
      var i :| 0 <= i < |es| && es[i] == e;
      assert engines[i] in engines;
      EngineKeyIsThePath(declared, engines[i]);
    }
    forall r | r in rs
      ensures SpecDiff.RoleKey(r) == RolePath(r)
    {
      var i :| 0 <= i < |rs| && rs[i] == r;
      RoleKeyIsThePath(paths, roles[i]);
    }
  }

  lemma {:induction false} EngineKeyIsThePath(declared: set<(string, string)>, e: EngineConfigEntry)
    requires SpecValidate.EngineOk(declared, e)
    ensures var n := SpecValidate.NormEngine(e); SpecDiff.EngineConfigKey(n) == EngineConfigs.EntryKey(n)
  {
    SpecValidate.NormEngineStable(declared, e);
    SpecValidate.ProperPathsAreTrimmed(SpecValidate.NormEngine(e).path);
  }

  lemma {:induction false} RoleKeyIsThePath(paths: set<string>, r: RoleEntry)
    requires SpecValidate.RoleOk(paths, r)
    ensures var n := SpecValidate.NormRole(r); SpecDiff.RoleKey(n) == RolePath(n)
  {
    SpecValidate.NormRoleStable(paths, r);
    SpecValidate.ProperPathsAreTrimmed(SpecValidate.NormRole(r).rolesPath);
  }

  lemma {:induction false} MountKeysAlikeIff(a: MountEntry, b: MountEntry)
    requires ValidType(a.ptype) && ValidType(b.ptype)
    ensures SpecDiff.MountDiffKey(a) == SpecDiff.MountDiffKey(b) <==> IdOf(MountOf(a)) == IdOf(MountOf(b))
  {
    TypesHaveNoColon(a.ptype);
    TypesHaveNoColon(b.ptype);
    SplitAtColon(a.ptype, TrimSlashes(a.path), b.ptype, TrimSlashes(b.path));
  }

  lemma {:induction false} TypesHaveNoColon(t: string)
    requires ValidType(t)
    ensures ':' !in t
  {
  }

  lemma {:induction false} SplitAtColon(a: string, p: string, b: string, q: string)
    requires ':' !in a && ':' !in b
    ensures a + ":" + p == b + ":" + q <==> a == b && p == q
  {
    var x, y := a + ":" + p, b + ":" + q;
    if x == y {
      assert x[|a|] == ':' && y[|b|] == ':';
      assert forall i :: 0 <= i < |a| ==> x[i] == a[i];
      assert forall i :: 0 <= i < |b| ==> y[i] == b[i];
      assert a == x[..|a|] && b == y[..|b|] && p == x[|a| + 1..] && q == y[|b| + 1..];
    }
  }
}
