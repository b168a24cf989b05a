/** Reconciling one mount and owning it: internal/vault/mounts.go. */
module Mounts {
  import opened Requests
  import opened Strings

  const MANAGED_BY_KEY := "managed-by"
  const MANAGED_BY_VALUE := "vault-plugin-manager"

  type Options = map<string, string>

  datatype MountType = Secret | Auth | Database

  /** A desired mount. */
  datatype Mount = Mount(path: string, plugin: string, mtype: MountType, version: string, description: string,
                         options: Options)

  /** A live mount as Vault lists it. */
  datatype Live = Live(plugin: string, version: string, description: string, options: Options, uuid: string)

  /** A field left out is not tuned. */
  datatype Tune = Tune(version: Option<string>, description: Option<string>, options: Option<Options>)
  datatype MountResult = MountResult(changed: bool, reload: bool)

  /** A path is unique per mount type only. */
  datatype MountId = MountId(mtype: MountType, path: string)

  ghost function IdOf(m: Mount): MountId {
    MountId(m.mtype, TrimSlashes(m.path))
  }

  const NO_TUNE := Tune(None, None, None)

  /** sameVersion: equal up to one leading "v". */
  predicate SameVersion(a: string, b: string) {
    TrimV(a) == TrimV(b)
  }

  /** Versions are the same iff they are equal, or one is the other with a leading "v" the other lacks. */
  lemma {:induction false} SameVersionIff(a: string, b: string)
    ensures SameVersion(a, b) <==> EqualUpToV(a, b)
  {
    TrimVIff(a, TrimV(a));
    TrimVIff(b, TrimV(b));
    TrimVIff(a, b);
    TrimVIff(b, a);
  }

  ghost predicate EqualUpToV(a: string, b: string) {
    a == b || (a == "v" + b && !("v" <= b)) || (b == "v" + a && !("v" <= a))
  }

  /** opts[k] of a Go map: an absent key reads as the empty string. */
  function OptionValue(opts: Options, k: string): string {
    if k in opts then opts[k] else ""
  }

  predicate IsManaged(opts: Options) {
    OptionValue(opts, MANAGED_BY_KEY) == MANAGED_BY_VALUE
  }

  function WithManaged(opts: Options): Options {
    opts[MANAGED_BY_KEY := MANAGED_BY_VALUE]
  }

  /** The options to tune with: the declared ones and the marker, and an empty value for every live
      option no longer declared. */
  function WantedOptions(live: Options, declared: Options): Options {
    map k | k in live.Keys + WithManaged(declared).Keys :: OptionValue(WithManaged(declared), k)
  }

  method DesiredOptions(live: Options, declared: Options) returns (want: Options, differs: bool)
    ensures want == WantedOptions(live, declared)
    ensures differs <==> exists k :: k in want && OptionValue(live, k) != want[k]
  {
    want := WithManaged(declared);
    var left := live.Keys;
    while left != {}
      invariant left <= live.Keys
      invariant want.Keys == (live.Keys - left) + WithManaged(declared).Keys
      invariant forall k :: k in want ==> want[k] == OptionValue(WithManaged(declared), k)
      decreases left
    {
      var k :| k in left;
      if k !in want {
        want := want[k := ""];
      }
      left := left - {k};
    }
    left := want.Keys;
    while left != {}
      invariant left <= want.Keys
      invariant forall k :: k in want.Keys - left ==> OptionValue(live, k) == want[k]
      decreases left
    {
      var k :| k in left;
      if OptionValue(live, k) != want[k] {
        return want, true;
      }
      left := left - {k};
    }
    differs := false;
  }

  // ----- What a mount should look like -----

  /** The options a mount has in effect: an empty value is an absent one. */
  function InEffect(opts: Options): Options {
    map k | k in opts && opts[k] != "" :: opts[k]
  }

  predicate OptionsConform(live: Options, declared: Options) {
    InEffect(live) == InEffect(WithManaged(declared))
  }

  /** A live mount needs nothing: its version is pinned, and if this manager owns it, its description
      and the options in effect are the declared ones and the marker. */
  predicate Conforms(live: Live, m: Mount) {
    && SameVersion(live.version, m.version)
    && (IsManaged(live.options) ==> live.description == m.description && OptionsConform(live.options, m.options))
  }

  /** What mountTune computes. */
  function TuneFor(live: Live, m: Mount): (Tune, MountResult) {
    var version := !SameVersion(live.version, m.version);
    var description := IsManaged(live.options) && live.description != m.description;
    var options := IsManaged(live.options) && !OptionsConform(live.options, m.options);
    (Tune(if version then Some(m.version) else None,
          if description then Some(m.description) else None,
          if options then Some(WantedOptions(live.options, m.options)) else None),
     MountResult(version || description || options, version || options))
  }

  method MountTune(live: Live, m: Mount) returns (tune: Tune, res: MountResult)
    ensures (tune, res) == TuneFor(live, m)
  {
    tune, res := NO_TUNE, MountResult(false, false);
    if !SameVersion(live.version, m.version) {
      tune, res := tune.(version := Some(m.version)), MountResult(true, true);
    }
    if !IsManaged(live.options) {
      return;
    }
    if live.description != m.description {
      tune, res := tune.(description := Some(m.description)), res.(changed := true);
    }
    var want, differs := DesiredOptions(live.options, m.options);
    DifferingOptions(live.options, m.options);
    if differs {
      tune, res := tune.(options := Some(want)), MountResult(true, true);
    }
  }

  /** Options are the same in effect iff every key reads the same. */
  lemma {:induction false} SameInEffectIff(a: Options, b: Options)
    ensures InEffect(a) == InEffect(b) <==> forall k :: OptionValue(a, k) == OptionValue(b, k)
  {
    InEffectReads(a);
    InEffectReads(b);
    if forall k :: OptionValue(a, k) == OptionValue(b, k) {
      assert InEffect(a).Keys == InEffect(b).Keys;
    } else {
      var k :| OptionValue(a, k) != OptionValue(b, k);
      assert OptionValue(InEffect(a), k) != OptionValue(InEffect(b), k);
    }
  }

  lemma {:induction false} InEffectReads(a: Options)
    ensures forall k :: OptionValue(InEffect(a), k) == OptionValue(a, k)
    ensures forall k :: k in InEffect(a) <==> OptionValue(a, k) != ""
  {
  }

  /** The loop's test is the difference of the options in effect. */
  lemma {:induction false} DifferingOptions(live: Options, declared: Options)
    ensures (exists k :: k in WantedOptions(live, declared) && OptionValue(live, k) != WantedOptions(live, declared)[k])
       <==> !OptionsConform(live, declared)
  {
    var want, wm := WantedOptions(live, declared), WithManaged(declared);
    SameInEffectIff(live, wm);
    forall k
      ensures k in want ==> want[k] == OptionValue(wm, k)
      ensures k !in want ==> OptionValue(live, k) == OptionValue(wm, k)
    {
    }
  }

  // ----- The same in terms of single options -----

  /** Option `k` reads as `v`: an absent option reads as the empty string. */
  ghost predicate Reads(opts: Options, k: string, v: string) {
    if k in opts then opts[k] == v else v == ""
  }

  ghost predicate Marked(opts: Options) {
    "managed-by" in opts && opts["managed-by"] == "vault-plugin-manager"
  }

  /** Every option reads as declared, and the marker is there whatever was declared under its name. */
  ghost predicate ReadsDeclared(live: Options, declared: Options) {
    Marked(live) && forall k, v :: k != "managed-by" ==> (Reads(live, k, v) <==> Reads(declared, k, v))
  }

  lemma {:induction false} OptionsConformIff(live: Options, declared: Options)
    ensures OptionsConform(live, declared) <==> ReadsDeclared(live, declared)
    ensures IsManaged(live) <==> Marked(live)
  {
    var wm := WithManaged(declared);
    SameInEffectIff(live, wm);
    if ReadsDeclared(live, declared) {
      forall k
        ensures OptionValue(live, k) == OptionValue(wm, k)
      {
        assert k != "managed-by" ==> Reads(live, k, OptionValue(live, k));
      }
    }
    if OptionsConform(live, declared) {
      assert OptionValue(live, "managed-by") == OptionValue(wm, "managed-by") == "vault-plugin-manager";
      forall k, v | k != "managed-by"
        ensures Reads(live, k, v) <==> Reads(declared, k, v)
      {
        assert OptionValue(live, k) == OptionValue(wm, k);
      }
    }
  }

  /** A mount conforms iff its version is the declared one up to a leading "v" and, if it carries the marker, its
      description is the declared one and every option reads as declared. */
  lemma {:induction false} ConformsIff(live: Live, m: Mount)
    ensures Conforms(live, m) <==>
              && EqualUpToV(live.version, m.version)
              && (Marked(live.options) ==>
                    live.description == m.description && ReadsDeclared(live.options, m.options))
  {
    SameVersionIff(live.version, m.version);
    OptionsConformIff(live.options, m.options);
  }

  /** The tune names exactly what is off, with the declared value: an owned mount's options all at once, with the
      marker, and an empty value for what is no longer declared. A version or an option that is off asks for a
      reload. */
  ghost predicate TuneNames(live: Live, m: Mount, tune: Tune, res: MountResult) {
    && tune.version == (if EqualUpToV(live.version, m.version) then None else Some(m.version))
    && tune.description ==
       (if Marked(live.options) && live.description != m.description then Some(m.description) else None)
    && (tune.options.Some? <==> Marked(live.options) && !ReadsDeclared(live.options, m.options))
    && (tune.options.Some? ==>
          && Marked(tune.options.value)
            && tune.options.value.Keys == live.options.Keys + m.options.Keys + {"managed-by"}
          && forall k :: k in tune.options.value && k != "managed-by" ==> Reads(m.options, k, tune.options.value[k]))
    && (res.changed <==> tune.version.Some? || tune.description.Some? || tune.options.Some?)
    && (res.reload <==> tune.version.Some? || tune.options.Some?)
  }

  lemma {:induction false} TuneNamesWhatIsOff(live: Live, m: Mount)
    ensures var (tune, res) := TuneFor(live, m); TuneNames(live, m, tune, res)
  {
    SameVersionIff(live.version, m.version);
    OptionsConformIff(live.options, m.options);
  }

  // ----- What Vault does with a tune -----

  /** Vault merges a tuned option map into the stored one and drops the keys tuned to an empty value,
      or replaces the stored map.  `report` is how it spells a version it is given. */
  datatype Semantics = Semantics(merges: bool, report: string -> string)

  /** Vault reports a version as given, or with a leading "v" if it had none. */
  ghost predicate Plausible(sem: Semantics) {
    forall v :: sem.report(v) == v || (sem.report(v) == "v" + v && (v == "" || v[0] != 'v'))
  }

  function TunedOptions(sem: Semantics, stored: Options, tuned: Options): Options {
    if sem.merges then (stored + tuned) - (set k | k in tuned && tuned[k] == "") else tuned
  }

  function ApplyTune(sem: Semantics, live: Live, tune: Tune): Live {
    live.(version := if tune.version.Some? then sem.report(tune.version.value) else live.version,
          description := if tune.description.Some? then tune.description.value else live.description,
          options := if tune.options.Some? then TunedOptions(sem, live.options, tune.options.value) else live.options)
  }

  lemma {:induction false} TunedOptionsInEffect(sem: Semantics, live: Options, declared: Options)
    ensures OptionsConform(TunedOptions(sem, live, WantedOptions(live, declared)), declared)
    ensures IsManaged(TunedOptions(sem, live, WantedOptions(live, declared)))
  {
    var want, wm := WantedOptions(live, declared), WithManaged(declared);
    assert want[MANAGED_BY_KEY] == MANAGED_BY_VALUE;
    assert InEffect(want) == InEffect(wm);
    if sem.merges {
      assert live + want == want;
      assert InEffect(TunedOptions(sem, live, want)) == InEffect(want);
    }
  }

  lemma {:induction false} ReportKeepsVersion(sem: Semantics, v: string)
    requires Plausible(sem)
    ensures SameVersion(sem.report(v), v)
  {
    assert ("v" + v)[1..] == v;
  }

  /** Tuning is a one-step fixpoint under either semantics: afterwards the mount conforms, its owner is
      who it was, and the next pass computes no change and no reload. */
  lemma {:induction false} OneTuneSettles(sem: Semantics, live: Live, m: Mount)
    requires Plausible(sem)
    ensures var after := ApplyTune(sem, live, TuneFor(live, m).0);
            && Conforms(after, m)
            && TuneFor(after, m) == (NO_TUNE, MountResult(false, false))
            && IsManaged(after.options) == IsManaged(live.options)
            && after.uuid == live.uuid && after.plugin == live.plugin
  {
    ReportKeepsVersion(sem, m.version);
    TunedOptionsInEffect(sem, live.options, m.options);
  }

  /** A tune is computed iff the mount does not conform, and it reloads unless only the description moved. */
  lemma {:induction false} ChangeIffNonconforming(live: Live, m: Mount)
    ensures TuneFor(live, m).1.changed <==> !Conforms(live, m)
    ensures TuneFor(live, m).1.reload <==> !Conforms(live.(description := m.description), m)
    ensures !TuneFor(live, m).1.changed <==> TuneFor(live, m).0 == NO_TUNE
  {
  }

  /** Enabling a missing mount. */
  function Enabled(sem: Semantics, m: Mount, uuid: string): Live {
    Live(m.plugin, sem.report(m.version), m.description, WithManaged(m.options), uuid)
  }

  /** A mount just enabled conforms and carries the marker, whatever options were declared. */
  lemma {:induction false} EnabledConforms(sem: Semantics, m: Mount, uuid: string)
    requires Plausible(sem)
    ensures Conforms(Enabled(sem, m, uuid), m) && IsManaged(Enabled(sem, m, uuid).options)
  {
    ReportKeepsVersion(sem, m.version);
  }

  /** EnsureMount of `m` at its normalised place `id`: enable a missing mount, tune an existing one that
      does not conform.  No result stands for an error. */
  function EnsureMount(sem: Semantics, mounts: map<MountId, Live>, id: MountId, m: Mount, uuid: string, fate: Fate)
    : (map<MountId, Live>, Option<MountResult>)
  {
    if id.mtype.Database? then (mounts, None)
    else if id in mounts && !TuneFor(mounts[id], m).1.changed then (mounts, Some(MountResult(false, false)))
    else
      var (after, res) :=
          if id in mounts then (ApplyTune(sem, mounts[id], TuneFor(mounts[id], m).0), TuneFor(mounts[id], m).1)
                          else (Enabled(sem, m, uuid), MountResult(true, true));
      (if fate.NotDone? then mounts else mounts[id := after], if fate.Done? then Some(res) else None)
  }

  /** The request of EnsureMount, after its listing saw `seen` at `id` and others may have moved on: a missing mount is
      enabled unless the place is taken by now, an existing one tuned by what was seen, whatever is there by now. */
  function ActOn(sem: Semantics, mounts: map<MountId, Live>, id: MountId, m: Mount, seen: Option<Live>, uuid: string,
                 fate: Fate)
    : (map<MountId, Live>, Option<MountResult>)
  {
    if id.mtype.Database? then (mounts, None)
    else if seen.None? then
      if id in mounts then (mounts, None)
      else (if fate.NotDone? then mounts else mounts[id := Enabled(sem, m, uuid)],
            if fate.Done? then Some(MountResult(true, true)) else None)
    else
      var (tune, res) := TuneFor(seen.value, m);
      if !res.changed then (mounts, Some(MountResult(false, false)))
      else if id !in mounts then (mounts, None)
      else (if fate.NotDone? then mounts
            else mounts[id := ApplyTune(sem, mounts[id], tune)], if fate.Done? then Some(res) else None)
  }

  function LookAt(mounts: map<MountId, Live>, id: MountId): Option<Live> {
    if id in mounts then Some(mounts[id]) else None
  }

  /** With nobody in between, EnsureMount is its look and its act. */
  lemma {:induction false} EnsureIsLookThenAct(sem: Semantics, mounts: map<MountId, Live>, id: MountId, m: Mount,
                                               uuid: string, fate: Fate)
    ensures EnsureMount(sem, mounts, id, m, uuid, fate) == ActOn(sem, mounts, id, m, LookAt(mounts, id), uuid, fate)
  {
  }

  /** What is enabled in a missing mount's place: the declared plugin, version, description and options, with the
      marker. */
  ghost predicate RunsDeclared(sem: Semantics, live: Live, m: Mount) {
    && live.plugin == m.plugin && live.version == sem.report(m.version) && live.description == m.description
    && live.options == m.options["managed-by" := "vault-plugin-manager"]
  }

  /** Whatever was seen and whatever is there by now: only a place seen empty and still empty is enabled, and with what
      is declared; a mount that is there keeps its plugin and its UUID. */
  lemma {:induction false} ActRunsDeclared(sem: Semantics, mounts: map<MountId, Live>, id: MountId, m: Mount,
                                           seen: Option<Live>, uuid: string, fate: Fate)
    ensures var (after, res) := ActOn(sem, mounts, id, m, seen, uuid, fate);
            && (id !in mounts && id in after ==>
                  seen.None? && RunsDeclared(sem, after[id], m) && after[id].uuid == uuid)
            && (id in mounts ==>
                  id in after && after[id].plugin == mounts[id].plugin && after[id].uuid == mounts[id].uuid)
            && (seen.None? && res.Some? ==> id !in mounts && id in after)
  {
  }

  /** The same of the whole EnsureMount: a result for a missing place means that it runs what is declared. */
  lemma {:induction false} EnsuredRunsDeclared(sem: Semantics, mounts: map<MountId, Live>, id: MountId, m: Mount,
                                               uuid: string, fate: Fate)
    ensures var (after, res) := EnsureMount(sem, mounts, id, m, uuid, fate);
            && (id !in mounts && id in after ==> RunsDeclared(sem, after[id], m) && after[id].uuid == uuid)
            && (id !in mounts && res.Some? ==> id in after)
            && (id in mounts ==>
                  id in after && after[id].plugin == mounts[id].plugin && after[id].uuid == mounts[id].uuid)
  {
    ActRunsDeclared(sem, mounts, id, m, LookAt(mounts, id), uuid, fate);
    EnsureIsLookThenAct(sem, mounts, id, m, uuid, fate);
  }

  /** A tune computed from what was seen carries the marker. */
  predicate CarriesMarker(seen: Live, m: Mount) {
    IsManaged(seen.options) && !OptionsConform(seen.options, m.options)
  }

  /** Whatever was seen and whatever is there by now: the act touches no other mount and never takes a marker away; it
      marks an unmarked mount iff it lands with a tune computed from a marked one, and enables with the marker. */
  lemma {:induction false} ActMarksIff(sem: Semantics, mounts: map<MountId, Live>, id: MountId, m: Mount,
                                       seen: Option<Live>, uuid: string, fate: Fate)
    ensures var after := ActOn(sem, mounts, id, m, seen, uuid, fate).0;
            && (after == mounts || (id in after && after == mounts[id := after[id]]))
            && (id in mounts && IsManaged(mounts[id].options) ==> IsManaged(after[id].options))
            && (id in mounts && !IsManaged(mounts[id].options) ==>
                  (IsManaged(after[id].options) <==>
                     seen.Some? && !id.mtype.Database? && !fate.NotDone? && CarriesMarker(seen.value, m)))
            && (id !in mounts && id in after ==> seen.None? && IsManaged(after[id].options) && after[id].uuid == uuid)
            && (id in mounts ==> after[id].uuid == mounts[id].uuid)
  {
    if seen.Some? && id in mounts {
      TuneMarksIff(sem, mounts[id], seen.value, m);
    }
  }

  lemma {:induction false} TuneMarksIff(sem: Semantics, live: Live, seen: Live, m: Mount)
    ensures var after := ApplyTune(sem, live, TuneFor(seen, m).0);
            && after.uuid == live.uuid
            && (IsManaged(after.options) <==> IsManaged(live.options) || CarriesMarker(seen, m))
  {
    var want := WantedOptions(seen.options, m.options);
    assert want[MANAGED_BY_KEY] == MANAGED_BY_VALUE;
  }

  /** EnsureMount never touches another mount, and never moves the marker of the one it is given. */
  lemma {:induction false} EnsureMountKeepsMarkers(sem: Semantics, mounts: map<MountId, Live>, id: MountId, m: Mount,
                                                   uuid: string, fate: Fate)
    requires Plausible(sem)
    ensures var after := EnsureMount(sem, mounts, id, m, uuid, fate).0;
            && (after == mounts || (id in after && after == mounts[id := after[id]]))
            && (id in mounts ==> IsManaged(after[id].options) == IsManaged(mounts[id].options))
            && (id !in mounts && id in after ==> IsManaged(after[id].options))
  {
    if id in mounts {
      OneTuneSettles(sem, mounts[id], m);
    }
  }

  /** Without an error the mount conforms, and one that conformed was left as it was. */
  lemma {:induction false} EnsureMountConforms(sem: Semantics, mounts: map<MountId, Live>, id: MountId, m: Mount,
                                               uuid: string, fate: Fate)
    requires Plausible(sem) && EnsureMount(sem, mounts, id, m, uuid, fate).1.Some?
    ensures var (after, res) := EnsureMount(sem, mounts, id, m, uuid, fate);
            && id in after && Conforms(after[id], m)
            && (res.value.changed <==> !(id in mounts && Conforms(mounts[id], m)))
            && (!res.value.changed ==> after == mounts && !res.value.reload)
  {
    if id in mounts {
      OneTuneSettles(sem, mounts[id], m);
      ChangeIffNonconforming(mounts[id], m);
    } else {
      EnabledConforms(sem, m, uuid);
    }
  }
}
