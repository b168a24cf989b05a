/** The engine config step as the reconciler runs it: internal/reconcile/engineconfig.go, reconcileEngineConfigs and
what it calls. Every request goes through a Stores object, which may disturb the world before answering and may answer
with an error; the ghost labels tie the methods to the state machine of EngineConfigRuns. */
module EngineConfigStep {
  import opened Requests
  import opened RoleValues
  import opened EngineConfigs
  import opened EngineConfigRuns
  import Scrub
  import Strings

  datatype StateAnswer = StateMissing | StateUnreadable | StateFound(doc: Document, version: nat)
  datatype SecretAnswer = SecretMissing | SecretUnreadable | SecretFound(data: map<string, string>)

  /** One read of a referenced Secret. */
  datatype SecretRead = SecretRead(name: string, answer: SecretAnswer)

  // ----- What a pass did, by its labels -----

  /** The labels grew by steps that start no pass. */
  ghost predicate Continues(before: seq<Label>, after: seq<Label>) {
    before <= after && forall i :: |before| <= i < |after| ==> !after[i].Start?
  }

  /** The labels grew by steps of passes over `spec` only. */
  ghost predicate PassOver(spec: seq<Entry>, before: seq<Label>, after: seq<Label>) {
    before <= after && forall i :: |before| <= i < |after| && after[i].Start? ==> after[i].spec == spec
  }

  /** The step goes wrong. */
  ghost predicate Errs(codec: Codec, g: Global, l: Label) {
    && Enabled(g.proc, l)
    && match l
       case Start(_, _) => Step(codec, g, l).proc.Idle?
       case Build(_) => Step(codec, g, l).proc.Idle?
       case ReadUuids(_) => Step(codec, g, l).proc.Idle?
       case Create(_) => Step(codec, g, l).proc.Idle?
       case Write(fate) => !fate.Done?
       case Save(fate) => Dirty(g.proc) && SavePut(g.world, g.proc, fate).1.None?
       case _ => false
  }

  ghost function SavePut(w: World, p: Proc, fate: Fate): (World, Option<nat>)
    requires p.Writing?
  {
    Put(w, p.version, RenderDocument(DropUndeclared(p.records, p.entries)), fate)
  }

  /** How many steps of a run went wrong. */
  ghost function Errors(codec: Codec, g: Global, labels: seq<Label>): nat {
    if labels == [] then 0
    else
      var before, l := labels[..|labels| - 1], labels[|labels| - 1];
      Errors(codec, g, before) + if Errs(codec, Run(codec, g, before), l) then 1 else 0
  }

  // ----- What the referenced Secrets answered -----

  /** The Secrets found by these reads. */
  ghost function Found(asked: seq<SecretRead>): Snapshot {
    if asked == [] then map[]
    else
      var before, last := Found(asked[..|asked| - 1]), asked[|asked| - 1];
      if last.answer.SecretFound? then before[last.name := last.answer.data] else before
  }

  ghost predicate Asked(name: string, asked: seq<SecretRead>) {
    exists r :: r in asked && r.name == name
  }

  ghost predicate AllFound(asked: seq<SecretRead>) {
    forall r :: r in asked ==> r.answer.SecretFound?
  }

  ghost predicate ReadOnce(asked: seq<SecretRead>) {
    forall i, j :: 0 <= i < j < |asked| ==> asked[i].name != asked[j].name
  }

  /** The values of the fields, up to the first unusable one. */
  ghost function UsableValues(codec: Codec, data: map<string, string>, keys: map<string, string>, fields: seq<string>)
    : seq<string>
    requires forall f :: f in fields ==> f in keys
  {
    if fields == [] || !FieldUsable(codec, data, keys[fields[0]]) then []
    else [data[keys[fields[0]]]] + UsableValues(codec, data, keys, fields[1..])
  }

  /** The Secret values that building one entry's body reads, by the fields' names. */
  ghost function EntryValues(codec: Codec, e: Entry, snapshot: Snapshot): seq<string> {
    if e.secretRef.None? || e.secretRef.value.name !in snapshot then []
    else
      var ref := e.secretRef.value;
      assert forall f :: f in Strings.SortedKeys(ref.keys.Keys) ==>
               f in Strings.ElementsOf(Strings.SortedKeys(ref.keys.Keys));
      UsableValues(codec, snapshot[ref.name], ref.keys, Strings.SortedKeys(ref.keys.Keys))
  }

  /** The Secret values that building the bodies reads, up to the first entry that cannot be built. */
  ghost function ValuesRead(codec: Codec, spec: seq<Entry>, snapshot: Snapshot): seq<string> {
    if spec == [] then []
    else
      EntryValues(codec, spec[0], snapshot) +
      if ResolveEntry(codec, spec[0], snapshot).None? then [] else ValuesRead(codec, spec[1..], snapshot)
  }

  /** Why nothing was built: the first entry that cannot be built had its Secret asked for. */
  ghost predicate Blamed(codec: Codec, spec: seq<Entry>, asked: seq<SecretRead>, n: nat) {
    && n < |spec| && ResolveAll(codec, spec[..n], Found(asked)).Some?
    && ResolveEntry(codec, spec[n], Found(asked)).None?
    && (spec[n].secretRef.Some? ==> Asked(spec[n].secretRef.value.name, asked))
  }

  // ----- The requests -----

  class Stores {
    const codec: Codec
    var world: World
    ghost const mounts0: map<string, string>
    ghost var proc: Proc
    ghost var labels: seq<Label>
    /** How many of the labels went wrong. */
    ghost var errors: nat
    /** The Secrets read by the pass. */
    ghost var asked: seq<SecretRead>

    constructor (codec: Codec, mounts: map<string, string>)
      ensures Valid() && proc.Idle? && labels == [] && this.codec == codec
    {
      this.codec, mounts0 := codec, mounts;
      world, proc, labels, errors, asked := Initial(mounts).world, Idle, [], 0, [];
    }

    /** The world and the process are where the machine is after the labels, none of them a crash. */
    ghost predicate Valid()
      reads this
    {
      && Global(world, proc) == Run(codec, Initial(mounts0), labels) && Crash !in labels
      && errors == Errors(codec, Initial(mounts0), labels)
    }

    /** Record a step that has just happened in the world. */
    ghost method Note(l: Label, before: World)
      requires Global(before, proc) == Run(codec, Initial(mounts0), labels) && Crash !in labels && !l.Crash?
      requires errors == Errors(codec, Initial(mounts0), labels)
      requires world == Step(codec, Global(before, proc), l).world
      modifies `proc, `labels, `errors
      ensures Valid() && labels == old(labels) + [l]
      ensures Global(world, proc) == Step(codec, Global(before, old(proc)), l)
      ensures errors == old(errors) + if Errs(codec, Global(before, old(proc)), l) then 1 else 0
    {
      assert (labels + [l])[..|labels|] == labels;
      errors := errors + if Errs(codec, Global(before, proc), l) then 1 else 0;
      proc, labels := Step(codec, Global(before, proc), l).proc, labels + [l];
    }

    /** Anybody else's turn: mounts change, the state Secret may be deleted. */
    method Disturb()
      requires Valid()
      modifies `world, `proc, `labels, `errors
      ensures Valid() && proc == old(proc) && errors == old(errors)
      ensures Continues(old(labels), labels) && Prepares(old(labels), labels) && world.log == old(world.log)
    {
      var mounts: map<string, string> := *;
      var deleteState: bool := *;
      ghost var before := world;
      world := world.(mounts := mounts, state := if deleteState then None else world.state);
      Note(Outside(mounts, deleteState), before);
    }

    /** GetSecretData on the state Secret: the start of the step. */
    method GetState(ghost spec: seq<Entry>) returns (answer: StateAnswer)
      requires Valid() && proc.Idle?
      modifies this
      ensures Valid() && PassOver(spec, old(labels), labels) && Prepares(old(labels), labels) && asked == []
      ensures proc == match answer
                      case StateMissing => Loaded(spec, map[], None)
                      case StateUnreadable => Idle
                      case StateFound(doc, version) =>
                        if LoadDocument(doc).Some? then Loaded(spec, LoadDocument(doc).value, Some(version)) else Idle
      ensures errors == old(errors) + if proc.Idle? then 1 else 0
      ensures labels != [] && labels[|labels| - 1] == Start(spec, !answer.StateUnreadable?)
      ensures match answer
              case StateMissing => world.state.None?
              case StateUnreadable => true
              case StateFound(doc, version) => world.state == Some(StateSecret(version, doc))
    {
      Disturb();
      var readable: bool := *;
      ghost var before := world;
      var events := [PassStarted];
      if !readable {
        answer := StateUnreadable;
      } else if world.state.None? {
        answer := StateMissing;
      } else {
        answer := StateFound(world.state.value.doc, world.state.value.version);
        if LoadDocument(world.state.value.doc).Some? {
          events := events + [StateSeen];
        }
      }
      assert events == [PassStarted] || world.log + events == (world.log + [PassStarted]) + [StateSeen];
      world := world.(log := world.log + events);
      asked := [];
      Note(Start(spec, readable), before);
    }

    /** GetSecretData on a referenced Secret: its content is anybody's. */
    method GetSecret(name: string) returns (answer: SecretAnswer)
      requires Valid()
      modifies this
      ensures Valid() && proc == old(proc) && errors == old(errors)
      ensures Continues(old(labels), labels) && Prepares(old(labels), labels)
      ensures asked == old(asked) + [SecretRead(name, answer)]
    {
      Disturb();
      var kind: int := *;
      var data: map<string, string> := *;
      answer := if kind == 0 then SecretMissing else if kind == 1 then SecretUnreadable else SecretFound(data);
      asked := asked + [SecretRead(name, answer)];
    }

    /** SecretMountUUIDs */
    method GetMountUuids() returns (uuids: Option<map<string, string>>)
      requires Valid() && proc.Built? && proc.entries != []
      modifies `world, `proc, `labels, `errors
      ensures Valid() && Continues(old(labels), labels) && Prepares(old(labels), labels)
      ensures labels != [] && labels[|labels| - 1] == ReadUuids(uuids.Some?) && SendsNothing(old(world), world)
      ensures uuids.Some? ==> uuids.value == world.mounts
      ensures var known := uuids.Some? && MountsKnown(old(proc).entries, uuids.value);
              && proc == (if known then Ready(old(proc).loaded, old(proc).version, old(proc).entries, uuids.value)
                          else Idle)
              && errors == old(errors) + if known then 0 else 1
    {
      Disturb();
      var readable: bool := *;
      ghost var before := world;
      if readable {
        uuids := Some(world.mounts);
        world := Logged(world, UuidsRead(world.mounts));
      } else {
        uuids := None;
      }
      Note(ReadUuids(readable), before);
    }

    /** PutSecretData without a version: create the state Secret holding no record. */
    method CreateState() returns (version: Option<nat>)
      requires Valid() && MustCreate(proc)
      modifies `world, `proc, `labels, `errors
      ensures Valid() && Continues(old(labels), labels) && Prepares(old(labels), labels)
      ensures proc == (if version.Some? then StartWriting(old(proc), version) else Idle)
              && SendsNothing(old(world), world)
      ensures errors == old(errors) + if version.Some? then 0 else 1
    {
      Disturb();
      var fate: Fate := *;
      ghost var before := world;
      var put := Put(world, None, RenderDocument(map[]), fate);
      version := put.1;
      world := if version.Some? then Logged(put.0, StateSeen) else put.0;
      Note(Create(fate), before);
    }

    /** WriteEngineConfig */
    method WriteConfig(key: string, body: Body) returns (ok: bool)
      requires Valid() && CanWrite(proc)
      requires var e := ReadyPending(proc)[proc.done]; e.key == key && e.body == body
      modifies `world, `proc, `labels, `errors
      ensures Valid() && Continues(old(labels), labels)
      ensures proc == var e := ReadyPending(old(proc))[old(proc).done];
                      var rec := Record(e.digest, old(proc).uuids[e.mount]);
                      if ok then old(proc).(records := old(proc).records[key := rec], done := old(proc).done + 1)
                      else old(proc).(failed := true)
      ensures errors == old(errors) + if ok then 0 else 1
      ensures |world.log| == |old(world).log| + 1 && old(world).log <= world.log
      ensures var sent := world.log[|old(world).log|];
              sent.Sent? && sent.key == key && sent.body == body && (sent.fate.Done? <==> ok)
    {
      Disturb();
      var fate: Fate := *;
      ghost var before := world;
      ok := fate.Done?;
      world := Logged(world, Sent(key, body, fate));
      Note(Write(fate), before);
    }

    /** PutSecretData with a version: the guarded save. */
    method SaveState(version: Option<nat>, records: Records) returns (ok: bool)
      requires Valid() && CanSave(proc) && Dirty(proc)
      requires version == proc.version && records == DropUndeclared(proc.records, proc.entries)
      modifies `world, `proc, `labels, `errors
      ensures Valid() && Continues(old(labels), labels) && proc.Idle? && SendsNothing(old(world), world)
      ensures EndsWithSave(codec, Initial(mounts0), labels, old(proc))
      ensures ok ==> world.state.Some? && world.state.value.doc == RenderDocument(records)
      ensures errors == old(errors) + if ok then 0 else 1
    {
      Disturb();
      var fate: Fate := *;
      ghost var before := world;
      var put := Put(world, version, RenderDocument(records), fate);
      ok := put.1.Some?;
      world := put.0;
      ghost var l := labels;
      Note(Save(fate), before);
      assert labels[..|labels| - 1] == l;
    }
  }

  /** The last step was the save of a pass that stood at `at`. */
  ghost predicate EndsWithSave(codec: Codec, g: Global, labels: seq<Label>, at: Proc) {
    labels != [] && labels[|labels| - 1].Save? && Run(codec, g, labels[..|labels| - 1]).proc == at
  }

  // ----- Loading the state -----

  /** The state Secret holds these records at this version: a missing one holds none, an existing one has to be a
      document in which every record has a digest and a UUID. */
  ghost predicate StateHolds(state: Option<StateSecret>, records: Records, version: Option<nat>) {
    match state
    case None => records == map[] && version.None?
    case Some(secret) =>
      && version == Some(secret.version) && secret.doc.Decoded? && secret.doc.records.Keys == records.Keys
      && forall k :: k in records ==>
           secret.doc.records[k] == Some(records[k]) && |records[k].sha256| > 0 && |records[k].mountUUID| > 0
  }

  lemma {:induction false} HoldsWhatLoads(secret: StateSecret, records: Records, version: Option<nat>)
    ensures StateHolds(Some(secret), records, version)
       <==> LoadDocument(secret.doc) == Some(records) && version == Some(secret.version)
  {
    if StateHolds(Some(secret), records, version) {
      assert forall k :: k in secret.doc.records ==> k in records.Keys;
      assert records == map k | k in secret.doc.records :: secret.doc.records[k].value;
    }
  }

  /** The state was read for what it holds, or it could not be read, or holds nothing usable. */
  ghost predicate LoadedFrom(labels: seq<Label>, state: Option<StateSecret>, loaded: Option<(Records, Option<nat>)>) {
    && labels != [] && labels[|labels| - 1].Start?
    && var readable := labels[|labels| - 1].readable;
       if loaded.Some? then readable && StateHolds(state, loaded.value.0, loaded.value.1)
       else readable ==> forall records, version :: !StateHolds(state, records, version)
  }

  /** loadEngineConfigState: only a missing Secret is empty state. */
  method LoadState(c: Stores, ghost spec: seq<Entry>) returns (loaded: Option<(Records, Option<nat>)>)
    requires c.Valid() && c.proc.Idle?
    modifies c
    ensures c.Valid() && PassOver(spec, old(c.labels), c.labels) && Prepares(old(c.labels), c.labels) && c.asked == []
    ensures c.proc == if loaded.Some? then Loaded(spec, loaded.value.0, loaded.value.1) else Idle
    ensures c.errors == old(c.errors) + if loaded.Some? then 0 else 1
    ensures LoadedFrom(c.labels, c.world.state, loaded)
  {
    var answer := c.GetState(spec);
    if answer.StateFound? {
      forall records, version
        ensures StateHolds(c.world.state, records, version) <==>
                  LoadDocument(answer.doc) == Some(records) && version == Some(answer.version)
      {
        HoldsWhatLoads(c.world.state.value, records, version);
      }
    }
    match answer
    case StateMissing =>
      return Some((map[], None));
    case StateUnreadable =>
      return None;
    case StateFound(doc, version) =>
      if !doc.Decoded? {
        return None;
      }
      var left, records := doc.records.Keys, map[];
      while left != {}
        invariant left <= doc.records.Keys
        invariant records.Keys == doc.records.Keys - left
        invariant forall k :: k in records ==> doc.records[k] == Some(records[k]) && Complete(doc.records[k])
        decreases left
      {
        var k :| k in left;
        if !Complete(doc.records[k]) {
          return None;
        }
        left, records := left - {k}, records[k := doc.records[k].value];
      }
      assert records == map k | k in doc.records :: doc.records[k].value;
      return Some((records, Some(version)));
  }

  // ----- Building the bodies -----

  /** resolveEngineConfigs: every body built before anything is written, each Secret read once. `values` is every Secret
      value put into a body, whether or not all bodies could be built. */
  method ResolveEntries(c: Stores, spec: seq<Entry>) returns (entries: Option<seq<Resolved>>, values: seq<string>)
    requires c.Valid() && c.proc.Loaded? && c.proc.spec == spec && c.asked == []
    modifies c
    ensures c.Valid() && Continues(old(c.labels), c.labels) && Prepares(old(c.labels), c.labels)
    ensures BuiltOrBlamed(c.codec, spec, c.asked, entries, values)
    ensures c.proc == if entries.Some? then Built(old(c.proc).loaded, old(c.proc).version, entries.value) else Idle
    ensures c.errors == old(c.errors) + if entries.Some? then 0 else 1
  {
    entries, values := BuildAll(c, spec);
    c.Note(Build(if entries.Some? then Some(Found(c.asked)) else None), c.world);
  }

  /** What resolving comes to: every body, and the values read; or the first entry that could not be built. */
  ghost predicate BuiltOrBlamed(codec: Codec, spec: seq<Entry>, asked: seq<SecretRead>,
                                entries: Option<seq<Resolved>>, values: seq<string>)
  {
    && ReadOnce(asked)
    && entries == ResolveAll(codec, spec, Found(asked)) && values == ValuesRead(codec, spec, Found(asked))
    && (entries.None? ==> exists n :: Blamed(codec, spec, asked, n))
  }

  /** The loop of resolveEngineConfigs. */
  method BuildAll(c: Stores, spec: seq<Entry>) returns (entries: Option<seq<Resolved>>, values: seq<string>)
    requires c.Valid() && c.asked == []
    modifies c
    ensures c.Valid() && c.proc == old(c.proc) && c.errors == old(c.errors)
    ensures Continues(old(c.labels), c.labels) && Prepares(old(c.labels), c.labels)
    ensures BuiltOrBlamed(c.codec, spec, c.asked, entries, values)
  {
    var snapshot: Snapshot := map[];
    var out: seq<Resolved> := [];
    values := [];
    for n := 0 to |spec|
      invariant c.Valid() && c.proc == old(c.proc) && c.errors == old(c.errors)
      invariant Continues(old(c.labels), c.labels) && Prepares(old(c.labels), c.labels)
      invariant BuiltSoFar(c.codec, spec[..n], c.asked, snapshot, out, values)
    {
      var resolved, got;
      ghost var asked := c.asked;
      resolved, snapshot, got := ResolveOne(c, spec[n], snapshot);
      SplitAt(spec, n);
      if resolved.None? {
        BuildingStops(c.codec, spec[..n], spec[n], spec[n + 1..], spec, asked, out, values, c.asked);
        return None, values + got;
      }
      BuiltOneMore(c.codec, spec[..n], spec[n], asked, out, values, c.asked, spec[..n + 1]);
      values, out := values + got, out + [resolved.value];
    }
    assert spec[..|spec|] == spec;
    entries := Some(out);
  }

  /** The first entries are built, each Secret they refer to read once. */
  ghost predicate BuiltSoFar(codec: Codec, spec: seq<Entry>, asked: seq<SecretRead>, snapshot: Snapshot,
                             out: seq<Resolved>, values: seq<string>)
  {
    && ReadOnce(asked) && AllFound(asked) && snapshot == Found(asked)
    && ResolveAll(codec, spec, snapshot) == Some(out) && values == ValuesRead(codec, spec, snapshot)
  }

  /** One entry after `done` is built too, after the reads `more` in place of `asked`, or the building stops there. */
  lemma {:induction false} BuiltOneMore(codec: Codec, done: seq<Entry>, e: Entry, asked: seq<SecretRead>,
                                        out: seq<Resolved>, values: seq<string>, more: seq<SecretRead>,
                                        next: seq<Entry>)
    requires BuiltSoFar(codec, done, asked, Found(asked), out, values) && LookedAt(e, asked, more, true)
    requires ResolveEntry(codec, e, Found(more)).Some? && next == done + [e]
    ensures BuiltSoFar(codec, next, more, Found(more), out + [ResolveEntry(codec, e, Found(more)).value],
                       values + EntryValues(codec, e, Found(more)))
  {
    ResolvedOneMore(codec, done, e, Found(asked), Found(more));
  }

  lemma {:induction false} BuildingStops(codec: Codec, done: seq<Entry>, e: Entry, rest: seq<Entry>, spec: seq<Entry>,
                                         asked: seq<SecretRead>, out: seq<Resolved>, values: seq<string>,
                                         more: seq<SecretRead>)
    requires spec == done + [e] + rest
    requires BuiltSoFar(codec, done, asked, Found(asked), out, values) && LookedAt(e, asked, more, false)
    requires ResolveEntry(codec, e, Found(more)).None?
    ensures BuiltOrBlamed(codec, spec, more, None, values + EntryValues(codec, e, Found(more)))
  {
    ResolvedOneMore(codec, done, e, Found(asked), Found(more));
    StoppedShort(codec, done + [e], rest, Found(more));
    StillBuilt(codec, done, Found(asked), Found(more));
    assert spec[..|done|] == done && spec[|done|] == e;
    assert Blamed(codec, spec, more, |done|);
  }

  lemma SplitAt<T>(s: seq<T>, n: nat)
    requires n < |s|
    ensures s == s[..n] + [s[n]] + s[n + 1..] && s[..n + 1] == s[..n] + [s[n]]
  {
  }

  /** One more entry looked at, after the reads `more` in place of `asked`. */
  ghost predicate LookedAt(e: Entry, asked: seq<SecretRead>, more: seq<SecretRead>, found: bool) {
    && ReadOnce(more) && Grows(Found(asked), Found(more))
    && (e.secretRef.Some? ==> Asked(e.secretRef.value.name, more))
    && (found ==> AllFound(more))
  }

  /** One entry: its Secret is read unless an earlier entry's read is at hand. */
  method ResolveOne(c: Stores, e: Entry, snapshot: Snapshot)
    returns (resolved: Option<Resolved>, more: Snapshot, values: seq<string>)
    requires c.Valid() && ReadOnce(c.asked) && AllFound(c.asked) && snapshot == Found(c.asked)
    modifies c
    ensures c.Valid() && c.proc == old(c.proc) && c.errors == old(c.errors)
    ensures Continues(old(c.labels), c.labels) && Prepares(old(c.labels), c.labels)
    ensures old(c.asked) <= c.asked
    ensures |c.asked| - |old(c.asked)| == if e.secretRef.Some? && e.secretRef.value.name !in snapshot then 1 else 0
    ensures more == Found(c.asked) && LookedAt(e, old(c.asked), c.asked, resolved.Some?)
    ensures resolved == ResolveEntry(c.codec, e, more) && values == EntryValues(c.codec, e, more)
  {
    more, values := snapshot, [];
    if e.secretRef.Some? && e.secretRef.value.name !in snapshot {
      var answer := c.GetSecret(e.secretRef.value.name);
      ReadOneMore(e, old(c.asked), SecretRead(e.secretRef.value.name, answer));
      if !answer.SecretFound? {
        return None, more, values;
      }
      more := snapshot[e.secretRef.value.name := answer.data];
    } else {
      NothingNewToRead(e, c.asked);
    }
    var usable;
    usable, values := CollectFields(c.codec, e, more);
    resolved := if usable then ResolveEntry(c.codec, e, more) else None;
  }

  /** The secretRef fields of one entry, by name: the values read, and whether all are usable. */
  method CollectFields(codec: Codec, e: Entry, snapshot: Snapshot) returns (usable: bool, values: seq<string>)
    requires e.secretRef.Some? ==> e.secretRef.value.name in snapshot
    ensures usable <==> EntryUsable(codec, e, snapshot)
    ensures values == EntryValues(codec, e, snapshot)
  {
    usable, values := true, [];
    if e.secretRef.None? {
      return;
    }
    var ref := e.secretRef.value;
    var data := snapshot[ref.name];
    var fields := Strings.SortKeys(ref.keys.Keys);
    assert forall f :: f in fields <==> f in Strings.ElementsOf(fields);
    for n := 0 to |fields|
      invariant forall f :: f in fields[..n] ==> FieldUsable(codec, data, ref.keys[f])
      invariant values + UsableValues(codec, data, ref.keys, fields[n..]) == UsableValues(codec, data, ref.keys, fields)
    {
      var f := fields[n];
      assert fields[n..][1..] == fields[n + 1..] && fields[..n + 1] == fields[..n] + [f];
      if !FieldUsable(codec, data, ref.keys[f]) {
        assert f in ref.keys;
        return false, values;
      }
      Scrub.Associate(values, [data[ref.keys[f]]], UsableValues(codec, data, ref.keys, fields[n + 1..]));
      values := values + [data[ref.keys[f]]];
    }
    assert fields[..|fields|] == fields;
  }

  /** Reading one more Secret, one not read before. */
  lemma {:induction false} ReadOneMore(e: Entry, asked: seq<SecretRead>, read: SecretRead)
    requires ReadOnce(asked) && AllFound(asked)
    requires e.secretRef.Some? && read.name == e.secretRef.value.name && read.name !in Found(asked)
    ensures ReadOnce(asked + [read]) && Asked(read.name, asked + [read])
    ensures Found(asked + [read]) == if read.answer.SecretFound? then Found(asked)[read.name := read.answer.data]
                                     else Found(asked)
    ensures read.answer.SecretFound? ==> AllFound(asked + [read])
  {
    FoundAreAsked(asked);
    FoundOneMore(asked, read);
    AskedOneMore(asked, read);
  }

  lemma {:induction false} FoundOneMore(asked: seq<SecretRead>, read: SecretRead)
    ensures Found(asked + [read]) == if read.answer.SecretFound? then Found(asked)[read.name := read.answer.data]
                                     else Found(asked)
  {
    assert (asked + [read])[..|asked|] == asked;
  }

  lemma {:induction false} AskedOneMore(asked: seq<SecretRead>, read: SecretRead)
    requires ReadOnce(asked) && !Asked(read.name, asked)
    ensures ReadOnce(asked + [read]) && Asked(read.name, asked + [read])
    ensures AllFound(asked) && read.answer.SecretFound? ==> AllFound(asked + [read])
  {
    forall i | 0 <= i < |asked|
      ensures asked[i].name != read.name
    {
      assert asked[i] in asked;
    }
    assert read in asked + [read];
  }

  lemma {:induction false} NothingNewToRead(e: Entry, asked: seq<SecretRead>)
    requires ReadOnce(asked) && AllFound(asked)
    requires e.secretRef.Some? ==> e.secretRef.value.name in Found(asked)
    ensures (e.secretRef.Some? ==> Asked(e.secretRef.value.name, asked))
  {
    FoundAreAsked(asked);
  }

  lemma {:induction false} FoundAreAsked(asked: seq<SecretRead>)
    ensures forall r :: r in asked && r.answer.SecretFound? ==> r.name in Found(asked)
    ensures AllFound(asked) ==> forall name :: Asked(name, asked) ==> name in Found(asked)
    ensures forall name :: name in Found(asked) ==> Asked(name, asked)
  {
    if asked != [] {
      var before, last := asked[..|asked| - 1], asked[|asked| - 1];
      FoundAreAsked(before);
      assert asked == before + [last];
      assert last in asked;
    }
  }

  /** A larger snapshot keeps what was built from a smaller one. */
  lemma {:induction false} ResolvedOneMore(codec: Codec, spec: seq<Entry>, e: Entry, snapshot: Snapshot, more: Snapshot)
    requires ResolveAll(codec, spec, snapshot).Some? && Grows(snapshot, more)
    ensures var one := ResolveEntry(codec, e, more);
            ResolveAll(codec, spec + [e], more) ==
            if one.None? then None else Some(ResolveAll(codec, spec, snapshot).value + [one.value])
    ensures ValuesRead(codec, spec + [e], more) == ValuesRead(codec, spec, snapshot) + EntryValues(codec, e, more)
  {
    var one, got := ResolveEntry(codec, e, more), EntryValues(codec, e, more);
    if spec == [] {
      JustOne(codec, e, more);
      assert spec + [e] == [e] && ValuesRead(codec, spec, snapshot) + got == got;
      assert one.Some? ==> ResolveAll(codec, spec, snapshot).value + [one.value] == [one.value];
    } else {
      assert (spec + [e])[0] == spec[0] && (spec + [e])[1..] == spec[1..] + [e];
      ResolvedOneMore(codec, spec[1..], e, snapshot, more);
      StaysBuilt(codec, spec[0], snapshot, more);
      Scrub.Associate(EntryValues(codec, spec[0], more), ValuesRead(codec, spec[1..], snapshot), got);
      if one.Some? {
        Scrub.Associate([ResolveEntry(codec, spec[0], more).value], ResolveAll(codec, spec[1..], snapshot).value,
                        [one.value]);
      }
    }
  }

  ghost predicate Grows(snapshot: Snapshot, more: Snapshot) {
    forall name :: name in snapshot ==> name in more && more[name] == snapshot[name]
  }

  lemma {:induction false} StillBuilt(codec: Codec, spec: seq<Entry>, snapshot: Snapshot, more: Snapshot)
    requires ResolveAll(codec, spec, snapshot).Some? && Grows(snapshot, more)
    ensures ResolveAll(codec, spec, more) == ResolveAll(codec, spec, snapshot)
  {
    if spec != [] {
      StaysBuilt(codec, spec[0], snapshot, more);
      StillBuilt(codec, spec[1..], snapshot, more);
    }
  }

  lemma {:induction false} JustOne(codec: Codec, e: Entry, snapshot: Snapshot)
    ensures var one := ResolveEntry(codec, e, snapshot);
            ResolveAll(codec, [e], snapshot) == if one.None? then None else Some([one.value])
    ensures ValuesRead(codec, [e], snapshot) == EntryValues(codec, e, snapshot)
  {
    var none: seq<Entry>, got := [], EntryValues(codec, e, snapshot);
    assert [e][1..] == none && ResolveAll(codec, none, snapshot) == Some([]) && ValuesRead(codec, none, snapshot) == [];
    assert got + [] == got;
    assert forall r: Resolved :: [r] + [] == [r];
  }

  lemma {:induction false} StaysBuilt(codec: Codec, e: Entry, snapshot: Snapshot, more: Snapshot)
    requires ResolveEntry(codec, e, snapshot).Some? && Grows(snapshot, more)
    ensures ResolveEntry(codec, e, more) == ResolveEntry(codec, e, snapshot)
    ensures EntryValues(codec, e, more) == EntryValues(codec, e, snapshot)
  {
    assert FullBody(codec, e, more) == FullBody(codec, e, snapshot);
  }

  /** Once an entry could not be built the later ones do not matter. */
  lemma {:induction false} StoppedShort(codec: Codec, spec: seq<Entry>, rest: seq<Entry>, snapshot: Snapshot)
    requires ResolveAll(codec, spec, snapshot).None?
    ensures ResolveAll(codec, spec + rest, snapshot).None?
    ensures ValuesRead(codec, spec + rest, snapshot) == ValuesRead(codec, spec, snapshot)
  {
    assert (spec + rest)[0] == spec[0] && (spec + rest)[1..] == spec[1..] + rest;
    if ResolveEntry(codec, spec[0], snapshot).Some? {
      StoppedShort(codec, spec[1..], rest, snapshot);
    }
  }

  /** Every Secret value that gets into a body is among the values handed to the scrubber, even if that entry's digest
      or a later entry fails. */
  lemma {:induction false} EveryBodyValueIsRead(codec: Codec, spec: seq<Entry>, snapshot: Snapshot, n: nat, f: string)
    requires n < |spec| && ResolveAll(codec, spec[..n], snapshot).Some? && EntryUsable(codec, spec[n], snapshot)
    requires spec[n].secretRef.Some? && f in spec[n].secretRef.value.keys
    ensures FullBody(codec, spec[n], snapshot)[f].Text?
            && FullBody(codec, spec[n], snapshot)[f].s in ValuesRead(codec, spec, snapshot)
  {
    if n == 0 {
      var ref := spec[0].secretRef.value;
      var fields := Strings.SortedKeys(ref.keys.Keys);
      assert f in Strings.ElementsOf(fields);
      assert forall x :: x in fields ==> x in Strings.ElementsOf(fields);
      UsableFieldIsRead(codec, snapshot[ref.name], ref.keys, fields, f);
      assert FullBody(codec, spec[0], snapshot)[f] == Text(snapshot[ref.name][ref.keys[f]]);
    } else {
      assert spec[..n][1..] == spec[1..][..n - 1] && spec[..n][0] == spec[0];
      EveryBodyValueIsRead(codec, spec[1..], snapshot, n - 1, f);
    }
  }

  lemma {:induction false} UsableFieldIsRead(codec: Codec, data: map<string, string>, keys: map<string, string>,
                                             fields: seq<string>, f: string)
    requires f in fields && f in keys && FieldUsable(codec, data, keys[f])
    requires forall x :: x in fields ==> x in keys && FieldUsable(codec, data, keys[x])
    ensures data[keys[f]] in UsableValues(codec, data, keys, fields)
  {
    if fields[0] != f {
      UsableFieldIsRead(codec, data, keys, fields[1..], f);
    }
  }

  lemma {:induction false} NothingReadNothingCollected(codec: Codec, spec: seq<Entry>)
    ensures ValuesRead(codec, spec, map[]) == []
  {
    if spec != [] {
      NothingReadNothingCollected(codec, spec[1..]);
    }
  }

  // ----- From the built entries to the save -----

  /** engineConfigMountUUIDs: every entry's mount is live and has a UUID, or nothing. */
  method ReadMountUuids(c: Stores, es: seq<Resolved>) returns (uuids: Option<map<string, string>>)
    requires c.Valid() && c.proc.Built? && c.proc.entries == es
    modifies c`world, c`proc, c`labels, c`errors
    ensures c.Valid() && Continues(old(c.labels), c.labels) && Prepares(old(c.labels), c.labels) && c.labels != []
    ensures SendsNothing(old(c.world), c.world)
    ensures es == [] ==> uuids == Some(map[])
    ensures es != [] ==> c.labels[|c.labels| - 1].ReadUuids?
    ensures es != [] ==> uuids == if c.labels[|c.labels| - 1].readable && MountsKnown(es, c.world.mounts)
                                  then Some(c.world.mounts) else None
    ensures uuids.Some? ==> MountsKnown(es, uuids.value)
    ensures c.proc == if uuids.Some? then Ready(old(c.proc).loaded, old(c.proc).version, es, uuids.value) else Idle
    ensures c.errors == old(c.errors) + if uuids.Some? then 0 else 1
  {
    if es == [] {
      c.Note(ReadUuids(true), c.world);
      return Some(map[]);
    }
    uuids := c.GetMountUuids();
    if uuids.None? {
      return;
    }
    for n := 0 to |es|
      invariant forall e :: e in es[..n] ==> e.mount in uuids.value && uuids.value[e.mount] != ""
    {
      if es[n].mount !in uuids.value || uuids.value[es[n].mount] == "" {
        assert es[n] in es;
        return None;
      }
      assert es[..n + 1] == es[..n] + [es[n]];
    }
    assert es[..|es|] == es;
  }

  /** The loop that lists the pending writes. */
  method ListPending(records: Records, es: seq<Resolved>, uuids: map<string, string>) returns (pending: seq<Resolved>)
    requires MountsKnown(es, uuids)
    ensures pending == Pending(records, es, uuids)
  {
    pending := [];
    for n := 0 to |es|
      invariant pending == Pending(records, es[..n], uuids)
    {
      PendingOneMore(records, es[..n], es[n], uuids);
      assert es[..n + 1] == es[..n] + [es[n]];
      if NeedsWrite(records, es[n], uuids) {
        pending := pending + [es[n]];
      }
    }
    assert es[..|es|] == es;
  }

  lemma {:induction false} PendingOneMore(records: Records, es: seq<Resolved>, e: Resolved, uuids: map<string, string>)
    requires MountsKnown(es + [e], uuids)
    ensures MountsKnown(es, uuids) && e in es + [e]
    ensures Pending(records, es + [e], uuids) == Pending(records, es, uuids)
              + if NeedsWrite(records, e, uuids) then [e] else []
  {
    assert forall x :: x in es ==> x in es + [e];
    assert e in es + [e];
    if es == [] {
      assert es + [e] == [e] && [e][1..] == [];
    } else {
      assert (es + [e])[1..] == es[1..] + [e];
      PendingOneMore(records, es[1..], e, uuids);
    }
  }

  /** The state Secret is created before the first write if it is missing. */
  method PrepareState(c: Stores, loadedVersion: Option<nat>, pending: seq<Resolved>)
    returns (ready: bool, version: Option<nat>)
    requires c.Valid() && c.proc.Ready? && c.proc.version == loadedVersion
    requires pending == ReadyPending(c.proc)
    modifies c`world, c`proc, c`labels, c`errors
    ensures c.Valid() && Continues(old(c.labels), c.labels) && SendsNothing(old(c.world), c.world)
    ensures !ready ==> pending != [] && Prepares(old(c.labels), c.labels)
    ensures c.proc == if ready then StartWriting(old(c.proc), version) else Idle
    ensures c.errors == old(c.errors) + if ready then 0 else 1
  {
    version := loadedVersion;
    if version.None? && pending != [] {
      version := c.CreateState();
      ready := version.Some?;
    } else {
      c.Note(Begin, c.world);
      ready := true;
    }
  }

  /** What the write loop sent: the first `done` pending entries, acknowledged, and the next one if that failed. */
  ghost predicate SentInOrder(before: seq<Event>, after: seq<Event>, pending: seq<Resolved>, done: nat, failed: bool) {
    && before <= after && |after| == |before| + done + (if failed then 1 else 0) && |after| - |before| <= |pending|
    && forall k :: |before| <= k < |after| ==>
         && after[k].Sent? && after[k].key == pending[k - |before|].key && after[k].body == pending[k - |before|].body
         && (after[k].fate.Done? <==> k - |before| < done)
  }

  /** The write loop: it stops at the first error. */
  method WritePending(c: Stores, before: Records, pending: seq<Resolved>, us: map<string, string>)
    returns (records: Records, dirty: bool, writeFailed: bool)
    requires c.Valid() && c.proc.Writing? && c.proc.done == 0 && !c.proc.failed
    requires c.proc.records == before && ReadyPending(c.proc) == pending && c.proc.uuids == us
    requires MountsKnown(pending, us)
    modifies c`world, c`proc, c`labels, c`errors
    ensures c.Valid() && Continues(old(c.labels), c.labels)
    ensures CanSave(c.proc) && c.proc.failed == writeFailed && dirty == (c.proc.done > 0)
    ensures SentInOrder(old(c.world).log, c.world.log, pending, c.proc.done, writeFailed)
    ensures c.proc == old(c.proc).(records := records, done := c.proc.done, failed := writeFailed)
    ensures c.errors == old(c.errors) + if writeFailed then 1 else 0
  {
    records, dirty, writeFailed := before, false, false;
    var n := 0;
    while n < |pending| && !writeFailed
      invariant n <= |pending| && dirty == (n > 0)
      invariant c.Valid() && Continues(old(c.labels), c.labels)
      invariant c.proc == old(c.proc).(records := records, done := n, failed := writeFailed)
      invariant c.errors == old(c.errors) + if writeFailed then 1 else 0
      invariant SentInOrder(old(c.world).log, c.world.log, pending, n, writeFailed)
      decreases |pending| - n, !writeFailed
    {
      var e := pending[n];
      var ok := c.WriteConfig(e.key, e.body);
      if ok {
        records := records[e.key := Record(e.digest, us[e.mount])];
        dirty := true;
        n := n + 1;
      } else {
        writeFailed := true;
      }
    }
  }

  /** Dropping the records of entries that left the spec. */
  method DropRecords(records: Records, es: seq<Resolved>, written: bool) returns (kept: Records, dirty: bool)
    ensures kept == DropUndeclared(records, es)
    ensures dirty == (written || exists k :: k in records && k !in DeclaredKeys(es))
  {
    kept, dirty := records, written;
    var left := records.Keys;
    while left != {}
      invariant left <= records.Keys
      invariant kept.Keys == left + (records.Keys * DeclaredKeys(es)) && forall k :: k in kept ==> kept[k] == records[k]
      invariant dirty == (written || exists k :: k in records.Keys - left && k !in DeclaredKeys(es))
      decreases left
    {
      var k :| k in left;
      if k !in DeclaredKeys(es) {
        kept := kept - {k};
        dirty := true;
      }
      left := left - {k};
    }
  }

  /** How the step ends when it comes to the save: an unfailed one wrote everything pending and stored the records,
      unless nothing changed. */
  ghost predicate Saved(w: World, failed: bool, at: Proc) {
    && CanSave(at)
    && (!failed ==> !at.failed)
    && (!failed && Dirty(at) ==>
          w.state.Some? && w.state.value.doc == RenderDocument(DropUndeclared(at.records, at.entries)))
  }

  /** The end of the step: undeclared records go, and what changed is saved. */
  method DropAndSave(c: Stores, version: Option<nat>, records: Records, es: seq<Resolved>, written: bool)
    returns (saved: bool)
    requires c.Valid() && CanSave(c.proc) && c.proc.version == version && c.proc.records == records
             && c.proc.entries == es
    requires written == (c.proc.done > 0)
    modifies c`world, c`proc, c`labels, c`errors
    ensures c.Valid() && c.proc.Idle? && Continues(old(c.labels), c.labels) && SendsNothing(old(c.world), c.world)
    ensures Saved(c.world, !saved || old(c.proc).failed, old(c.proc))
    ensures EndsWithSave(c.codec, Initial(c.mounts0), c.labels, old(c.proc))
    ensures c.errors == old(c.errors) + if saved then 0 else 1
  {
    var kept, dirty := DropRecords(records, es, written);
    if dirty {
      saved := c.SaveState(version, kept);
    } else {
      ghost var l := c.labels;
      c.Note(Save(Done), c.world);
      assert c.labels[..|c.labels| - 1] == l;
      saved := true;
    }
  }

  /** Everything sent is the body of one of the entries, at its key. */
  ghost predicate SendsOnly(before: seq<Event>, after: seq<Event>, es: seq<Resolved>) {
    before <= after && forall k :: |before| <= k < |after| && after[k].Sent? ==>
      exists e :: e in es && e.key == after[k].key && e.body == after[k].body
  }

  lemma {:induction false} SentArePending(a: World, b: World, c: World, d: World, es: seq<Resolved>,
                                          pending: seq<Resolved>, done: nat, failed: bool)
    requires SendsNothing(a, b) && SentInOrder(b.log, c.log, pending, done, failed) && SendsNothing(c, d)
    requires forall e :: e in pending ==> e in es
    ensures SendsOnly(a.log, d.log, es)
  {
    forall k | |a.log| <= k < |d.log| && d.log[k].Sent?
      ensures exists e :: e in es && e.key == d.log[k].key && e.body == d.log[k].body
    {
      assert |b.log| <= k < |c.log| && d.log[k] == c.log[k];
      assert pending[k - |b.log|] in pending;
    }
  }

  /** The second half of writeEngineConfigs: from the built entries to the save. */
  method WriteAndSave(c: Stores, loaded: Records, loadedVersion: Option<nat>, es: seq<Resolved>)
    returns (failed: bool, ghost at: Proc)
    requires c.Valid() && c.proc == Built(loaded, loadedVersion, es)
    modifies c`world, c`proc, c`labels, c`errors
    ensures c.Valid() && c.proc.Idle? && Continues(old(c.labels), c.labels)
    ensures c.errors >= old(c.errors) && (failed <==> c.errors > old(c.errors))
    ensures SendsOnly(old(c.world).log, c.world.log, es)
    ensures if at.Idle? then failed && es != [] && Prepares(old(c.labels), c.labels)
            else && Saved(c.world, failed, at) && at.entries == es
                 && EndsWithSave(c.codec, Initial(c.mounts0), c.labels, at)
  {
    at := Idle;
    var uuids := ReadMountUuids(c, es);
    if uuids.None? {
      return true, at;
    }
    var pending := ListPending(loaded, es, uuids.value);
    var ready, version := PrepareState(c, loadedVersion, pending);
    if !ready {
      return true, at;
    }
    ghost var ready0 := c.world;
    var records, dirty, writeFailed := WritePending(c, loaded, pending, uuids.value);
    at := c.proc;
    ghost var written := c.world;
    var saved := DropAndSave(c, version, records, es, dirty);
    SentArePending(old(c.world), ready0, written, c.world, es, pending, at.done, writeFailed);
    failed := writeFailed || !saved;
  }

  // ----- The step -----

  /** What a Stores object holds at one time. */
  datatype View = View(g0: Global, world: World, labels: seq<Label>, errors: nat, asked: seq<SecretRead>)

  ghost function ViewOf(c: Stores): View
    reads c
  {
    View(Initial(c.mounts0), c.world, c.labels, c.errors, c.asked)
  }

  /** Everything sent is what an entry declares, at its own key. */
  ghost predicate SendsDeclaredOnly(spec: seq<Entry>, snapshot: Snapshot, before: seq<Event>, after: seq<Event>) {
    before <= after && forall k :: |before| <= k < |after| && after[k].Sent? ==> SendsDeclared(spec, snapshot, after[k])
  }

  lemma {:induction false} SentAreDeclared(codec: Codec, spec: seq<Entry>, snapshot: Snapshot, es: seq<Resolved>,
                                           a: World, b: World, c: World)
    requires ResolveAll(codec, spec, snapshot) == Some(es) && SendsNothing(a, b) && SendsOnly(b.log, c.log, es)
    ensures SendsDeclaredOnly(spec, snapshot, a.log, c.log)
  {
    ResolvedAllIffBuilt(codec, spec, snapshot, es);
    forall k | |a.log| <= k < |c.log| && c.log[k].Sent?
      ensures SendsDeclared(spec, snapshot, c.log[k])
    {
      assert k >= |b.log|;
      var e :| e in es && e.key == c.log[k].key && e.body == c.log[k].body;
      var i :| 0 <= i < |es| && es[i] == e;
      assert BuiltFrom(codec, spec[i], snapshot, es[i]);
    }
  }

  /** What the step does. `at` is the process when it came to dropping records and saving, or Idle if it never did: then
      some request or answer was wrong, nothing was sent and the state Secret was not touched. Otherwise every body was
      built, the last step was the save of that process, and an unfailed step wrote everything pending and stored the
      records, unless nothing changed. */
  ghost predicate StepDone(codec: Codec, spec: seq<Entry>, before: View, after: View, failed: bool, at: Proc)
  {
    && PassOver(spec, before.labels, after.labels) && ReadOnce(after.asked)
    && SendsDeclaredOnly(spec, Found(after.asked), before.world.log, after.world.log)
    && before.errors <= after.errors && (failed <==> before.errors < after.errors && (spec != [] || !at.Idle?))
    && if at.Idle? then before.errors < after.errors && Untouched(codec, after.g0, after.labels, |before.labels|)
       else Saved(after.world, failed, at) && EndsWithSave(codec, after.g0, after.labels, at)
            && ResolveAll(codec, spec, Found(after.asked)) == Some(at.entries)
  }

  lemma {:induction false} StoppedBeforeWrites(codec: Codec, spec: seq<Entry>, before: View, after: View)
    requires PassOver(spec, before.labels, after.labels) && Prepares(before.labels, after.labels)
             && ReadOnce(after.asked)
    requires before.errors < after.errors && before.g0 == after.g0
    requires before.world == Run(codec, after.g0, before.labels).world
    requires after.world == Run(codec, after.g0, after.labels).world
    requires Run(codec, after.g0, before.labels).proc.Idle? && Run(codec, after.g0, after.labels).proc.Idle?
    ensures StepDone(codec, spec, before, after, spec != [], Idle)
  {
    PreparingTouchesNothing(codec, after.g0, before.labels, after.labels);
    assert after.labels[..|before.labels|] == before.labels;
  }

  /** writeEngineConfigs.  `failed` is whether it returns an error, `values` what it hands to the scrubber. */
  method WriteEngineConfigs(c: Stores, spec: seq<Entry>)
    returns (failed: bool, values: seq<string>, ghost at: Proc)
    requires c.Valid() && c.proc.Idle?
    modifies c
    ensures c.Valid() && c.proc.Idle?
    ensures StepDone(c.codec, spec, old(ViewOf(c)), ViewOf(c), failed, at)
    ensures values == ValuesRead(c.codec, spec, Found(c.asked))
  {
    ghost var before := ViewOf(c);
    values, at := [], Idle;
    var loaded := LoadState(c, spec);
    if loaded.None? {
      NothingReadNothingCollected(c.codec, spec);
      StoppedBeforeWrites(c.codec, spec, before, ViewOf(c));
      return spec != [], values, at;
    }
    var (records, version) := loaded.value;
    var entries;
    entries, values := ResolveEntries(c, spec);
    if entries.None? {
      StoppedBeforeWrites(c.codec, spec, before, ViewOf(c));
      return true, values, at;
    }
    PreparingTouchesNothing(c.codec, Initial(c.mounts0), before.labels, c.labels);
    ghost var built := c.world;
    assert c.labels[..|before.labels|] == before.labels;
    failed, at := WriteAndSave(c, records, version, entries.value);
    SentAreDeclared(c.codec, spec, Found(c.asked), entries.value, before.world, built, c.world);
    if at.Idle? {
      StoppedBeforeWrites(c.codec, spec, before, ViewOf(c));
    }
  }

  /** reconcileEngineConfigs: `forms`, the forms of a value that are looked for, of every Secret value read are masked
      in the error, whatever its text. */
  method ReconcileEngineConfigs(c: Stores, spec: seq<Entry>, forms: string -> seq<Scrub.Bytes>)
    returns (error: Option<Scrub.Bytes>, ghost raw: Option<Scrub.Bytes>, ghost at: Proc)
    requires c.Valid() && c.proc.Idle?
    modifies c
    ensures c.Valid() && c.proc.Idle?
    ensures StepDone(c.codec, spec, old(ViewOf(c)), ViewOf(c), error.Some?, at)
    ensures error.Some? <==> raw.Some?
    ensures error.Some? ==>
              var patterns := AllForms(forms, ValuesRead(c.codec, spec, Found(c.asked)));
              error.value == Scrub.Scrubbed(raw.value, patterns, Scrub.REDACTED_MARKER)
  {
    var failed, values;
    failed, values, at := WriteEngineConfigs(c, spec);
    var text: Scrub.Bytes := *;
    var err := if failed then Some(text) else None;
    raw := err;
    error := Scrub.ScrubSecrets(err, AllForms(forms, values));
  }

  /** secretPatterns of each value. */
  function AllForms(forms: string -> seq<Scrub.Bytes>, values: seq<string>): seq<Scrub.Bytes> {
    if values == [] then [] else forms(values[0]) + AllForms(forms, values[1..])
  }

  lemma {:induction false} FormIsLookedFor(forms: string -> seq<Scrub.Bytes>, values: seq<string>, v: string,
                                           p: Scrub.Bytes)
    requires v in values && p in forms(v)
    ensures p in AllForms(forms, values)
  {
    if values[0] != v {
      FormIsLookedFor(forms, values[1..], v, p);
    }
  }

  /** No form of a Secret value that got into a body can be read in the step's error, whatever failed, unless the form
      fits over the marker. */
  lemma {:induction false} ErrorsHideTheBodies(codec: Codec, spec: seq<Entry>, snapshot: Snapshot, n: nat, f: string,
                                               forms: string -> seq<Scrub.Bytes>, raw: Scrub.Bytes, p: Scrub.Bytes,
                                               i: nat)
    requires n < |spec| && ResolveAll(codec, spec[..n], snapshot).Some? && EntryUsable(codec, spec[n], snapshot)
    requires spec[n].secretRef.Some? && f in spec[n].secretRef.value.keys
    requires var value := FullBody(codec, spec[n], snapshot)[f]; value.Text? && p in forms(value.s)
    requires p != [] && !Scrub.FitsTheMarker(p, Scrub.REDACTED_MARKER)
    ensures var patterns := AllForms(forms, ValuesRead(codec, spec, snapshot));
            !Scrub.OccursAt(Scrub.Scrubbed(raw, patterns, Scrub.REDACTED_MARKER), p, i)
  {
    var values := ValuesRead(codec, spec, snapshot);
    EveryBodyValueIsRead(codec, spec, snapshot, n, f);
    FormIsLookedFor(forms, values, FullBody(codec, spec[n], snapshot)[f].s, p);
    if Scrub.Survives(raw, AllForms(forms, values), p, i, Scrub.REDACTED_MARKER) {
      Scrub.SurvivorsFitTheMarker(raw, AllForms(forms, values), p, i, Scrub.REDACTED_MARKER);
    }
  }
}
