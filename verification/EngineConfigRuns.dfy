/** The engine config step as a state machine over its two stores, Vault and the state Secret.

Between any two steps the process may crash, the state Secret may be deleted, and any mount may be
recreated.  A request may fail, and a failed request may still have taken effect. */
module EngineConfigRuns {
  import opened Requests
  import opened RoleValues
  import opened EngineConfigs

  // ----- The world outside the process -----

  datatype StateSecret = StateSecret(version: nat, doc: Document)

  /** What happened so far. */
  datatype Event =
    | PassStarted
    | StateSeen
    | StateStored
    | UuidsRead(uuids: map<string, string>)
    | Sent(key: string, body: Body, fate: Fate)

  datatype World = World(state: Option<StateSecret>, nextVersion: nat, mounts: map<string, string>, log: seq<Event>)

  /** PutSecretData on the state Secret: a create without a version, else an update guarded by it. */
  function Put(w: World, version: Option<nat>, doc: Document, fate: Fate): (r: (World, Option<nat>))
    ensures r.0 != w ==> version == (if w.state.None? then None else Some(w.state.value.version)) && !fate.NotDone?
    ensures r.0 != w ==> r.0.state == Some(StateSecret(w.nextVersion, doc)) && w.nextVersion < r.0.nextVersion
    ensures r.0.mounts == w.mounts && r.0.log == (if r.0 != w then w.log + [StateStored] else w.log)
    ensures r.1 == if r.0 != w && fate.Done? then Some(w.nextVersion) else None
  {
    var allowed := if version.None? then w.state.None? else w.state.Some? && w.state.value.version == version.value;
    if !allowed || fate.NotDone? then (w, None)
    else
      (World(Some(StateSecret(w.nextVersion, doc)), w.nextVersion + 1, w.mounts, w.log + [StateStored]),
       if fate.Done? then Some(w.nextVersion) else None)
  }

  // ----- Building the bodies -----

  type Snapshot = map<string, map<string, string>>

  predicate FieldUsable(codec: Codec, data: map<string, string>, secretKey: string) {
    secretKey in data && data[secretKey] != "" && codec.validUtf8(data[secretKey])
  }

  predicate EntryUsable(codec: Codec, e: Entry, snapshot: Snapshot) {
    e.secretRef.Some? ==>
      && e.secretRef.value.name in snapshot
      && forall f :: f in e.secretRef.value.keys ==>
           FieldUsable(codec, snapshot[e.secretRef.value.name], e.secretRef.value.keys[f])
  }

  /** `data` plus one string field per secretRef key. */
  function FullBody(codec: Codec, e: Entry, snapshot: Snapshot): Body
    requires EntryUsable(codec, e, snapshot)
  {
    if e.secretRef.None? then e.data
    else
      var ref := e.secretRef.value;
      e.data + map f | f in ref.keys :: Text(snapshot[ref.name][ref.keys[f]])
  }

  function ResolveEntry(codec: Codec, e: Entry, snapshot: Snapshot): Option<Resolved> {
    if !EntryUsable(codec, e, snapshot) then None
    else
      var body := FullBody(codec, e, snapshot);
      var digest := codec.digest(EntryKey(e), body);
      if digest.None? then None else Some(Resolved(e.mount, EntryKey(e), body, digest.value))
  }

  /** Every entry built from the one snapshot, or nothing. */
  function ResolveAll(codec: Codec, spec: seq<Entry>, snapshot: Snapshot): (r: Option<seq<Resolved>>)
    ensures r.Some? ==> |r.value| == |spec|
    ensures r.Some? ==> forall i :: 0 <= i < |spec| ==> ResolveEntry(codec, spec[i], snapshot) == Some(r.value[i])
  {
    if spec == [] then Some([])
    else
      var first, rest := ResolveEntry(codec, spec[0], snapshot), ResolveAll(codec, spec[1..], snapshot);
      if first.None? || rest.None? then None else Some([first.value] + rest.value)
  }

  /** The body holds what the entry declares: the text of the Secret key each secretRef field names, and its own data
      under every other key. */
  ghost predicate HoldsDeclared(e: Entry, snapshot: Snapshot, body: Body) {
    match e.secretRef
    case None => body == e.data
    case Some(ref) =>
      && ref.name in snapshot && body.Keys == e.data.Keys + ref.keys.Keys
      && (forall f :: f in ref.keys ==>
            ref.keys[f] in snapshot[ref.name] && body[f] == Text(snapshot[ref.name][ref.keys[f]]))
      && (forall k :: k in e.data && k !in ref.keys ==> body[k] == e.data[k])
  }

  /** Every Secret value the entry refers to is there, not empty and UTF-8. */
  ghost predicate SecretsUsable(codec: Codec, e: Entry, snapshot: Snapshot) {
    match e.secretRef
    case None => true
    case Some(ref) =>
      ref.name in snapshot && forall f :: f in ref.keys ==>
        && ref.keys[f] in snapshot[ref.name]
        && |snapshot[ref.name][ref.keys[f]]| > 0 && codec.validUtf8(snapshot[ref.name][ref.keys[f]])
  }

  /** `r` is entry `e` built from the Secrets. */
  ghost predicate BuiltFrom(codec: Codec, e: Entry, snapshot: Snapshot, r: Resolved) {
    && SecretsUsable(codec, e, snapshot) && HoldsDeclared(e, snapshot, r.body)
    && r.mount == e.mount && r.key == e.mount + "/" + e.path && codec.digest(r.key, r.body) == Some(r.digest)
  }

  ghost predicate AllBuiltFrom(codec: Codec, spec: seq<Entry>, snapshot: Snapshot, es: seq<Resolved>) {
    |es| == |spec| && forall i :: 0 <= i < |spec| ==> BuiltFrom(codec, spec[i], snapshot, es[i])
  }

  /** Resolving an entry finds exactly what it declares, or nothing is there to be found. */
  lemma {:induction false} ResolvedIffBuilt(codec: Codec, e: Entry, snapshot: Snapshot, r: Resolved)
    ensures ResolveEntry(codec, e, snapshot) == Some(r) <==> BuiltFrom(codec, e, snapshot, r)
  {
    if SecretsUsable(codec, e, snapshot) {
      FullBodyHolds(codec, e, snapshot);
      if HoldsDeclared(e, snapshot, r.body) {
        OneBodyHolds(e, snapshot, r.body, FullBody(codec, e, snapshot));
      }
    }
  }

  lemma {:induction false} FullBodyHolds(codec: Codec, e: Entry, snapshot: Snapshot)
    requires EntryUsable(codec, e, snapshot)
    ensures HoldsDeclared(e, snapshot, FullBody(codec, e, snapshot))
  {
  }

  lemma {:induction false} OneBodyHolds(e: Entry, snapshot: Snapshot, a: Body, b: Body)
    requires HoldsDeclared(e, snapshot, a) && HoldsDeclared(e, snapshot, b)
    ensures a == b
  {
    if e.secretRef.Some? {
      assert forall k :: k in a ==> a[k] == b[k];
    }
  }

  /** The bodies are built iff every entry can be, and then they are what the entries declare, one for one. */
  lemma {:induction false} ResolvedAllIffBuilt(codec: Codec, spec: seq<Entry>, snapshot: Snapshot, es: seq<Resolved>)
    ensures ResolveAll(codec, spec, snapshot) == Some(es) <==> AllBuiltFrom(codec, spec, snapshot, es)
  {
    if spec != [] && es != [] {
      ResolvedIffBuilt(codec, spec[0], snapshot, es[0]);
      ResolvedAllIffBuilt(codec, spec[1..], snapshot, es[1..]);
      assert es == [es[0]] + es[1..];
      if AllBuiltFrom(codec, spec[1..], snapshot, es[1..]) && BuiltFrom(codec, spec[0], snapshot, es[0]) {
        assert forall i :: 1 <= i < |spec| ==> spec[i] == spec[1..][i - 1] && es[i] == es[1..][i - 1];
      }
      if AllBuiltFrom(codec, spec, snapshot, es) {
        assert forall i :: 0 <= i < |spec| - 1 ==> spec[1..][i] == spec[i + 1] && es[1..][i] == es[i + 1];
      }
    }
  }

  // ----- The process -----

  /** Where a pass is.  `loaded` is what it read, `records` what it would save. */
  datatype Proc =
    | Idle
    | Loaded(spec: seq<Entry>, loaded: Records, version: Option<nat>)
    | Built(loaded: Records, version: Option<nat>, entries: seq<Resolved>)
    | Ready(loaded: Records, version: Option<nat>, entries: seq<Resolved>, uuids: map<string, string>)
    | Writing(loaded: Records, version: Option<nat>, entries: seq<Resolved>, uuids: map<string, string>,
              records: Records, done: nat, failed: bool)

  datatype Global = Global(world: World, proc: Proc)

  datatype Label =
    | Outside(mounts: map<string, string>, deleteState: bool)
    | Crash
    | Start(spec: seq<Entry>, readable: bool)
    | Build(snapshot: Option<Snapshot>)
    | ReadUuids(readable: bool)
    | Create(fate: Fate)
    | Begin
    | Write(fate: Fate)
    | Save(fate: Fate)

  function Logged(w: World, e: Event): World {
    w.(log := w.log + [e])
  }

  /** loadEngineConfigState */
  function StartStep(w: World, spec: seq<Entry>, readable: bool): Global {
    var started := Logged(w, PassStarted);
    if !readable then Global(started, Idle)
    else if w.state.None? then Global(started, Loaded(spec, map[], None))
    else
      var records := LoadDocument(w.state.value.doc);
      if records.None? then Global(started, Idle)
      else Global(Logged(started, StateSeen), Loaded(spec, records.value, Some(w.state.value.version)))
  }

  /** resolveEngineConfigs; no snapshot stands for a Secret that could not be read. */
  function BuildStep(codec: Codec, w: World, p: Proc, snapshot: Option<Snapshot>): Global
    requires p.Loaded?
  {
    var entries := if snapshot.None? then None else ResolveAll(codec, p.spec, snapshot.value);
    Global(w, if entries.None? then Idle else Built(p.loaded, p.version, entries.value))
  }

  /** engineConfigMountUUIDs */
  function UuidsStep(w: World, p: Proc, readable: bool): Global
    requires p.Built?
  {
    if p.entries == [] then Global(w, Ready(p.loaded, p.version, p.entries, map[]))
    else if !readable then Global(w, Idle)
    else
      Global(Logged(w, UuidsRead(w.mounts)),
             if MountsKnown(p.entries, w.mounts) then Ready(p.loaded, p.version, p.entries, w.mounts) else Idle)
  }

  function ReadyPending(p: Proc): seq<Resolved> {
    if (p.Ready? || p.Writing?) && MountsKnown(p.entries, p.uuids) then Pending(p.loaded, p.entries, p.uuids) else []
  }

  predicate MustCreate(p: Proc) {
    p.Ready? && p.version.None? && ReadyPending(p) != []
  }

  function StartWriting(p: Proc, version: Option<nat>): Proc
    requires p.Ready?
  {
    Writing(p.loaded, version, p.entries, p.uuids, p.loaded, 0, false)
  }

  /** Creating the state Secret before the first Vault write. */
  function CreateStep(w: World, p: Proc, fate: Fate): Global
    requires p.Ready?
  {
    var (w', created) := Put(w, None, RenderDocument(map[]), fate);
    if created.None? then Global(w', Idle) else Global(Logged(w', StateSeen), StartWriting(p, created))
  }

  predicate CanWrite(p: Proc) {
    p.Writing? && !p.failed && p.done < |ReadyPending(p)|
  }

  /** One pass of the write loop. */
  function WriteStep(w: World, p: Proc, fate: Fate): Global
    requires CanWrite(p)
  {
    var e := ReadyPending(p)[p.done];
    var sent := Logged(w, Sent(e.key, e.body, fate));
    if fate.Done? then
      Global(sent, p.(records := p.records[e.key := Record(e.digest, p.uuids[e.mount])], done := p.done + 1))
    else Global(sent, p.(failed := true))
  }

  predicate CanSave(p: Proc) {
    p.Writing? && (p.failed || p.done == |ReadyPending(p)|)
  }

  predicate Dirty(p: Proc)
    requires p.Writing?
  {
    p.done > 0 || exists k :: k in p.records && k !in DeclaredKeys(p.entries)
  }

  /** Dropping undeclared records and the guarded save. */
  function SaveStep(w: World, p: Proc, fate: Fate): Global
    requires p.Writing?
  {
    var kept := RenderDocument(DropUndeclared(p.records, p.entries));
    Global(if Dirty(p) then Put(w, p.version, kept, fate).0 else w, Idle)
  }

  predicate Enabled(p: Proc, l: Label) {
    match l
    case Outside(_, _) => true
    case Crash => true
    case Start(_, _) => p.Idle?
    case Build(_) => p.Loaded?
    case ReadUuids(_) => p.Built?
    case Create(_) => MustCreate(p)
    case Begin => p.Ready? && !MustCreate(p)
    case Write(_) => CanWrite(p)
    case Save(_) => CanSave(p)
  }

  /** One step; a label that is not enabled changes nothing. */
  function Step(codec: Codec, g: Global, l: Label): Global {
    var w, p := g.world, g.proc;
    if !Enabled(p, l) then g
    else
      match l
      case Outside(mounts, deleteState) =>
        Global(w.(mounts := mounts, state := if deleteState then None else w.state), p)
      case Crash => Global(w, Idle)
      case Start(spec, readable) => StartStep(w, spec, readable)
      case Build(snapshot) => BuildStep(codec, w, p, snapshot)
      case ReadUuids(readable) => UuidsStep(w, p, readable)
      case Create(fate) => CreateStep(w, p, fate)
      case Begin => Global(w, StartWriting(p, p.version))
      case Write(fate) => WriteStep(w, p, fate)
      case Save(fate) => SaveStep(w, p, fate)
  }

  function Run(codec: Codec, g: Global, labels: seq<Label>): Global {
    if labels == [] then g
    else Step(codec, Run(codec, g, labels[..|labels| - 1]), labels[|labels| - 1])
  }

  /** A fresh installation: no state Secret yet, nothing happened. */
  function Initial(mounts: map<string, string>): Global {
    Global(World(None, 0, mounts, []), Idle)
  }

  // ----- What the log says -----

  /** Event `i` precedes position `j` in the same pass. */
  ghost predicate SamePass(log: seq<Event>, i: int, j: int) {
    0 <= i < j <= |log| && forall m :: i <= m < j ==> log[m] != PassStarted
  }

  /** An acknowledged write of a body with the record's digest to `key`, after the pass that sent it
      read the record's UUID for the mount the key is on. */
  ghost predicate BackedAt(codec: Codec, log: seq<Event>, key: string, rec: Record, i: int, j: int, e: Resolved) {
    && SamePass(log, i, j) && j < |log|
    && log[i].UuidsRead? && e.mount in log[i].uuids && log[i].uuids[e.mount] == rec.mountUUID
    && log[j] == Sent(key, e.body, Done) && codec.digest(key, e.body) == Some(rec.sha256)
    && OnMount(key, e.mount)
  }

  ghost predicate OnMount(key: string, mount: string) {
    mount + "/" <= key
  }

  /** An acknowledged write of another body to `key`. */
  ghost predicate Rewrites(codec: Codec, e: Event, key: string, rec: Record) {
    e.Sent? && e.fate.Done? && e.key == key && codec.digest(key, e.body) != Some(rec.sha256)
  }

  /** No pass that stored the state Secret had rewritten `key` after event `j`. */
  ghost predicate Kept(codec: Codec, log: seq<Event>, key: string, rec: Record, j: int) {
    forall m, s :: 0 <= m < s < |log| && j < m && Rewrites(codec, log[m], key, rec) && log[s] == StateStored ==>
      !SamePass(log, m, s)
  }

  ghost predicate NotRewrittenNow(codec: Codec, log: seq<Event>, key: string, rec: Record, j: int) {
    forall m :: 0 <= m < |log| && j < m && Rewrites(codec, log[m], key, rec) ==> !SamePass(log, m, |log|)
  }

  ghost predicate Backed(codec: Codec, log: seq<Event>, key: string, rec: Record) {
    rec.mountUUID != "" && exists i, j, e :: BackedAt(codec, log, key, rec, i, j, e) && Kept(codec, log, key, rec, j)
  }

  /** Backed, and this pass has not rewritten the key either. */
  ghost predicate Current(codec: Codec, log: seq<Event>, key: string, rec: Record) {
    && rec.mountUUID != ""
    && exists i, j, e :: BackedAt(codec, log, key, rec, i, j, e) && Kept(codec, log, key, rec, j)
                         && NotRewrittenNow(codec, log, key, rec, j)
  }

  ghost predicate AllBacked(codec: Codec, log: seq<Event>, records: Records) {
    forall k :: k in records ==> Backed(codec, log, k, records[k])
  }

  ghost predicate AllCurrent(codec: Codec, log: seq<Event>, records: Records) {
    forall k :: k in records ==> Current(codec, log, k, records[k])
  }

  ghost predicate SeenState(log: seq<Event>, j: int) {
    exists i :: SamePass(log, i, j) && log[i] == StateSeen
  }

  ghost predicate SeenUuids(log: seq<Event>, j: int, uuids: map<string, string>) {
    exists i :: SamePass(log, i, j) && log[i] == UuidsRead(uuids)
  }

  /** The writes acknowledged since the last pass started, oldest first. */
  ghost function AcknowledgedThisPass(log: seq<Event>): seq<string> {
    if log == [] || log[|log| - 1] == PassStarted then []
    else
      var before := AcknowledgedThisPass(log[..|log| - 1]);
      match log[|log| - 1]
      case Sent(key, _, Done) => before + [key]
      case _ => before
  }

  // ----- The invariant -----

  ghost predicate DigestsNonEmpty(codec: Codec) {
    forall key, body :: codec.digest(key, body) != Some("")
  }

  ghost predicate WellDigested(codec: Codec, entries: seq<Resolved>) {
    forall e :: e in entries ==> codec.digest(e.key, e.body) == Some(e.digest) && OnMount(e.key, e.mount)
  }

  ghost predicate StateSound(codec: Codec, w: World) {
    w.state.Some? ==>
      && w.state.value.version < w.nextVersion
      && LoadDocument(w.state.value.doc).Some?
      && AllBacked(codec, w.log, LoadDocument(w.state.value.doc).value)
  }

  /** Every write was sent by a pass that had seen or created the state Secret and had read a UUID
      for the mount. */
  ghost predicate LogSound(log: seq<Event>) {
    forall j :: 0 <= j < |log| && log[j].Sent? ==>
      SeenState(log, j)
        && exists uuids, mount :: SeenUuids(log, j, uuids) && OnMount(log[j].key, mount) && mount in uuids
  }

  ghost predicate LoadSound(codec: Codec, w: World, loaded: Records, version: Option<nat>) {
    && AllCurrent(codec, w.log, loaded)
    && (version.None? ==> loaded == map[])
    && (version.Some? ==> version.value < w.nextVersion && SeenState(w.log, |w.log|))
  }

  ghost predicate UuidsSound(w: World, entries: seq<Resolved>, uuids: map<string, string>) {
    MountsKnown(entries, uuids) && (entries != [] ==> SeenUuids(w.log, |w.log|, uuids))
  }

  ghost predicate WritingSound(codec: Codec, w: World, p: Proc)
    requires p.Writing? && MountsKnown(p.entries, p.uuids)
  {
    var pending := ReadyPending(p);
    && p.done <= |pending|
    && p.records == AfterWrites(p.loaded, pending, p.uuids, p.done)
    && AllCurrent(codec, w.log, p.records)
    && (p.version.None? ==> pending == [])
    && AcknowledgedThisPass(w.log) == Keys(pending[..p.done])
  }

  ghost function Keys(entries: seq<Resolved>): seq<string> {
    seq(|entries|, i requires 0 <= i < |entries| => entries[i].key)
  }

  ghost predicate ProcSound(codec: Codec, w: World, p: Proc) {
    match p
    case Idle => true
    case Loaded(_, loaded, version) =>
      LoadSound(codec, w, loaded, version) && AcknowledgedThisPass(w.log) == []
    case Built(loaded, version, entries) =>
      LoadSound(codec, w, loaded, version) && WellDigested(codec, entries) && AcknowledgedThisPass(w.log) == []
    case Ready(loaded, version, entries, uuids) =>
      LoadSound(codec, w, loaded, version) && WellDigested(codec, entries) && UuidsSound(w, entries, uuids)
      && AcknowledgedThisPass(w.log) == []
    case Writing(loaded, version, entries, uuids, _, _, _) =>
      WellDigested(codec, entries) && UuidsSound(w, entries, uuids) && WritingSound(codec, w, p)
      && (version.None? ==> loaded == map[])
      && (version.Some? ==> version.value < w.nextVersion && SeenState(w.log, |w.log|))
  }

  ghost predicate Inv(codec: Codec, g: Global) {
    StateSound(codec, g.world) && LogSound(g.world.log) && ProcSound(codec, g.world, g.proc)
  }

  // ----- Appending to the log keeps what it says -----

  lemma {:induction false} BackedStays(codec: Codec, log: seq<Event>, e: Event, records: Records)
    requires AllBacked(codec, log, records) && e != StateStored
    ensures AllBacked(codec, log + [e], records)
  {
    forall k | k in records
      ensures Backed(codec, log + [e], k, records[k])
    {
      var i, j, x :| BackedAt(codec, log, k, records[k], i, j, x) && Kept(codec, log, k, records[k], j);
      assert BackedAt(codec, log + [e], k, records[k], i, j, x);
      KeptStays(codec, log, e, k, records[k], j);
    }
  }

  lemma {:induction false} KeptStays(codec: Codec, log: seq<Event>, e: Event, key: string, rec: Record, j: int)
    requires Kept(codec, log, key, rec, j) && (e == StateStored ==> NotRewrittenNow(codec, log, key, rec, j))
    ensures Kept(codec, log + [e], key, rec, j)
  {
    var log' := log + [e];
    forall m, s | 0 <= m < s < |log'| && j < m && Rewrites(codec, log'[m], key, rec) && log'[s] == StateStored
      ensures !SamePass(log', m, s)
    {
      assert log'[m] == log[m] && log'[..s] == log[..s];
      assert SamePass(log', m, s) ==> SamePass(log, m, s);
    }
  }

  lemma {:induction false} NotRewrittenStays(codec: Codec, log: seq<Event>, e: Event, key: string, rec: Record, j: int)
    requires e != PassStarted ==> NotRewrittenNow(codec, log, key, rec, j) && !Rewrites(codec, e, key, rec)
    ensures NotRewrittenNow(codec, log + [e], key, rec, j)
  {
    var log' := log + [e];
    forall m | 0 <= m < |log'| && j < m && Rewrites(codec, log'[m], key, rec)
      ensures !SamePass(log', m, |log'|)
    {
      assert log'[|log|] == e;
      assert m < |log| ==> log'[m] == log[m];
      PassSoFar(log, e, m);
    }
  }

  lemma {:induction false} PassSoFar(log: seq<Event>, e: Event, m: nat)
    ensures m < |log| ==> (SamePass(log + [e], m, |log| + 1) <==> SamePass(log, m, |log|) && e != PassStarted)
  {
    var log' := log + [e];
    assert log'[|log|] == e;
    assert forall x :: m <= x < |log| ==> log'[x] == log[x];
  }

  lemma {:induction false} CurrentStaysAt(codec: Codec, log: seq<Event>, e: Event, key: string, rec: Record)
    requires if e == PassStarted then Backed(codec, log, key, rec) else Current(codec, log, key, rec)
    requires !Rewrites(codec, e, key, rec)
    ensures Current(codec, log + [e], key, rec)
  {
    var i, j, x :| BackedAt(codec, log, key, rec, i, j, x) && Kept(codec, log, key, rec, j)
                   && (e == PassStarted || NotRewrittenNow(codec, log, key, rec, j));
    assert BackedAt(codec, log + [e], key, rec, i, j, x);
    KeptStays(codec, log, e, key, rec, j);
    NotRewrittenStays(codec, log, e, key, rec, j);
  }

  lemma {:induction false} CurrentStays(codec: Codec, log: seq<Event>, e: Event, records: Records)
    requires if e == PassStarted then AllBacked(codec, log, records) else AllCurrent(codec, log, records)
    requires !(e.Sent? && e.fate.Done?)
    ensures AllCurrent(codec, log + [e], records)
  {
    forall k | k in records
      ensures Current(codec, log + [e], k, records[k])
    {
      CurrentStaysAt(codec, log, e, k, records[k]);
    }
  }

  /** What the pass saw stays seen while it goes on. */
  lemma {:induction false} SeenStays(log: seq<Event>, e: Event)
    requires e != PassStarted
    ensures SeenState(log, |log|) ==> SeenState(log + [e], |log| + 1)
    ensures forall uuids :: SeenUuids(log, |log|, uuids) ==> SeenUuids(log + [e], |log| + 1, uuids)
  {
    if SeenState(log, |log|) {
      var i :| SamePass(log, i, |log|) && log[i] == StateSeen;
      assert SamePass(log + [e], i, |log| + 1);
    }
    forall uuids | SeenUuids(log, |log|, uuids)
      ensures SeenUuids(log + [e], |log| + 1, uuids)
    {
      var i :| SamePass(log, i, |log|) && log[i] == UuidsRead(uuids);
      assert SamePass(log + [e], i, |log| + 1);
    }
  }

  lemma {:induction false} LogSoundStays(log: seq<Event>, e: Event)
    requires LogSound(log)
    requires e.Sent? ==> SeenState(log, |log|)
                         && exists uuids, mount ::
                              SeenUuids(log, |log|, uuids) && OnMount(e.key, mount) && mount in uuids
    ensures LogSound(log + [e])
  {
    var log' := log + [e];
    forall j | 0 <= j < |log'| && log'[j].Sent?
      ensures SeenState(log', j)
              && exists uuids, mount :: SeenUuids(log', j, uuids) && OnMount(log'[j].key, mount) && mount in uuids
    {
      var i :| SamePass(log, i, j) && log[i] == StateSeen;
      assert SamePass(log', i, j);
      var uuids, mount :| SeenUuids(log, j, uuids) && OnMount(log'[j].key, mount) && mount in uuids;
      var u :| SamePass(log, u, j) && log[u] == UuidsRead(uuids);
      assert SamePass(log', u, j);
      assert SeenUuids(log', j, uuids);
    }
  }

  lemma {:induction false} StateSoundStays(codec: Codec, w: World, e: Event)
    requires StateSound(codec, w) && e != StateStored
    ensures StateSound(codec, Logged(w, e))
  {
    if w.state.Some? {
      BackedStays(codec, w.log, e, LoadDocument(w.state.value.doc).value);
    }
  }

  // ----- Each step keeps the invariant -----

  lemma {:induction false} BackedLoads(codec: Codec, log: seq<Event>, records: Records)
    requires DigestsNonEmpty(codec) && AllCurrent(codec, log, records)
    ensures LoadDocument(RenderDocument(records)) == Some(records)
  {
    forall k | k in records
      ensures records[k].sha256 != "" && records[k].mountUUID != ""
    {
      var i, j, e :| BackedAt(codec, log, k, records[k], i, j, e);
    }
    SavedDocumentLoads(records);
  }

  lemma {:induction false} PutKeepsStateSound(codec: Codec, w: World, version: Option<nat>, records: Records,
                                              fate: Fate)
    requires DigestsNonEmpty(codec) && StateSound(codec, w) && LogSound(w.log) && AllCurrent(codec, w.log, records)
    ensures var w' := Put(w, version, RenderDocument(records), fate).0; StateSound(codec, w') && LogSound(w'.log)
  {
    CurrentStays(codec, w.log, StateStored, records);
    BackedLoads(codec, w.log, records);
    LogSoundStays(w.log, StateStored);
  }

  lemma {:induction false} StartKeepsInv(codec: Codec, g: Global, spec: seq<Entry>, readable: bool)
    requires Inv(codec, g) && g.proc.Idle?
    ensures Inv(codec, StartStep(g.world, spec, readable))
  {
    var w := g.world;
    var started := Logged(w, PassStarted);
    LogSoundStays(w.log, PassStarted);
    StateSoundStays(codec, w, PassStarted);
    if readable && w.state.Some? {
      var seen := Logged(started, StateSeen);
      LogSoundStays(started.log, StateSeen);
      StateSoundStays(codec, started, StateSeen);
      CurrentStays(codec, w.log, PassStarted, LoadDocument(w.state.value.doc).value);
      CurrentStays(codec, started.log, StateSeen, LoadDocument(w.state.value.doc).value);
      assert SamePass(seen.log, |seen.log| - 1, |seen.log|);
      assert seen.log[..|seen.log| - 1] == started.log;
    }
  }

  lemma {:induction false} BuildKeepsInv(codec: Codec, g: Global, snapshot: Option<Snapshot>)
    requires Inv(codec, g) && g.proc.Loaded?
    ensures Inv(codec, BuildStep(codec, g.world, g.proc, snapshot))
  {
    var g' := BuildStep(codec, g.world, g.proc, snapshot);
    if g'.proc.Built? {
      forall e | e in g'.proc.entries
        ensures codec.digest(e.key, e.body) == Some(e.digest) && OnMount(e.key, e.mount)
      {
        var i :| 0 <= i < |g'.proc.entries| && g'.proc.entries[i] == e;
        assert ResolveEntry(codec, g.proc.spec[i], snapshot.value) == Some(e);
      }
    }
  }

  lemma {:induction false} LoadSoundStays(codec: Codec, w: World, e: Event, loaded: Records, version: Option<nat>)
    requires e != PassStarted && !e.Sent? && LoadSound(codec, w, loaded, version)
    ensures LoadSound(codec, Logged(w, e), loaded, version)
  {
    CurrentStays(codec, w.log, e, loaded);
    SeenStays(w.log, e);
  }

  lemma {:induction false} UuidsKeepsInv(codec: Codec, g: Global, readable: bool)
    requires Inv(codec, g) && g.proc.Built?
    ensures Inv(codec, UuidsStep(g.world, g.proc, readable))
  {
    var w, p := g.world, g.proc;
    if p.entries != [] && readable {
      var e := UuidsRead(w.mounts);
      var w' := Logged(w, e);
      LogSoundStays(w.log, e);
      StateSoundStays(codec, w, e);
      LoadSoundStays(codec, w, e, p.loaded, p.version);
      assert SamePass(w'.log, |w.log|, |w'.log|);
      assert w'.log[..|w'.log| - 1] == w.log;
    }
  }

  lemma {:induction false} CreateKeepsInv(codec: Codec, g: Global, fate: Fate)
    requires DigestsNonEmpty(codec) && Inv(codec, g) && MustCreate(g.proc)
    ensures Inv(codec, CreateStep(g.world, g.proc, fate))
  {
    var w := g.world;
    PutKeepsStateSound(codec, w, None, map[], fate);
    var w1 := Put(w, None, RenderDocument(map[]), fate).0;
    if CreateStep(w, g.proc, fate).proc.Writing? {
      LogSoundStays(w1.log, StateSeen);
      StateSoundStays(codec, w1, StateSeen);
      CreatedIsSound(codec, w, g.proc, w1);
    }
  }

  /** The log of a pass that has just created the state Secret. */
  lemma {:induction false} CreatedIsSound(codec: Codec, w: World, p: Proc, w1: World)
    requires MustCreate(p) && ProcSound(codec, w, p) && w1.log == w.log + [StateStored]
    ensures var log := w1.log + [StateSeen];
            && AcknowledgedThisPass(log) == [] && SeenState(log, |log|)
            && (p.entries != [] ==> SeenUuids(log, |log|, p.uuids))
  {
    var log := w1.log + [StateSeen];
    NothingAcknowledged(w.log, StateStored);
    NothingAcknowledged(w1.log, StateSeen);
    SeenStays(w.log, StateStored);
    SeenStays(w1.log, StateSeen);
    assert SamePass(log, |w1.log|, |log|);
  }

  lemma {:induction false} NothingAcknowledged(log: seq<Event>, e: Event)
    requires !(e.Sent? && e.fate.Done?) && e != PassStarted
    ensures AcknowledgedThisPass(log + [e]) == AcknowledgedThisPass(log)
  {
    assert (log + [e])[..|log|] == log;
  }

  lemma {:induction false} WriteKeepsBacking(codec: Codec, w: World, p: Proc)
    requires CanWrite(p) && ProcSound(codec, w, p)
    ensures var (e, w') := (ReadyPending(p)[p.done], WriteStep(w, p, Done).world);
            AllCurrent(codec, w'.log, p.records[e.key := Record(e.digest, p.uuids[e.mount])])
  {
    var e := ReadyPending(p)[p.done];
    var sent := Sent(e.key, e.body, Done);
    var log' := w.log + [sent];
    assert e in p.entries;
    forall k | k in p.records && k != e.key
      ensures Current(codec, log', k, p.records[k])
    {
      CurrentStaysAt(codec, w.log, sent, k, p.records[k]);
    }
    var rec := Record(e.digest, p.uuids[e.mount]);
    var u :| SamePass(w.log, u, |w.log|) && w.log[u] == UuidsRead(p.uuids);
    assert SamePass(log', u, |w.log|);
    assert BackedAt(codec, log', e.key, rec, u, |w.log|, e);
    assert Kept(codec, log', e.key, rec, |w.log|) && NotRewrittenNow(codec, log', e.key, rec, |w.log|);
  }

  lemma {:induction false} WriteKeepsWorldSound(codec: Codec, w: World, p: Proc, fate: Fate)
    requires CanWrite(p) && ProcSound(codec, w, p) && StateSound(codec, w) && LogSound(w.log)
    ensures var w' := WriteStep(w, p, fate).world;
            StateSound(codec, w') && LogSound(w'.log)
  {
    var e := ReadyPending(p)[p.done];
    assert e in p.entries;
    var sent := Sent(e.key, e.body, fate);
    assert SeenUuids(w.log, |w.log|, p.uuids) && OnMount(e.key, e.mount) && e.mount in p.uuids;
    LogSoundStays(w.log, sent);
    StateSoundStays(codec, w, sent);
  }

  lemma {:induction false} WriteKeepsProgress(codec: Codec, w: World, p: Proc, fate: Fate)
    requires CanWrite(p) && ProcSound(codec, w, p)
    ensures var g' := WriteStep(w, p, fate); WritingSound(codec, g'.world, g'.proc)
  {
    if fate.Done? {
      AcceptedWriteIsRecorded(p);
      WriteKeepsBacking(codec, w, p);
      AcknowledgedOneMore(w.log, ReadyPending(p), p.done);
    } else {
      FailedWriteKeepsProgress(codec, w, p, fate);
    }
  }

  lemma {:induction false} AcceptedWriteIsRecorded(p: Proc)
    requires CanWrite(p) && MountsKnown(p.entries, p.uuids)
    requires p.records == AfterWrites(p.loaded, ReadyPending(p), p.uuids, p.done)
    ensures var e := ReadyPending(p)[p.done];
            AfterWrites(p.loaded, ReadyPending(p), p.uuids, p.done + 1) ==
            p.records[e.key := Record(e.digest, p.uuids[e.mount])]
  {
  }

  lemma {:induction false} FailedWriteKeepsProgress(codec: Codec, w: World, p: Proc, fate: Fate)
    requires CanWrite(p) && ProcSound(codec, w, p) && !fate.Done?
    ensures var g' := WriteStep(w, p, fate); WritingSound(codec, g'.world, g'.proc)
  {
    var e := ReadyPending(p)[p.done];
    var sent := Sent(e.key, e.body, fate);
    CurrentStays(codec, w.log, sent, p.records);
    NothingAcknowledged(w.log, sent);
  }

  lemma {:induction false} AcknowledgedOneMore(log: seq<Event>, pending: seq<Resolved>, done: nat)
    requires done < |pending| && AcknowledgedThisPass(log) == Keys(pending[..done])
    ensures var e := pending[done];
            AcknowledgedThisPass(log + [Sent(e.key, e.body, Done)]) == Keys(pending[..done + 1])
  {
    var e := pending[done];
    assert (log + [Sent(e.key, e.body, Done)])[..|log|] == log;
    assert Keys(pending[..done + 1]) == Keys(pending[..done]) + [e.key];
  }

  lemma {:induction false} WriteKeepsInv(codec: Codec, g: Global, fate: Fate)
    requires Inv(codec, g) && CanWrite(g.proc)
    ensures Inv(codec, WriteStep(g.world, g.proc, fate))
  {
    var w, p := g.world, g.proc;
    var e := ReadyPending(p)[p.done];
    WriteKeepsWorldSound(codec, w, p, fate);
    SeenStays(w.log, Sent(e.key, e.body, fate));
    WriteKeepsProgress(codec, w, p, fate);
  }

  lemma {:induction false} SaveKeepsInv(codec: Codec, g: Global, fate: Fate)
    requires DigestsNonEmpty(codec) && Inv(codec, g) && CanSave(g.proc)
    ensures Inv(codec, SaveStep(g.world, g.proc, fate))
  {
    PutKeepsStateSound(codec, g.world, g.proc.version, DropUndeclared(g.proc.records, g.proc.entries), fate);
  }

  lemma {:induction false} StepKeepsInv(codec: Codec, g: Global, l: Label)
    requires DigestsNonEmpty(codec) && Inv(codec, g)
    ensures Inv(codec, Step(codec, g, l))
  {
    if Enabled(g.proc, l) {
      match l
      case Outside(mounts, deleteState) =>
      case Crash =>
      case Start(spec, readable) => StartKeepsInv(codec, g, spec, readable);
      case Build(snapshot) => BuildKeepsInv(codec, g, snapshot);
      case ReadUuids(readable) => UuidsKeepsInv(codec, g, readable);
      case Create(fate) => CreateKeepsInv(codec, g, fate);
      case Begin =>
      case Write(fate) => WriteKeepsInv(codec, g, fate);
      case Save(fate) => SaveKeepsInv(codec, g, fate);
    }
  }

  lemma {:induction false} RunKeepsInv(codec: Codec, mounts: map<string, string>, labels: seq<Label>)
    requires DigestsNonEmpty(codec)
    ensures Inv(codec, Run(codec, Initial(mounts), labels))
  {
    if labels != [] {
      RunKeepsInv(codec, mounts, labels[..|labels| - 1]);
      StepKeepsInv(codec, Run(codec, Initial(mounts), labels[..|labels| - 1]), labels[|labels| - 1]);
    }
  }

  // ----- Over all runs -----

  /** Reached from a fresh installation by some sequence of steps. */
  ghost predicate Reachable(codec: Codec, g: Global) {
    exists mounts, labels :: g == Run(codec, Initial(mounts), labels)
  }

  lemma {:induction false} ReachableInv(codec: Codec, g: Global)
    requires DigestsNonEmpty(codec) && Reachable(codec, g)
    ensures Inv(codec, g)
  {
    var mounts, labels :| g == Run(codec, Initial(mounts), labels);
    RunKeepsInv(codec, mounts, labels);
  }

  /** Every stored record is backed: an acknowledged write of a body with its digest to its key, in a
      pass that had read its UUID for the mount.  Whatever is stored is accepted by the loader. */
  lemma {:induction false} RecordSoundness(codec: Codec, g: Global)
    requires DigestsNonEmpty(codec) && Reachable(codec, g) && g.world.state.Some?
    ensures var records := LoadDocument(g.world.state.value.doc);
            records.Some? && forall k :: k in records.value ==> Backed(codec, g.world.log, k, records.value[k])
  {
    ReachableInv(codec, g);
  }

  /** No Vault write without the state Secret seen or created, and the mount's UUID read, in that pass. */
  lemma {:induction false} WritesFollowStateAndUuids(codec: Codec, g: Global)
    requires DigestsNonEmpty(codec) && Reachable(codec, g)
    ensures LogSound(g.world.log)
  {
    ReachableInv(codec, g);
  }

  // ----- Before the writes -----

  predicate BeforeWrites(p: Proc) {
    p.Loaded? || p.Built? || p.Ready?
  }

  ghost predicate SendsNothing(before: World, after: World) {
    before.log <= after.log && forall j :: |before.log| <= j < |after.log| ==> !after.log[j].Sent?
  }

  /** Label `m` of a run moves the state Secret. */
  ghost predicate MovesState(codec: Codec, g: Global, labels: seq<Label>, m: nat)
    requires m < |labels|
  {
    Run(codec, g, labels[..m + 1]).world.state != Run(codec, g, labels[..m]).world.state
  }

  /** What may move the state Secret before the writes: somebody else, or a create that took effect and was reported as
      failed, which stores the empty document. */
  ghost predicate MovedByOthers(w: World, l: Label) {
    || l.Outside?
    || (l == Create(DoneButError) && w.state.Some? && w.state.value.doc == RenderDocument(map[]))
  }

  /** From label `n` on nothing was sent and the pass did not touch the state Secret. */
  ghost predicate Untouched(codec: Codec, g: Global, labels: seq<Label>, n: nat)
    requires n <= |labels|
  {
    && SendsNothing(Run(codec, g, labels[..n]).world, Run(codec, g, labels).world)
    && forall m :: n <= m < |labels| && MovesState(codec, g, labels, m) ==>
         MovedByOthers(Run(codec, g, labels[..m + 1]).world, labels[m])
  }

  lemma {:induction false} UntouchedGrows(codec: Codec, g: Global, labels: seq<Label>, l: Label, n: nat)
    requires n <= |labels| && Untouched(codec, g, labels, n)
    requires var now := Run(codec, g, labels);
             var next := Step(codec, now, l);
             SendsNothing(now.world, next.world)
             && (next.world.state != now.world.state ==> MovedByOthers(next.world, l))
    ensures Untouched(codec, g, labels + [l], n)
  {
    var more := labels + [l];
    assert more[..n] == labels[..n] && more[..|labels|] == labels && more[..|more|] == more;
    forall m | n <= m < |more| && MovesState(codec, g, more, m)
      ensures MovedByOthers(Run(codec, g, more[..m + 1]).world, more[m])
    {
      if m < |labels| {
        assert more[..m] == labels[..m] && more[..m + 1] == labels[..m + 1];
        assert MovesState(codec, g, labels, m);
      }
    }
  }

  /** A step that starts no write sends nothing and leaves the state Secret alone, unless the pass goes on to write. */
  lemma {:induction false} StepBeforeWrites(codec: Codec, g: Global, l: Label)
    requires g.proc.Idle? || BeforeWrites(g.proc)
    ensures var g' := Step(codec, g, l);
            g'.proc.Writing? ||
            (SendsNothing(g.world, g'.world) && (g'.world.state != g.world.state ==> MovedByOthers(g'.world, l)))
  {
  }

  /** The pass that started at label `n` is still before its writes. */
  ghost predicate InPass(codec: Codec, g: Global, labels: seq<Label>, n: nat) {
    && n < |labels| && labels[n].Start? && Run(codec, g, labels[..n]).proc.Idle?
    && forall m :: n < m <= |labels| ==> BeforeWrites(Run(codec, g, labels[..m]).proc)
  }

  lemma {:induction false} InPassGrows(codec: Codec, g: Global, labels: seq<Label>, l: Label, n: nat)
    requires InPass(codec, g, labels, n) || (n == |labels| && l.Start? && Run(codec, g, labels).proc.Idle?)
    requires BeforeWrites(Run(codec, g, labels + [l]).proc)
    ensures InPass(codec, g, labels + [l], n)
  {
    var more := labels + [l];
    assert more[..n] == labels[..n] && labels[..|labels|] == labels && more[..|more|] == more;
    forall m | n < m <= |more|
      ensures BeforeWrites(Run(codec, g, more[..m]).proc)
    {
      if m < |more| {
        assert more[..m] == labels[..m];
      }
    }
  }

  /** In every reachable state in which a pass has not come to its writes, it has sent nothing and has not touched the
      state Secret. */
  lemma {:induction false} PrefixTouchesNothing(codec: Codec, mounts: map<string, string>, labels: seq<Label>)
    returns (n: nat)
    requires BeforeWrites(Run(codec, Initial(mounts), labels).proc)
    ensures InPass(codec, Initial(mounts), labels, n) && Untouched(codec, Initial(mounts), labels, n)
  {
    var g0, before, l := Initial(mounts), labels[..|labels| - 1], labels[|labels| - 1];
    assert before + [l] == labels;
    StepBeforeWrites(codec, Run(codec, g0, before), l);
    if BeforeWrites(Run(codec, g0, before).proc) {
      n := PrefixTouchesNothing(codec, mounts, before);
    } else {
      n := |before|;
      UntouchedAtFirst(codec, g0, before);
    }
    InPassGrows(codec, g0, before, l, n);
    UntouchedGrows(codec, g0, before, l, n);
  }

  lemma {:induction false} UntouchedAtFirst(codec: Codec, g: Global, labels: seq<Label>)
    ensures Untouched(codec, g, labels, |labels|)
  {
    assert labels[..|labels|] == labels;
  }

  /** A pass that ends before its writes, by an error or a crash, sent nothing from its start on and left the state
      Secret as it was, but for a create that took effect and was reported as failed: that one stores the empty
      document. */
  lemma {:induction false} FailedPrefixTouchesNothing(codec: Codec, mounts: map<string, string>, labels: seq<Label>,
                                                      l: Label)
    returns (n: nat)
    requires var g := Run(codec, Initial(mounts), labels);
             Step(codec, g, l).proc.Idle? && (BeforeWrites(g.proc) || (g.proc.Idle? && l.Start?))
    ensures n <= |labels| && (labels + [l])[n].Start? && Run(codec, Initial(mounts), labels[..n]).proc.Idle?
    ensures Untouched(codec, Initial(mounts), labels + [l], n)
  {
    var g0 := Initial(mounts);
    if BeforeWrites(Run(codec, g0, labels).proc) {
      n := PrefixTouchesNothing(codec, mounts, labels);
    } else {
      n := |labels|;
      UntouchedAtFirst(codec, g0, labels);
      assert labels[..n] == labels;
    }
    StepBeforeWrites(codec, Run(codec, g0, labels), l);
    UntouchedGrows(codec, g0, labels, l, n);
  }

  /** The labels grew by steps none of which belongs to the writes or the save. */
  ghost predicate Prepares(before: seq<Label>, after: seq<Label>) {
    before <= after && forall i :: |before| <= i < |after| ==>
      !after[i].Crash? && !after[i].Begin? && !after[i].Write? && !after[i].Save?
  }

  lemma {:induction false} PreparingTouchesNothing(codec: Codec, g: Global, before: seq<Label>, after: seq<Label>)
    requires Prepares(before, after) && Run(codec, g, before).proc.Idle?
    ensures Run(codec, g, after).proc.Writing? || Untouched(codec, g, after, |before|)
  {
    if before == after {
      UntouchedAtFirst(codec, g, before);
    } else {
      var less, l := after[..|after| - 1], after[|after| - 1];
      assert less + [l] == after;
      PreparingTouchesNothing(codec, g, before, less);
      if !Run(codec, g, less).proc.Writing? {
        StepBeforeWrites(codec, Run(codec, g, less), l);
        if !Run(codec, g, after).proc.Writing? {
          UntouchedGrows(codec, g, less, l, |before|);
        }
      }
    }
  }

  // ----- What is sent -----

  /** The pass that started at label `n` and built its bodies at label `b` is still going on, with entries built from
      the spec of the one and the Secrets of the other. */
  ghost predicate PassBuilt(codec: Codec, g: Global, labels: seq<Label>, n: nat, b: nat) {
    && n < b < |labels| && labels[n].Start? && labels[b].Build? && labels[b].snapshot.Some?
    && (forall m :: n < m <= |labels| ==> !Run(codec, g, labels[..m]).proc.Idle?)
    && var p := Run(codec, g, labels).proc;
       (p.Built? || p.Ready? || p.Writing?) && AllBuiltFrom(codec, labels[n].spec, labels[b].snapshot.value, p.entries)
  }

  /** The pass that started at label `n` has not built its bodies yet. */
  ghost predicate PassLoaded(codec: Codec, g: Global, labels: seq<Label>, n: nat) {
    && n < |labels| && labels[n].Start?
    && (forall m :: n < m <= |labels| ==> !Run(codec, g, labels[..m]).proc.Idle?)
    && var p := Run(codec, g, labels).proc; p.Loaded? && p.spec == labels[n].spec
  }

  lemma {:induction false} BusyStays(codec: Codec, g: Global, labels: seq<Label>, l: Label, n: nat)
    requires n <= |labels| && forall m :: n < m <= |labels| ==> !Run(codec, g, labels[..m]).proc.Idle?
    requires !Run(codec, g, labels + [l]).proc.Idle?
    ensures forall m :: n < m <= |labels| + 1 ==> !Run(codec, g, (labels + [l])[..m]).proc.Idle?
  {
    var more := labels + [l];
    assert more[..|more|] == more;
    forall m | n < m <= |labels|
      ensures more[..m] == labels[..m]
    {
    }
  }

  /** A pass under way has loaded its state or has built its bodies, from its own spec and one look at the Secrets. */
  lemma {:induction false} PassUnderWay(codec: Codec, g: Global, labels: seq<Label>) returns (n: nat, b: nat)
    requires g.proc.Idle? && !Run(codec, g, labels).proc.Idle?
    ensures PassLoaded(codec, g, labels, n) || PassBuilt(codec, g, labels, n, b)
  {
    var before, l := labels[..|labels| - 1], labels[|labels| - 1];
    assert before + [l] == labels;
    var p := Run(codec, g, before).proc;
    if p.Idle? {
      n, b := |before|, 0;
      assert labels[..|labels|] == labels;
    } else {
      n, b := PassUnderWay(codec, g, before);
      BusyStays(codec, g, before, l, n);
      if PassLoaded(codec, g, before, n) && l.Build? {
        b := |before|;
        var es := Run(codec, g, labels).proc.entries;
        ResolvedAllIffBuilt(codec, p.spec, l.snapshot.value, es);
      }
    }
  }

  /** Event `e` sends what an entry of `spec` declares, with the Secrets as the pass saw them. */
  ghost predicate SendsDeclared(spec: seq<Entry>, snapshot: Snapshot, e: Event) {
    e.Sent? && exists i :: 0 <= i < |spec| && e.key == spec[i].mount + "/" + spec[i].path
                           && HoldsDeclared(spec[i], snapshot, e.body)
  }

  /** Over all runs: a step that sends anything is a write of a pass, and it sends one request, with what an entry of
      the spec of that pass declares. */
  lemma {:induction false} EverySentIsDeclared(codec: Codec, mounts: map<string, string>, labels: seq<Label>, l: Label)
    returns (n: nat, b: nat)
    ensures var (w, w') := (Run(codec, Initial(mounts), labels).world, Run(codec, Initial(mounts), labels + [l]).world);
            SendsNothing(w, w') ||
            (&& l.Write? && PassBuilt(codec, Initial(mounts), labels, n, b) && |w'.log| == |w.log| + 1
             && w.log <= w'.log
             && SendsDeclared(labels[n].spec, labels[b].snapshot.value, w'.log[|w.log|]))
  {
    n, b := 0, 0;
    var g := Run(codec, Initial(mounts), labels);
    assert (labels + [l])[..|labels|] == labels;
    if l.Write? && CanWrite(g.proc) {
      n, b := PassUnderWay(codec, Initial(mounts), labels);
      PendingIsDeclared(codec, labels[n].spec, labels[b].snapshot.value, g.proc);
    } else {
      OnlyWritesSend(codec, g, l);
    }
  }

  lemma {:induction false} OnlyWritesSend(codec: Codec, g: Global, l: Label)
    requires !(l.Write? && CanWrite(g.proc))
    ensures SendsNothing(g.world, Step(codec, g, l).world)
  {
  }

  lemma {:induction false} PendingIsDeclared(codec: Codec, spec: seq<Entry>, snapshot: Snapshot, p: Proc)
    requires CanWrite(p) && AllBuiltFrom(codec, spec, snapshot, p.entries)
    ensures var e := ReadyPending(p)[p.done];
            forall fate :: SendsDeclared(spec, snapshot, Sent(e.key, e.body, fate))
  {
    var e := ReadyPending(p)[p.done];
    assert e in p.entries;
    var i :| 0 <= i < |p.entries| && p.entries[i] == e;
    assert BuiltFrom(codec, spec[i], snapshot, e);
  }

  // ----- What a skipped entry's key holds -----

  ghost predicate DigestsInjective(codec: Codec) {
    forall key, a, b :: codec.digest(key, a).Some? && codec.digest(key, a) == codec.digest(key, b) ==> a == b
  }

  /** An entry a pass decides not to write needs none: Vault acknowledged exactly its body at its key,
      from a pass that had read the UUID its mount has now. */
  lemma {:induction false} SkippedEntryWasWritten(codec: Codec, g: Global, e: Resolved)
    returns (i: int, j: int, mount: string)
    requires DigestsNonEmpty(codec) && DigestsInjective(codec) && Reachable(codec, g)
    requires g.proc.Ready? && e in g.proc.entries && e !in ReadyPending(g.proc)
    ensures var log := g.world.log;
            && SamePass(log, i, j) && j < |log| && log[j] == Sent(e.key, e.body, Done)
            && log[i].UuidsRead? && mount in log[i].uuids
            && e.mount in g.proc.uuids && log[i].uuids[mount] == g.proc.uuids[e.mount]
  {
    ReachableInv(codec, g);
    NotPendingIsCurrent(g.proc.loaded, g.proc.entries, g.proc.uuids, e);
    var rec := g.proc.loaded[e.key];
    var i', j', e' :| BackedAt(codec, g.world.log, e.key, rec, i', j', e');
    i, j, mount := i', j', e'.mount;
  }

  /** The body of the last write of this manager that landed at `key`. */
  ghost function LastLanded(log: seq<Event>, key: string): Option<Body> {
    if log == [] then None
    else
      var last := log[|log| - 1];
      if last.Sent? && last.key == key && !last.fate.NotDone? then Some(last.body)
      else LastLanded(log[..|log| - 1], key)
  }

  ghost predicate LandedAt(log: seq<Event>, m: int, key: string) {
    0 <= m < |log| && log[m].Sent? && log[m].key == key && !log[m].fate.NotDone?
  }

  lemma {:induction false} LastLandedIs(log: seq<Event>, key: string, j: nat) returns (k: nat)
    requires LandedAt(log, j, key)
    ensures j <= k && LandedAt(log, k, key) && LastLanded(log, key) == Some(log[k].body)
    ensures forall m :: k < m ==> !LandedAt(log, m, key)
  {
    k := |log| - 1;
    if !LandedAt(log, k, key) {
      assert LandedAt(log[..k], j, key);
      var k' := LastLandedIs(log[..k], key, j);
      assert forall m :: LandedAt(log, m, key) && m != k ==> LandedAt(log[..k], m, key);
      k := k';
    }
  }

  /** A write of another body that landed and that no record shows: it was reported as failed, or its pass did not store
      the state Secret after it. */
  ghost predicate LostWrite(log: seq<Event>, m: int, key: string, body: Body) {
    && LandedAt(log, m, key) && log[m].body != body
    && (log[m].fate.Done? ==> forall s :: m < s < |log| && log[s] == StateStored ==> !SamePass(log, m, s))
  }

  ghost predicate LandedAgain(log: seq<Event>, m: int, key: string, body: Body) {
    exists k :: m < k && LandedAt(log, k, key) && log[k].body == body
  }

  /** Where a record matches the body, the last write that landed at the key carried it iff every lost write of another
      body was followed by one of this body. */
  lemma {:induction false} RecordedIsHeldIff(codec: Codec, log: seq<Event>, key: string, rec: Record, body: Body)
    requires DigestsInjective(codec) && Backed(codec, log, key, rec) && codec.digest(key, body) == Some(rec.sha256)
    ensures LastLanded(log, key) == Some(body)
       <==> forall m :: LostWrite(log, m, key, body) ==> LandedAgain(log, m, key, body)
  {
    var i, j, e :| BackedAt(codec, log, key, rec, i, j, e) && Kept(codec, log, key, rec, j);
    var k := LastLandedIs(log, key, j);
    if log[k].body != body {
      assert LostWrite(log, k, key, body);
    } else {
      forall m | LostWrite(log, m, key, body)
        ensures LandedAgain(log, m, key, body)
      {
        assert m < k;
      }
    }
  }

  /** What the key of an entry a pass skips holds. */
  lemma {:induction false} SkippedEntryIsHeldIff(codec: Codec, g: Global, e: Resolved)
    requires DigestsNonEmpty(codec) && DigestsInjective(codec) && Reachable(codec, g)
    requires g.proc.Ready? && e in g.proc.entries && e !in ReadyPending(g.proc)
    ensures LastLanded(g.world.log, e.key) == Some(e.body)
       <==> forall m :: LostWrite(g.world.log, m, e.key, e.body) ==> LandedAgain(g.world.log, m, e.key, e.body)
  {
    ReachableInv(codec, g);
    NotPendingIsCurrent(g.proc.loaded, g.proc.entries, g.proc.uuids, e);
    RecordedIsHeldIff(codec, g.world.log, e.key, g.proc.loaded[e.key], e.body);
  }

  /** And the key of an entry of a settled state. */
  lemma {:induction false} SettledEntryIsHeldIff(codec: Codec, g: Global, entries: seq<Resolved>,
                                                 uuids: map<string, string>, e: Resolved)
    requires DigestsNonEmpty(codec) && DigestsInjective(codec) && Reachable(codec, g)
    requires Settled(g.world, entries, uuids) && e in entries && codec.digest(e.key, e.body) == Some(e.digest)
    ensures LastLanded(g.world.log, e.key) == Some(e.body)
       <==> forall m :: LostWrite(g.world.log, m, e.key, e.body) ==> LandedAgain(g.world.log, m, e.key, e.body)
  {
    ReachableInv(codec, g);
    NotPendingIsCurrent(Recorded(g.world).value, entries, uuids, e);
    RecordedIsHeldIff(codec, g.world.log, e.key, Recorded(g.world).value[e.key], e.body);
  }

  lemma {:induction false} NotPendingIsCurrent(records: Records, entries: seq<Resolved>, uuids: map<string, string>,
                                               e: Resolved)
    requires MountsKnown(entries, uuids) && e in entries && e !in Pending(records, entries, uuids)
    ensures Lookup(records, e.key) == Some(Record(e.digest, uuids[e.mount]))
  {
    if entries[0] != e {
      NotPendingIsCurrent(records, entries[1..], uuids, e);
    }
  }

  /** What a pass about to save would leave: `n` of its pending writes were acknowledged. */
  ghost predicate Checkpointed(p: Proc, acknowledged: seq<string>, saved: Records) {
    && p.Writing? && MountsKnown(p.entries, p.uuids)
    && |acknowledged| <= |ReadyPending(p)|
    && (!p.failed ==> |acknowledged| == |ReadyPending(p)|)
    && Keys(ReadyPending(p)[..|acknowledged|]) == acknowledged
    && saved == SavedRecords(p.loaded, p.entries, p.uuids, |acknowledged|)
    && (DistinctKeys(p.entries) ==> Pending(saved, p.entries, p.uuids) == ReadyPending(p)[|acknowledged|..])
  }

  /** Checkpointing: a save that takes effect stores the records of exactly this pass's acknowledged
      writes and the old records of the other declared entries, and with the same inputs the next pass
      has exactly the unacknowledged writes left; a pass that need not save would store what it read. */
  lemma {:induction false} SaveCheckpoints(codec: Codec, g: Global, fate: Fate) returns (saved: Records)
    requires DigestsNonEmpty(codec) && Reachable(codec, g) && CanSave(g.proc)
    ensures Checkpointed(g.proc, AcknowledgedThisPass(g.world.log), saved)
    ensures !Dirty(g.proc) ==> saved == g.proc.loaded && SaveStep(g.world, g.proc, fate).world == g.world
    ensures Dirty(g.proc) && SaveStep(g.world, g.proc, fate).world != g.world ==>
              SaveStep(g.world, g.proc, fate).world.state ==
                  Some(StateSecret(g.world.nextVersion, RenderDocument(saved)))
    ensures LoadDocument(RenderDocument(saved)) == Some(saved)
  {
    ReachableInv(codec, g);
    saved := DropUndeclared(g.proc.records, g.proc.entries);
    SavedIsCheckpointed(codec, g.world, g.proc);
    BackedLoads(codec, g.world.log, saved);
    if !Dirty(g.proc) {
      CleanPassKeepsRecords(g.proc);
    }
  }

  lemma {:induction false} SavedIsCheckpointed(codec: Codec, w: World, p: Proc)
    requires CanSave(p) && ProcSound(codec, w, p)
    ensures Checkpointed(p, AcknowledgedThisPass(w.log), DropUndeclared(p.records, p.entries))
  {
    var pending := ReadyPending(p);
    assert |Keys(pending[..p.done])| == p.done;
    if DistinctKeys(p.entries) {
      SavedPassLeavesTheRest(p.loaded, p.entries, p.uuids, p.done);
    }
  }

  lemma {:induction false} CleanPassKeepsRecords(p: Proc)
    requires p.Writing? && !Dirty(p)
    ensures DropUndeclared(p.records, p.entries) == p.records
  {
  }

  // ----- Steady state -----

  /** The records a pass that reads this state works from. */
  function Recorded(w: World): Option<Records> {
    if w.state.None? then Some(map[]) else LoadDocument(w.state.value.doc)
  }

  /** The live mounts have the UUIDs `uuids` says, as far as the entries go. */
  ghost predicate Agree(entries: seq<Resolved>, a: map<string, string>, b: map<string, string>) {
    forall e :: e in entries ==> e.mount in a && e.mount in b && a[e.mount] == b[e.mount]
  }

  /** Nothing is left to do for these entries. */
  ghost predicate Settled(w: World, entries: seq<Resolved>, uuids: map<string, string>) {
    && MountsKnown(entries, uuids) && Agree(entries, uuids, w.mounts)
    && Recorded(w).Some?
    && Pending(Recorded(w).value, entries, uuids) == []
    && Recorded(w).value.Keys <= DeclaredKeys(entries)
  }

  /** Steps that keep the inputs of the engine config step: the spec, the Secrets' content, the mounts. */
  ghost predicate KeepsInputs(codec: Codec, spec: seq<Entry>, entries: seq<Resolved>, uuids: map<string, string>,
                              l: Label)
  {
    match l
    case Outside(mounts, deleteState) => !deleteState && Agree(entries, uuids, mounts)
    case Start(s, _) => s == spec
    case Build(snapshot) => snapshot.Some? ==> ResolveAll(codec, spec, snapshot.value) == Some(entries)
    case _ => true
  }

  ghost predicate QuietProc(w: World, p: Proc, spec: seq<Entry>, entries: seq<Resolved>)
    requires Recorded(w).Some?
  {
    var records, version := Recorded(w).value, if w.state.None? then None else Some(w.state.value.version);
    match p
    case Idle => true
    case Loaded(s, loaded, v) => s == spec && loaded == records && v == version
    case Built(loaded, v, es) => es == entries && loaded == records && v == version
    case Ready(loaded, v, es, us) => es == entries && loaded == records && v == version
      && NothingToWrite(records, es, us)
    case Writing(loaded, v, es, us, rs, done, _) =>
      es == entries && loaded == records && rs == records && done == 0 && NothingToWrite(records, es, us)
  }

  ghost predicate NothingToWrite(records: Records, entries: seq<Resolved>, uuids: map<string, string>) {
    MountsKnown(entries, uuids) && Pending(records, entries, uuids) == []
  }

  lemma {:induction false} AgreeingUuidsPendAlike(records: Records, entries: seq<Resolved>, a: map<string, string>,
                                                  b: map<string, string>)
    requires MountsKnown(entries, a) && Agree(entries, a, b)
    ensures MountsKnown(entries, b) && Pending(records, entries, a) == Pending(records, entries, b)
  {
    if entries != [] {
      assert entries[0] in entries;
      AgreeingUuidsPendAlike(records, entries[1..], a, b);
    }
  }

  lemma {:induction false} QuietStep(codec: Codec, g: Global, l: Label, spec: seq<Entry>, entries: seq<Resolved>,
                                     uuids: map<string, string>)
    requires Settled(g.world, entries, uuids) && QuietProc(g.world, g.proc, spec, entries)
    requires KeepsInputs(codec, spec, entries, uuids, l)
    ensures var g' := Step(codec, g, l);
            && Settled(g'.world, entries, uuids) && QuietProc(g'.world, g'.proc, spec, entries)
            && g'.world.state == g.world.state && g.world.log <= g'.world.log
            && forall j :: |g.world.log| <= j < |g'.world.log| ==> !g'.world.log[j].Sent?
  {
    AgreeingUuidsPendAlike(Recorded(g.world).value, entries, uuids, g.world.mounts);
  }

  /** Once nothing is pending it stays so: while the inputs stay the same, no number of later passes,
      failed or crashed ones and restarts included, sends a write or touches the state Secret. */
  lemma {:induction false} SteadyStateIsFlat(codec: Codec, w: World, labels: seq<Label>,
                                             spec: seq<Entry>, entries: seq<Resolved>, uuids: map<string, string>)
    requires Settled(w, entries, uuids)
    requires forall i :: 0 <= i < |labels| ==> KeepsInputs(codec, spec, entries, uuids, labels[i])
    ensures var g' := Run(codec, Global(w, Idle), labels);
            && g'.world.state == w.state && w.log <= g'.world.log
            && (forall j :: |w.log| <= j < |g'.world.log| ==> !g'.world.log[j].Sent?)
            && Settled(g'.world, entries, uuids) && QuietProc(g'.world, g'.proc, spec, entries)
  {
    if labels != [] {
      var before := labels[..|labels| - 1];
      SteadyStateIsFlat(codec, w, before, spec, entries, uuids);
      QuietStep(codec, Run(codec, Global(w, Idle), before), labels[|labels| - 1], spec, entries, uuids);
    }
  }

  /** A pass that ends without an error settles its inputs, so long as the mounts it read are still the
      live ones and nobody removed the state Secret under it. */
  lemma {:induction false} CompletePassSettles(codec: Codec, g: Global)
    requires DigestsNonEmpty(codec) && Reachable(codec, g) && CanSave(g.proc) && !g.proc.failed
    requires DistinctKeys(g.proc.entries) && Agree(g.proc.entries, g.proc.uuids, g.world.mounts)
    requires if Dirty(g.proc) then SaveStep(g.world, g.proc, Done).world != g.world
             else Recorded(g.world) == Some(g.proc.loaded)
    ensures Settled(SaveStep(g.world, g.proc, Done).world, g.proc.entries, g.proc.uuids)
  {
    var saved := SaveCheckpoints(codec, g, Done);
  }

  // ----- A stale entry that no pass repairs -----

  lemma {:induction false} ReachableStep(codec: Codec, g: Global, l: Label)
    requires Reachable(codec, g)
    ensures Reachable(codec, Step(codec, g, l))
  {
    var mounts, labels :| g == Run(codec, Initial(mounts), labels);
    assert (labels + [l])[..|labels|] == labels;
    assert Step(codec, g, l) == Run(codec, Initial(mounts), labels + [l]);
  }

  ghost predicate PlainEntry(codec: Codec, e: Entry, r: Resolved, mounts: map<string, string>) {
    && e.secretRef.None? && e.mount in mounts && mounts[e.mount] != ""
    && codec.digest(EntryKey(e), e.data) == Some(r.digest) && r == Resolved(e.mount, EntryKey(e), e.data, r.digest)
  }

  /** A pass over one entry, up to the point where it knows what to write. */
  lemma {:induction false} PassToReady(codec: Codec, g: Global, e: Entry, r: Resolved, records: Records)
    returns (g': Global)
    requires Reachable(codec, g) && g.proc.Idle? && PlainEntry(codec, e, r, g.world.mounts)
    requires Recorded(g.world) == Some(records)
    ensures Reachable(codec, g')
    ensures g'.proc ==
              Ready(records,
                    if g.world.state.None? then None else Some(g.world.state.value.version), [r], g.world.mounts)
    ensures g'.world.state == g.world.state && g'.world.nextVersion == g.world.nextVersion
    ensures g'.world.mounts == g.world.mounts
    ensures g.world.log <= g'.world.log && LastLanded(g'.world.log, r.key) == LastLanded(g.world.log, r.key)
  {
    var g1 := Step(codec, g, Start([e], true));
    ReachableStep(codec, g, Start([e], true));
    UnsentStays(g.world.log, PassStarted, r.key);
    UnsentStays(g.world.log + [PassStarted], StateSeen, r.key);
    var g2 := Step(codec, g1, Build(Some(map[])));
    ReachableStep(codec, g1, Build(Some(map[])));
    OnlyEntry(codec, e, r, g.world.mounts);
    g' := Step(codec, g2, ReadUuids(true));
    ReachableStep(codec, g2, ReadUuids(true));
    UnsentStays(g2.world.log, UuidsRead(g.world.mounts), r.key);
  }

  lemma {:induction false} OnlyEntry(codec: Codec, e: Entry, r: Resolved, mounts: map<string, string>)
    requires PlainEntry(codec, e, r, mounts)
    ensures ResolveAll(codec, [e], map[]) == Some([r]) && MountsKnown([r], mounts)
  {
    assert [e][1..] == [] && [r] + [] == [r];
    assert ResolveAll(codec, [], map[]) == Some([]);
  }

  lemma {:induction false} UnsentStays(log: seq<Event>, e: Event, key: string)
    requires !e.Sent?
    ensures LastLanded(log + [e], key) == LastLanded(log, key)
  {
    assert (log + [e])[..|log|] == log;
  }

  lemma {:induction false} OnlyPending(records: Records, r: Resolved, mounts: map<string, string>)
    requires r.mount in mounts && mounts[r.mount] != ""
    ensures MountsKnown([r], mounts)
    ensures Pending(records, [r], mounts) == if NeedsWrite(records, r, mounts) then [r] else []
  {
    assert [r][1..] == [];
  }

  /** A first pass over one entry, with every request done. */
  lemma {:induction false} FirstPass(codec: Codec, mounts: map<string, string>, e: Entry, r: Resolved)
    returns (g: Global)
    requires PlainEntry(codec, e, r, mounts) && r.digest != ""
    ensures Reachable(codec, g) && g.proc.Idle? && g.world.mounts == mounts
    ensures Recorded(g.world) == Some(map[r.key := Record(r.digest, mounts[r.mount])]) && g.world.state.Some?
  {
    var g3 := FirstWrite(codec, mounts, e, r);
    g := Step(codec, g3, Save(Done));
    ReachableStep(codec, g3, Save(Done));
    var records := map[r.key := Record(r.digest, mounts[r.mount])];
    assert r.key in DeclaredKeys([r]) by { assert r in [r]; }
    assert DropUndeclared(records, [r]) == records;
    SavedDocumentLoads(records);
  }

  lemma {:induction false} FirstWrite(codec: Codec, mounts: map<string, string>, e: Entry, r: Resolved)
    returns (g: Global)
    requires PlainEntry(codec, e, r, mounts)
    ensures Reachable(codec, g) && g.world.mounts == mounts && g.world.state.Some?
    ensures CanSave(g.proc) && g.proc.done > 0 && g.proc.entries == [r]
    ensures g.proc.version == Some(g.world.state.value.version)
    ensures g.proc.records == map[r.key := Record(r.digest, mounts[r.mount])]
  {
    assert Initial(mounts) == Run(codec, Initial(mounts), []);
    var g1 := PassToReady(codec, Initial(mounts), e, r, map[]);
    OnlyPending(map[], r, mounts);
    var g2 := Step(codec, g1, Create(Done));
    ReachableStep(codec, g1, Create(Done));
    g := Step(codec, g2, Write(Done));
    ReachableStep(codec, g2, Write(Done));
  }

  /** A pass over a moved entry whose write lands and leaves no record: reported as failed, or the process crashed
      before the save. */
  lemma {:induction false} LosingPass(codec: Codec, g: Global, e: Entry, r: Resolved, records: Records, fate: Fate)
    returns (g': Global)
    requires Reachable(codec, g) && g.proc.Idle? && PlainEntry(codec, e, r, g.world.mounts)
    requires g.world.state.Some? && Recorded(g.world) == Some(records)
    requires r.key in records && records.Keys == {r.key} && records[r.key].sha256 != r.digest && !fate.NotDone?
    ensures Reachable(codec, g') && g'.proc.Idle? && g'.world.state == g.world.state
            && g'.world.mounts == g.world.mounts
    ensures LastLanded(g'.world.log, r.key) == Some(r.body)
  {
    var g3 := LosingWrite(codec, g, e, r, records, fate);
    var last := if fate.Done? then Crash else Save(Done);
    assert r.key in DeclaredKeys([r]) by { assert r in [r]; }
    g' := Step(codec, g3, last);
    ReachableStep(codec, g3, last);
  }

  lemma {:induction false} LosingWrite(codec: Codec, g: Global, e: Entry, r: Resolved, records: Records, fate: Fate)
    returns (g': Global)
    requires Reachable(codec, g) && g.proc.Idle? && PlainEntry(codec, e, r, g.world.mounts)
    requires g.world.state.Some? && Recorded(g.world) == Some(records)
    requires r.key in records && records[r.key].sha256 != r.digest && !fate.NotDone?
    ensures Reachable(codec, g') && g'.proc.Writing? && g'.proc.entries == [r]
    ensures !fate.Done? ==> g'.proc.failed && g'.proc.done == 0 && g'.proc.records == records
    ensures g'.world.state == g.world.state && g'.world.mounts == g.world.mounts
    ensures LastLanded(g'.world.log, r.key) == Some(r.body)
  {
    var g1 := PassToReady(codec, g, e, r, records);
    OnlyPending(records, r, g.world.mounts);
    var g2 := Step(codec, g1, Begin);
    ReachableStep(codec, g1, Begin);
    g' := Step(codec, g2, Write(fate));
    ReachableStep(codec, g2, Write(fate));
  }

  /** The state can be settled and stale: body `a` was written and recorded; a write of body `b` landed, but was
      reported as failed or its pass crashed before the save; the spec went back to `a`. Nothing is left to write, and
      the key holds `b`. */
  lemma {:induction false} RevertedEntryIsStale(codec: Codec, mounts: map<string, string>, a: Entry, b: Entry,
                                                r: Resolved, moved: Resolved, fate: Fate)
    returns (g: Global)
    requires PlainEntry(codec, a, r, mounts) && PlainEntry(codec, b, moved, mounts) && EntryKey(a) == EntryKey(b)
    requires r.digest != "" && r.digest != moved.digest && !fate.NotDone?
    ensures Reachable(codec, g) && g.proc.Ready? && g.proc.entries == [r] && ReadyPending(g.proc) == []
    ensures Settled(g.world, [r], mounts) && LastLanded(g.world.log, r.key) == Some(b.data)
  {
    var records := map[r.key := Record(r.digest, mounts[r.mount])];
    var g1 := FirstPass(codec, mounts, a, r);
    var g2 := LosingPass(codec, g1, b, moved, records, fate);
    g := PassToReady(codec, g2, a, r, records);
    OnlyPending(records, r, mounts);
    assert r in [r];
  }
}
