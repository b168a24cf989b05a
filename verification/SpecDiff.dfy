/** The change log between two specs: internal/config/diff.go. */
module SpecDiff {
  import opened Requests
  import opened RoleValues
  import opened Strings
  import opened Specs
  import EngineConfigs
  import Mounts

  datatype Section = SettingsSection | CatalogSection | MountsSection | EngineConfigsSection | RolesSection
  datatype Action = Added | Removed | Changed

  /** What differs: a field, or some keys of a field. */
  datatype Part = Field(name: string) | FieldKeys(name: string, keys: set<string>)

  /** A change; the detail of an added or removed entry is only text. */
  datatype Change = Change(section: Section, key: string, action: Action, detail: seq<Part>)

  /** A spec as Diff sees it. */
  datatype SpecData = SpecData(settings: Settings, catalog: seq<CatalogEntry>, mounts: seq<MountEntry>,
                               engineConfigs: seq<EngineConfigEntry>, roles: seq<RoleEntry>)

  // ----- Keys and values -----

  predicate NoNaN(v: Value)
    decreases v
  {
    && v != Number(NaN)
    && (v.List? ==> forall i :: 0 <= i < |v.items| ==> NoNaN(v.items[i]))
    && (v.Object? ==> forall k :: k in v.fields ==> NoNaN(v.fields[k]))
  }

  lemma {:induction false} NoNaNIff(v: Value)
    ensures NoNaN(v) <==> !PartOf(Number(NaN), v)
    decreases v
  {
    if v.List? {
      forall i | 0 <= i < |v.items|
        ensures NoNaN(v.items[i]) <==> !PartOf(Number(NaN), v.items[i])
      {
        NoNaNIff(v.items[i]);
      }
    }
    if v.Object? {
      forall k | k in v.fields
        ensures NoNaN(v.fields[k]) <==> !PartOf(Number(NaN), v.fields[k])
      {
        NoNaNIff(v.fields[k]);
      }
    }
  }

  /** reflect.DeepEqual, for which a NaN differs from itself. */
  predicate DeepEqual(a: Value, b: Value) {
    a == b && NoNaN(a)
  }

  /** The keys whose presence or value differs. */
  function DifferingKeys<V>(o: map<string, V>, n: map<string, V>, equal: (V, V) -> bool): set<string> {
    set k | k in o.Keys + n.Keys && !(k in o && k in n && equal(o[k], n[k]))
  }

  method ChangedKeys<V>(o: map<string, V>, n: map<string, V>, equal: (V, V) -> bool) returns (out: seq<string>)
    ensures out == SortedKeys(DifferingKeys(o, n, equal))
  {
    var keys, left := [], o.Keys;
    while left != {}
      invariant left <= o.Keys
      invariant ElementsOf(keys) == DifferingKeys(o, n, equal) * (o.Keys - left)
      invariant forall i, j :: 0 <= i < j < |keys| ==> keys[i] != keys[j]
      decreases left
    {
      var k :| k in left;
      if k !in n || !equal(o[k], n[k]) {
        NewKey(keys, k);
        keys := keys + [k];
      }
      left := left - {k};
    }
    left := n.Keys;
    while left != {}
      invariant left <= n.Keys
      invariant ElementsOf(keys) == DifferingKeys(o, n, equal) * (o.Keys + (n.Keys - left))
      invariant forall i, j :: 0 <= i < j < |keys| ==> keys[i] != keys[j]
      decreases left
    {
      var k :| k in left;
      if k !in o {
        NewKey(keys, k);
        keys := keys + [k];
      }
      left := left - {k};
    }
    assert ElementsOf(keys) == DifferingKeys(o, n, equal);
    out := SortStrings(keys);
    IncreasingIsUnique(out, SortedKeys(DifferingKeys(o, n, equal)));
  }

  lemma {:induction false} NewKey(keys: seq<string>, k: string)
    ensures ElementsOf(keys + [k]) == ElementsOf(keys) + {k}
    ensures k in keys <==> k in ElementsOf(keys)
  {
    assert k in keys + [k];
  }

  /** sortedKeys: the union of both maps' keys, sorted. */
  method UnionKeys<V>(a: map<string, V>, b: map<string, V>) returns (out: seq<string>)
    ensures out == SortedKeys(a.Keys + b.Keys)
  {
    var keys, seen, left := [], {}, a.Keys;
    while left != {}
      invariant left <= a.Keys && ElementsOf(keys) == seen == a.Keys - left
      invariant forall i, j :: 0 <= i < j < |keys| ==> keys[i] != keys[j]
      decreases left
    {
      var k :| k in left;
      NewKey(keys, k);
      seen, keys, left := seen + {k}, keys + [k], left - {k};
    }
    left := b.Keys;
    while left != {}
      invariant left <= b.Keys && ElementsOf(keys) == seen == a.Keys + (b.Keys - left)
      invariant forall i, j :: 0 <= i < j < |keys| ==> keys[i] != keys[j]
      decreases left
    {
      var k :| k in left;
      if k !in seen {
        NewKey(keys, k);
        seen, keys := seen + {k}, keys + [k];
      }
      left := left - {k};
    }
    out := SortStrings(keys);
    IncreasingIsUnique(out, SortedKeys(a.Keys + b.Keys));
  }

  // ----- One section -----

  /** The change at one key of the union, if any. */
  function KeyChange<E>(section: Section, o: map<string, E>, n: map<string, E>, detail: (E, E) -> seq<Part>,
                        key: string): seq<Change>
    requires key in o.Keys + n.Keys
  {
    if key !in o then [Change(section, key, Added, [])]
    else if key !in n then [Change(section, key, Removed, [])]
    else if detail(o[key], n[key]) != [] then [Change(section, key, Changed, detail(o[key], n[key]))]
    else []
  }

  ghost function ChangesAt<E>(section: Section, o: map<string, E>, n: map<string, E>, detail: (E, E) -> seq<Part>,
                              keys: seq<string>): seq<Change>
    requires forall k :: k in keys ==> k in o.Keys + n.Keys
  {
    if keys == [] then []
    else ChangesAt(section, o, n, detail, keys[..|keys| - 1]) + KeyChange(section, o, n, detail, keys[|keys| - 1])
  }

  ghost function SectionDiff<E>(section: Section, o: map<string, E>, n: map<string, E>, detail: (E, E) -> seq<Part>)
    : seq<Change>
  {
    var keys := SortedKeys(o.Keys + n.Keys);
    assert forall k :: k in keys ==> k in ElementsOf(keys);
    ChangesAt(section, o, n, detail, keys)
  }

  method DiffSection<E>(section: Section, o: map<string, E>, n: map<string, E>, detail: (E, E) -> seq<Part>)
    returns (out: seq<Change>)
    ensures out == SectionDiff(section, o, n, detail)
  {
    var keys := UnionKeys(o, n);
    assert forall k :: k in keys ==> k in ElementsOf(keys);
    out := [];
    for i := 0 to |keys|
      invariant out == ChangesAt(section, o, n, detail, keys[..i])
    {
      ChangesAtSnoc(section, o, n, detail, keys, i);
      out := out + KeyChange(section, o, n, detail, keys[i]);
    }
    assert keys[..|keys|] == keys;
  }

  lemma {:induction false} ChangesAtSnoc<E>(section: Section, o: map<string, E>, n: map<string, E>,
                                            detail: (E, E) -> seq<Part>, keys: seq<string>, i: nat)
    requires i < |keys| && forall k :: k in keys ==> k in o.Keys + n.Keys
    ensures keys[i] in o.Keys + n.Keys
    ensures ChangesAt(section, o, n, detail, keys[..i + 1])
         == ChangesAt(section, o, n, detail, keys[..i]) + KeyChange(section, o, n, detail, keys[i])
  {
    assert keys[i] in keys;
    assert keys[..i + 1][..i] == keys[..i];
  }

  /** The keys a list of changes gives an action to. */
  function KeysWith(changes: seq<Change>, action: Action): set<string> {
    set c | c in changes && c.action == action :: c.key
  }

  function KeysOf(changes: seq<Change>): seq<string> {
    if changes == [] then [] else KeysOf(changes[..|changes| - 1]) + [changes[|changes| - 1].key]
  }

  /** The keys among `keys` that an exact delta gives the action to. */
  function Delta<E>(action: Action, o: map<string, E>, n: map<string, E>, detail: (E, E) -> seq<Part>,
                    keys: set<string>): set<string>
  {
    match action
    case Added => set k | k in keys && k !in o
    case Removed => set k | k in keys && k in o && k !in n
    case Changed => set k | k in keys && k in o && k in n && detail(o[k], n[k]) != []
  }

  lemma {:induction false} DeltaOneMore<E>(action: Action, o: map<string, E>, n: map<string, E>,
                                           detail: (E, E) -> seq<Part>, keys: set<string>, k: string, section: Section)
    requires k in o.Keys + n.Keys
    ensures var more := KeyChange(section, o, n, detail, k);
            Delta(action, o, n, detail, keys + {k}) ==
            Delta(action, o, n, detail, keys) + if more != [] && more[0].action == action then {k} else {}
  {
  }

  /** A changed entry is reported with what differs. */
  ghost predicate TellsWhat<E>(c: Change, o: map<string, E>, n: map<string, E>, detail: (E, E) -> seq<Part>) {
    c.action == Changed ==> c.key in o && c.key in n && c.detail == detail(o[c.key], n[c.key])
  }

  lemma {:induction false} ChangesAtAreExact<E>(section: Section, o: map<string, E>, n: map<string, E>,
                                                detail: (E, E) -> seq<Part>, keys: seq<string>)
    requires Increasing(keys) && forall k :: k in keys ==> k in o.Keys + n.Keys
    ensures var changes := ChangesAt(section, o, n, detail, keys);
            && (forall a :: KeysWith(changes, a) == Delta(a, o, n, detail, ElementsOf(keys)))
            && Increasing(KeysOf(changes)) && ElementsOf(KeysOf(changes)) <= ElementsOf(keys)
            && (forall c :: c in changes ==> c.section == section && TellsWhat(c, o, n, detail))
  {
    if keys != [] {
      var before, last := keys[..|keys| - 1], keys[|keys| - 1];
      ChangesAtAreExact(section, o, n, detail, before);
      var changes, more := ChangesAt(section, o, n, detail, before), KeyChange(section, o, n, detail, last);
      assert before + [last] == keys;
      NewKey(before, last);
      AppendChange(changes, more, before, last);
      forall a
        ensures KeysWith(changes + more, a) == Delta(a, o, n, detail, ElementsOf(keys))
      {
        DeltaOneMore(a, o, n, detail, ElementsOf(before), last, section);
      }
    }
  }

  lemma {:induction false} AppendChange(changes: seq<Change>, more: seq<Change>, before: seq<string>, last: string)
    requires more == [] || (|more| == 1 && more[0].key == last)
    requires Increasing(before + [last]) && Increasing(KeysOf(changes))
             && ElementsOf(KeysOf(changes)) <= ElementsOf(before)
    ensures forall a :: KeysWith(changes + more, a) == KeysWith(changes, a)
              + if more != [] && more[0].action == a then {last} else {}
    ensures Increasing(KeysOf(changes + more)) && ElementsOf(KeysOf(changes + more)) <= ElementsOf(before) + {last}
  {
    if more == [] {
      assert changes + more == changes;
    } else {
      assert more == [more[0]];
      forall a
        ensures KeysWith(changes + [more[0]], a) == KeysWith(changes, a) + if more[0].action == a then {last} else {}
      {
        KeysWithSnoc(changes, more[0], a);
      }
      assert (changes + [more[0]])[..|changes|] == changes;
      var ks := KeysOf(changes);
      assert KeysOf(changes + [more[0]]) == ks + [last];
      NewKey(ks, last);
      AboveAll(before, last, ks);
    }
  }

  lemma {:induction false} KeysWithSnoc(changes: seq<Change>, c: Change, a: Action)
    ensures KeysWith(changes + [c], a) == KeysWith(changes, a) + if c.action == a then {c.key} else {}
  {
    assert c in changes + [c];
  }

  lemma {:induction false} AboveAll(before: seq<string>, last: string, ks: seq<string>)
    requires Increasing(before + [last]) && Increasing(ks) && ElementsOf(ks) <= ElementsOf(before)
    ensures Increasing(ks + [last])
  {
    forall i | 0 <= i < |ks|
      ensures Less(ks[i], last)
    {
      assert ks[i] in ElementsOf(ks);
      var j :| 0 <= j < |before| && before[j] == ks[i];
      assert Less((before + [last])[j], (before + [last])[|before|]);
    }
  }

  /** A section's diff is the exact delta of its keys: what is added, removed, and, of the shared keys,
      what differs in a compared field; each key once, in order.  The new keys are the old ones minus
      the removed and plus the added. */
  lemma {:induction false} SectionDiffIsExact<E>(section: Section, o: map<string, E>, n: map<string, E>,
                                                 detail: (E, E) -> seq<Part>)
    ensures var changes := SectionDiff(section, o, n, detail);
            && KeysWith(changes, Added) == n.Keys - o.Keys
            && KeysWith(changes, Removed) == o.Keys - n.Keys
            && KeysWith(changes, Changed) == (set k | k in o && k in n && detail(o[k], n[k]) != [])
            && Increasing(KeysOf(changes))
            && n.Keys == (o.Keys - KeysWith(changes, Removed)) + KeysWith(changes, Added)
            && forall c :: c in changes ==> c.section == section && TellsWhat(c, o, n, detail)
  {
    var keys := SortedKeys(o.Keys + n.Keys);
    assert forall k :: k in keys ==> k in ElementsOf(keys);
    ChangesAtAreExact(section, o, n, detail, keys);
    assert Delta(Added, o, n, detail, o.Keys + n.Keys) == n.Keys - o.Keys;
    assert Delta(Removed, o, n, detail, o.Keys + n.Keys) == o.Keys - n.Keys;
    assert Delta(Changed, o, n, detail, o.Keys + n.Keys) == (set k | k in o && k in n && detail(o[k], n[k]) != []);
    UnionMinus(o.Keys, n.Keys);
  }

  lemma {:induction false} UnionMinus<T>(a: set<T>, b: set<T>)
    ensures (a + b) - a == b - a && (a + b) - b == a - b && b == (a - (a - b)) + (b - a)
  {
  }

  // ----- The four entry sections -----

  function CatalogKey(c: CatalogEntry): string {
    c.name + "@" + TrimV(c.version)
  }

  ghost function MountDiffKey(m: MountEntry): string {
    m.ptype + ":" + TrimSlashes(m.path)
  }

  ghost function EngineConfigKey(e: EngineConfigEntry): string {
    TrimSlashes(e.mount) + "/" + if TrimSlashes(e.path) == "" then "config" else TrimSlashes(e.path)
  }

  ghost function RoleKey(r: RoleEntry): string {
    TrimSlashes(r.mount) + "/" + (if r.rolesPath == "" then "roles" else r.rolesPath) + "/" + r.name
  }

  /** A map filled in a loop: the last entry of a key stays. */
  ghost function ByKey<E>(es: seq<E>, key: E -> string): map<string, E> {
    if es == [] then map[]
    else ByKey(es[..|es| - 1], key)[key(es[|es| - 1]) := es[|es| - 1]]
  }

  ghost predicate LastAt<E>(es: seq<E>, key: E -> string, k: string, e: E, i: int) {
    0 <= i < |es| && es[i] == e && key(es[i]) == k && forall j :: i < j < |es| ==> key(es[j]) != k
  }

  /** The entry kept for a key is the last one of that key. */
  lemma {:induction false} LastOfItsKey<E>(es: seq<E>, key: E -> string, k: string, e: E)
    ensures k in ByKey(es, key) && ByKey(es, key)[k] == e <==>
              exists i :: LastAt(es, key, k, e, i)
  {
    if es != [] {
      var before, last := es[..|es| - 1], |es| - 1;
      LastOfItsKey(before, key, k, e);
      assert forall j :: 0 <= j < last ==> before[j] == es[j];
      if key(es[last]) != k {
        assert forall i :: LastAt(es, key, k, e, i) <==> LastAt(before, key, k, e, i);
      } else {
        assert forall i :: LastAt(es, key, k, e, i) ==> i == last;
        assert es[last] == e ==> LastAt(es, key, k, e, last);
      }
    }
  }

  method CatalogByKey(es: seq<CatalogEntry>) returns (m: map<string, CatalogEntry>)
    ensures m == ByKey(es, CatalogKey)
  {
    m := map[];
    for i := 0 to |es|
      invariant m == ByKey(es[..i], CatalogKey)
    {
      assert es[..i + 1][..i] == es[..i];
      m := m[CatalogKey(es[i]) := es[i]];
    }
    assert es[..|es|] == es;
  }

  method MountsByKey(es: seq<MountEntry>) returns (m: map<string, MountEntry>)
    ensures m == ByKey(es, MountDiffKey)
  {
    m := map[];
    for i := 0 to |es|
      invariant m == ByKey(es[..i], MountDiffKey)
    {
      assert es[..i + 1][..i] == es[..i];
      var path := Trim(es[i].path);
      m := m[es[i].ptype + ":" + path := es[i]];
    }
    assert es[..|es|] == es;
  }

  method EngineConfigsByKey(es: seq<EngineConfigEntry>) returns (m: map<string, EngineConfigEntry>)
    ensures m == ByKey(es, EngineConfigKey)
  {
    m := map[];
    for i := 0 to |es|
      invariant m == ByKey(es[..i], EngineConfigKey)
    {
      assert es[..i + 1][..i] == es[..i];
      var path := Trim(es[i].path);
      if path == "" {
        path := "config";
      }
      var mount := Trim(es[i].mount);
      m := m[mount + "/" + path := es[i]];
    }
    assert es[..|es|] == es;
  }

  method RolesByKey(es: seq<RoleEntry>) returns (m: map<string, RoleEntry>)
    ensures m == ByKey(es, RoleKey)
  {
    m := map[];
    for i := 0 to |es|
      invariant m == ByKey(es[..i], RoleKey)
    {
      assert es[..i + 1][..i] == es[..i];
      var rolesPath := if es[i].rolesPath == "" then "roles" else es[i].rolesPath;
      var mount := Trim(es[i].mount);
      m := m[mount + "/" + rolesPath + "/" + es[i].name := es[i]];
    }
    assert es[..|es|] == es;
  }

  predicate SameText(a: string, b: string) {
    a == b
  }

  function KeysPart<V>(name: string, o: map<string, V>, n: map<string, V>, equal: (V, V) -> bool): seq<Part> {
    var keys := DifferingKeys(o, n, equal);
    if keys == {} then [] else [FieldKeys(name, keys)]
  }

  function FieldPart(name: string, moved: bool): seq<Part> {
    if moved then [Field(name)] else []
  }

  function CatalogDetail(o: CatalogEntry, n: CatalogEntry): seq<Part> {
    FieldPart("type", o.ptype != n.ptype) + FieldPart("source", o.source != n.source)
  }

  /** Options compare as declared: absent and empty ones differ, with no key to name. */
  function MountDetail(o: MountEntry, n: MountEntry): seq<Part> {
    FieldPart("plugin", o.plugin != n.plugin) + FieldPart("version", TrimV(o.version) != TrimV(n.version)) +
    FieldPart("description", o.description != n.description) +
    (if o.options != n.options
     then [FieldKeys("options", DifferingKeys(DeclaredOptions(o), DeclaredOptions(n), SameText))] else [])
  }

  function DeclaredOptions(m: MountEntry): map<string, string> {
    if m.options.Some? then m.options.value else map[]
  }

  function EngineConfigDetail(o: EngineConfigEntry, n: EngineConfigEntry): seq<Part> {
    KeysPart("data", o.data, n.data, DeepEqual) +
    (if o.secretRef.None? && n.secretRef.None? then []
     else if o.secretRef.None? then [Field("secretRef added")]
     else if n.secretRef.None? then [Field("secretRef removed")]
     else FieldPart("secretRef name", o.secretRef.value.name != n.secretRef.value.name) +
          KeysPart("secretRef fields", o.secretRef.value.keys, n.secretRef.value.keys, SameText))
  }

  function RoleDetail(o: RoleEntry, n: RoleEntry): seq<Part> {
    KeysPart("data", o.data, n.data, DeepEqual)
  }

  // ----- What a change tells -----

  /** These are the keys that only one map has, or that do not hold the same text. */
  ghost predicate TextsMoved(keys: set<string>, o: map<string, string>, n: map<string, string>) {
    forall k :: k in keys <==> k in o.Keys + n.Keys && (k in o && k in n ==> o[k] != n[k])
  }

  /** The same of values, a value that holds a NaN being no value's equal. */
  ghost predicate ValuesMoved(keys: set<string>, o: Body, n: Body) {
    forall k :: k in keys <==>
      k in o.Keys + n.Keys && (k in o && k in n ==> o[k] != n[k] || PartOf(Number(NaN), o[k]))
  }

  lemma {:induction false} TextsMovedIff(keys: set<string>, o: map<string, string>, n: map<string, string>)
    ensures TextsMoved(keys, o, n) <==> keys == DifferingKeys(o, n, SameText)
  {
  }

  lemma {:induction false} ValuesMovedIff(keys: set<string>, o: Body, n: Body)
    ensures ValuesMoved(keys, o, n) <==> keys == DifferingKeys(o, n, DeepEqual)
  {
    forall v
      ensures NoNaN(v) <==> !PartOf(Number(NaN), v)
    {
      NoNaNIff(v);
    }
  }

  /** A catalog change tells of the type and of the source, and a mount change of the plugin, of the version up to a
      leading "v", of the description and of the options as declared. */
  lemma {:induction false} DetailTells(o: CatalogEntry, n: CatalogEntry, a: MountEntry, b: MountEntry, p: Part)
    ensures p in CatalogDetail(o, n) <==>
              (p == Field("type") && o.ptype != n.ptype) || (p == Field("source") && o.source != n.source)
    ensures p in MountDetail(a, b) <==>
              || (p == Field("plugin") && a.plugin != b.plugin)
              || (p == Field("version") && !Mounts.EqualUpToV(a.version, b.version))
              || (p == Field("description") && a.description != b.description)
              || (p.FieldKeys? && p.name == "options" && a.options != b.options
                  && TextsMoved(p.keys, DeclaredOptions(a), DeclaredOptions(b)))
  {
    Mounts.SameVersionIff(a.version, b.version);
    if p.FieldKeys? {
      TextsMovedIff(p.keys, DeclaredOptions(a), DeclaredOptions(b));
    }
  }

  /** An engine config change tells which data keys moved, whether the secretRef came or went, and otherwise of its name
      and which of its fields moved; a role change which data keys moved. */
  lemma {:induction false} BodyDetailTells(o: EngineConfigEntry, n: EngineConfigEntry, q: RoleEntry, r: RoleEntry,
                                           p: Part)
    ensures p in EngineConfigDetail(o, n) <==>
              || (p.FieldKeys? && p.name == "data" && p.keys != {} && ValuesMoved(p.keys, o.data, n.data))
              || (p == Field("secretRef added") && o.secretRef.None? && n.secretRef.Some?)
              || (p == Field("secretRef removed") && o.secretRef.Some? && n.secretRef.None?)
              || (o.secretRef.Some? && n.secretRef.Some? && RefTells(o.secretRef.value, n.secretRef.value, p))
    ensures p in RoleDetail(q, r) <==>
              p.FieldKeys? && p.name == "data" && p.keys != {} && ValuesMoved(p.keys, q.data, r.data)
  {
    if p.FieldKeys? {
      ValuesMovedIff(p.keys, o.data, n.data);
      ValuesMovedIff(p.keys, q.data, r.data);
      if o.secretRef.Some? && n.secretRef.Some? {
        TextsMovedIff(p.keys, o.secretRef.value.keys, n.secretRef.value.keys);
      }
    }
  }

  ghost predicate RefTells(o: EngineConfigs.SecretRef, n: EngineConfigs.SecretRef, p: Part) {
    || (p == Field("secretRef name") && o.name != n.name)
    || (p.FieldKeys? && p.name == "secretRef fields" && p.keys != {} && TextsMoved(p.keys, o.keys, n.keys))
  }

  // ----- The whole diff -----

  function FieldsMoved(o: Settings, n: Settings): seq<(string, bool)> {
    [("pruneMode", o.pruneMode != n.pruneMode), ("resyncInterval", o.resyncInterval != n.resyncInterval),
     ("logLevel", o.logLevel != n.logLevel), ("stallTimeout", o.stallTimeout != n.stallTimeout),
     ("tokenGracePeriod", o.tokenGracePeriod != n.tokenGracePeriod),
     ("tokenFailTimeout", o.tokenFailTimeout != n.tokenFailTimeout),
     ("watchGracePeriod", o.watchGracePeriod != n.watchGracePeriod)]
  }

  function MovedChanges(fields: seq<(string, bool)>): seq<Change> {
    if fields == [] then []
    else
      var f := fields[|fields| - 1];
      MovedChanges(fields[..|fields| - 1]) + if f.1 then [Change(SettingsSection, f.0, Changed, [])] else []
  }

  /** The settings as an operator names them, in the order they are compared. */
  const SETTING_NAMES := ["pruneMode", "resyncInterval", "logLevel", "stallTimeout", "tokenGracePeriod",
                          "tokenFailTimeout", "watchGracePeriod"]

  ghost predicate SettingMoved(o: Settings, n: Settings, i: int) {
    || (i == 0 && o.pruneMode != n.pruneMode) || (i == 1 && o.resyncInterval != n.resyncInterval)
    || (i == 2 && o.logLevel != n.logLevel) || (i == 3 && o.stallTimeout != n.stallTimeout)
    || (i == 4 && o.tokenGracePeriod != n.tokenGracePeriod) || (i == 5 && o.tokenFailTimeout != n.tokenFailTimeout)
    || (i == 6 && o.watchGracePeriod != n.watchGracePeriod)
  }

  ghost predicate Rising(at: seq<int>) {
    forall i, j :: 0 <= i < j < |at| ==> at[i] < at[j]
  }

  /** Exactly the settings that moved are told of, each once and in order; `at` says which. */
  lemma {:induction false} SettingsTold(o: Settings, n: Settings) returns (at: seq<int>)
    ensures var out := MovedChanges(FieldsMoved(o, n));
            && |at| == |out| && Rising(at) && (forall i :: i in at <==> SettingMoved(o, n, i))
            && forall k :: 0 <= k < |at| ==>
                 0 <= at[k] < 7 && out[k] == Change(SettingsSection, SETTING_NAMES[at[k]], Changed, [])
  {
    var f := FieldsMoved(o, n);
    at := MovedAt(f);
    assert forall i :: 0 <= i < 7 ==> f[i].0 == SETTING_NAMES[i] && (f[i].1 <==> SettingMoved(o, n, i));
  }

  /** `out` tells of the moved fields, each at its place. */
  ghost predicate Tells(f: seq<(string, bool)>, at: seq<int>, out: seq<Change>) {
    && |at| == |out| && Rising(at) && (forall i :: i in at <==> 0 <= i < |f| && f[i].1)
    && forall k :: 0 <= k < |at| ==> 0 <= at[k] < |f| && out[k] == Change(SettingsSection, f[at[k]].0, Changed, [])
  }

  lemma {:induction false} MovedAt(f: seq<(string, bool)>) returns (at: seq<int>)
    ensures Tells(f, at, MovedChanges(f))
  {
    at := [];
    if f != [] {
      var before, x := f[..|f| - 1], f[|f| - 1];
      at := MovedAt(before);
      assert f == before + [x];
      TellsNext(before, x, at, MovedChanges(before));
      if x.1 {
        at := at + [|before|];
      }
    }
  }

  lemma {:induction false} TellsNext(f: seq<(string, bool)>, x: (string, bool), at: seq<int>, out: seq<Change>)
    requires Tells(f, at, out)
    ensures if x.1 then Tells(f + [x], at + [|f|], out + [Change(SettingsSection, x.0, Changed, [])])
            else Tells(f + [x], at, out + [])
  {
    var more := f + [x];
    assert forall k :: 0 <= k < |at| ==> at[k] in at && more[at[k]] == f[at[k]];
    if x.1 {
      var at' := at + [|f|];
      assert forall i :: i in at' <==> i in at || i == |f|;
    } else {
      assert out + [] == out;
    }
  }

  method DiffSettings(o: Settings, n: Settings) returns (out: seq<Change>)
    ensures out == MovedChanges(FieldsMoved(o, n))
  {
    var fields := FieldsMoved(o, n);
    out := [];
    for i := 0 to |fields|
      invariant out == MovedChanges(fields[..i])
    {
      assert fields[..i + 1][..i] == fields[..i];
      if fields[i].1 {
        out := out + [Change(SettingsSection, fields[i].0, Changed, [])];
      }
    }
    assert fields[..|fields|] == fields;
  }

  /** The entries of a spec by key, as the sections compare them. */
  datatype Keyed = Keyed(catalog: map<string, CatalogEntry>, mounts: map<string, MountEntry>,
                         engineConfigs: map<string, EngineConfigEntry>, roles: map<string, RoleEntry>)

  ghost function KeyedOf(s: SpecData): Keyed {
    Keyed(ByKey(s.catalog, CatalogKey), ByKey(s.mounts, MountDiffKey),
          ByKey(s.engineConfigs, EngineConfigKey), ByKey(s.roles, RoleKey))
  }

  ghost function EntriesDiff(o: Keyed, n: Keyed): seq<Change> {
    SectionDiff(CatalogSection, o.catalog, n.catalog, CatalogDetail) +
    SectionDiff(MountsSection, o.mounts, n.mounts, MountDetail) +
    SectionDiff(EngineConfigsSection, o.engineConfigs, n.engineConfigs, EngineConfigDetail) +
    SectionDiff(RolesSection, o.roles, n.roles, RoleDetail)
  }

  ghost function SpecDiffOf(o: SpecData, n: SpecData): seq<Change> {
    MovedChanges(FieldsMoved(o.settings, n.settings)) + EntriesDiff(KeyedOf(o), KeyedOf(n))
  }

  /** The base of the first diff: nothing declared, every setting at its default. */
  const NOTHING_SEEN: SpecData := SpecData(WithDefaults(Settings("", 0, "", 0, 0, 0, 0)), [], [], [], [])

  lemma {:induction false} NothingSeenIs()
    ensures NOTHING_SEEN == SpecData(Settings("full", 300_000_000_000, "info", 600_000_000_000, 120_000_000_000,
                                              900_000_000_000, 120_000_000_000), [], [], [], [])
  {
  }

  /** Diff: settings, catalog, mounts, engine configs, roles, in the order the reconcile loop acts. */
  method Diff(o: Option<SpecData>, n: Option<SpecData>) returns (out: seq<Change>)
    ensures out == if n.None? then [] else SpecDiffOf(if o.Some? then o.value else NOTHING_SEEN, n.value)
  {
    if n.None? {
      return [];
    }
    var base := if o.Some? then o.value else NOTHING_SEEN;
    out := DiffSettings(base.settings, n.value.settings);
    var oc := CatalogByKey(base.catalog);
    var nc := CatalogByKey(n.value.catalog);
    var catalog := DiffSection(CatalogSection, oc, nc, CatalogDetail);
    var om := MountsByKey(base.mounts);
    var nm := MountsByKey(n.value.mounts);
    var mounts := DiffSection(MountsSection, om, nm, MountDetail);
    var oe := EngineConfigsByKey(base.engineConfigs);
    var ne := EngineConfigsByKey(n.value.engineConfigs);
    var engines := DiffSection(EngineConfigsSection, oe, ne, EngineConfigDetail);
    var or := RolesByKey(base.roles);
    var nr := RolesByKey(n.value.roles);
    var roles := DiffSection(RolesSection, or, nr, RoleDetail);
    out := out + (catalog + mounts + engines + roles);
  }

  // ----- When nothing is reported -----

  lemma {:induction false} SectionQuietIff<E>(section: Section, o: map<string, E>, n: map<string, E>,
                                              detail: (E, E) -> seq<Part>)
    ensures SectionDiff(section, o, n, detail) == [] <==>
              o.Keys == n.Keys && forall k :: k in o && k in n ==> detail(o[k], n[k]) == []
  {
    SectionDiffIsExact(section, o, n, detail);
    var changes := SectionDiff(section, o, n, detail);
    if changes != [] {
      assert changes[0].key in KeysWith(changes, changes[0].action);
    }
    assert changes == [] ==> KeysWith(changes, Added) == KeysWith(changes, Removed) == KeysWith(changes, Changed) == {};
  }

  lemma {:induction false} SettingsQuietIff(o: Settings, n: Settings)
    ensures MovedChanges(FieldsMoved(o, n)) == [] <==> o == n
  {
    MovedQuietIff(FieldsMoved(o, n));
    var f := FieldsMoved(o, n);
    if forall i :: 0 <= i < |f| ==> !f[i].1 {
      assert !f[0].1 && !f[1].1 && !f[2].1 && !f[3].1 && !f[4].1 && !f[5].1 && !f[6].1;
    }
  }

  lemma {:induction false} MovedQuietIff(fields: seq<(string, bool)>)
    ensures MovedChanges(fields) == [] <==> forall i :: 0 <= i < |fields| ==> !fields[i].1
  {
    if fields != [] {
      MovedQuietIff(fields[..|fields| - 1]);
    }
  }

  ghost predicate BodyWithoutNaN(data: Body) {
    forall k :: k in data ==> NoNaN(data[k])
  }

  /** Comparing a spec with the same text parsed again, which shares no map or slice with it, reports nothing iff no
      engine config and no role that counts holds a NaN: such a value differs from itself and is logged as changed every
      time. */
  lemma {:induction false} ReparsedSpecIsQuietIff(s: SpecData)
    ensures SpecDiffOf(s, s) == [] <==> KeyedWithoutNaN(KeyedOf(s))
  {
    SettingsQuietIff(s.settings, s.settings);
    SelfQuietEntries(KeyedOf(s));
  }

  ghost predicate KeyedWithoutNaN(k: Keyed) {
    && (forall key :: key in k.engineConfigs ==> BodyWithoutNaN(k.engineConfigs[key].data))
    && (forall key :: key in k.roles ==> BodyWithoutNaN(k.roles[key].data))
  }

  lemma {:induction false} SelfQuietEntries(k: Keyed)
    ensures EntriesDiff(k, k) == [] <==> KeyedWithoutNaN(k)
  {
    SelfQuietSections(k.catalog, k.mounts, k.engineConfigs, k.roles);
    NoneOfFour(SectionDiff(CatalogSection, k.catalog, k.catalog, CatalogDetail),
               SectionDiff(MountsSection, k.mounts, k.mounts, MountDetail),
               SectionDiff(EngineConfigsSection, k.engineConfigs, k.engineConfigs, EngineConfigDetail),
               SectionDiff(RolesSection, k.roles, k.roles, RoleDetail));
  }

  lemma {:induction false} NoneOfFour<T>(a: seq<T>, b: seq<T>, c: seq<T>, d: seq<T>)
    ensures a + b + c + d == [] <==> a == [] && b == [] && c == [] && d == []
  {
    assert |a + b + c + d| == |a| + |b| + |c| + |d|;
  }

  lemma {:induction false} SelfQuietSections(c: map<string, CatalogEntry>, m: map<string, MountEntry>,
                                             e: map<string, EngineConfigEntry>, r: map<string, RoleEntry>)
    ensures SectionDiff(CatalogSection, c, c, CatalogDetail) == []
    ensures SectionDiff(MountsSection, m, m, MountDetail) == []
    ensures SectionDiff(EngineConfigsSection, e, e, EngineConfigDetail) == [] <==>
              forall k :: k in e ==> BodyWithoutNaN(e[k].data)
    ensures SectionDiff(RolesSection, r, r, RoleDetail) == [] <==> forall k :: k in r ==> BodyWithoutNaN(r[k].data)
  {
    SelfQuiet(CatalogSection, c, CatalogDetail);
    SelfQuiet(MountsSection, m, MountDetail);
    SelfQuiet(EngineConfigsSection, e, EngineConfigDetail);
    SelfQuiet(RolesSection, r, RoleDetail);
    forall k | k in e
      ensures EngineConfigDetail(e[k], e[k]) == [] <==> BodyWithoutNaN(e[k].data)
    {
      SelfEngineConfig(e[k]);
    }
    forall k | k in r
      ensures RoleDetail(r[k], r[k]) == [] <==> BodyWithoutNaN(r[k].data)
    {
      SelfKeysPart("data", r[k].data);
    }
  }

  lemma {:induction false} SelfQuiet<E>(section: Section, m: map<string, E>, detail: (E, E) -> seq<Part>)
    ensures SectionDiff(section, m, m, detail) == [] <==> forall k :: k in m ==> detail(m[k], m[k]) == []
  {
    SectionQuietIff(section, m, m, detail);
  }

  lemma {:induction false} SelfEngineConfig(e: EngineConfigEntry)
    ensures EngineConfigDetail(e, e) == [] <==> BodyWithoutNaN(e.data)
  {
    SelfKeysPart("data", e.data);
  }

  lemma {:induction false} SelfKeysPart(name: string, data: Body)
    ensures KeysPart(name, data, data, DeepEqual) == [] <==> BodyWithoutNaN(data)
  {
    if !BodyWithoutNaN(data) {
      var k :| k in data && !NoNaN(data[k]);
      assert k in DifferingKeys(data, data, DeepEqual);
    }
  }

  // ----- What a reported mount change means for Vault -----

  function Desired(m: MountEntry, mtype: Mounts.MountType): Mounts.Mount {
    Mounts.Mount(m.path, m.plugin, mtype, m.version, m.description, DeclaredOptions(m))
  }

  /** A mount the diff does not report needs exactly the work it needed before, whatever is live. */
  lemma {:induction false} UnreportedMountKeepsItsWork(o: MountEntry, n: MountEntry, mtype: Mounts.MountType,
                                                       live: Mounts.Live)
    requires MountDetail(o, n) == []
    ensures Mounts.Conforms(live, Desired(o, mtype)) <==> Mounts.Conforms(live, Desired(n, mtype))
  {
    assert o.options == n.options;
  }

  /** The converse fails: of the reported fields, a plugin move and options that differ only in empty
      values or in being absent cause no work on a mount in its declared state; every other one does. */
  lemma {:induction false} ReportedMountChangeWorksIff(o: MountEntry, n: MountEntry, mtype: Mounts.MountType,
                                                       live: Mounts.Live)
    requires Mounts.Conforms(live, Desired(o, mtype)) && Mounts.IsManaged(live.options)
    ensures !Mounts.Conforms(live, Desired(n, mtype)) <==>
              || TrimV(o.version) != TrimV(n.version)
              || o.description != n.description
              || Mounts.InEffect(Mounts.WithManaged(DeclaredOptions(o))) !=
                   Mounts.InEffect(Mounts.WithManaged(DeclaredOptions(n)))
  {
  }
}
