/** The data and the pure decisions of the engine config step: internal/reconcile/engineconfig.go. */
module EngineConfigs {
  import opened Requests
  import opened RoleValues

  datatype SecretRef = SecretRef(name: string, keys: map<string, string>)
  datatype Entry = Entry(mount: string, path: string, data: Body, secretRef: Option<SecretRef>)

  /** An entry with its full body built and digested. */
  datatype Resolved = Resolved(mount: string, key: string, body: Body, digest: string)

  /** What the state Secret holds for one engine config. */
  datatype Record = Record(sha256: string, mountUUID: string)
  type Records = map<string, Record>

  /** `digest` is the hex SHA-256 of the JSON of {path, body}, absent when the body cannot be encoded;
      `validUtf8` is utf8.Valid. */
  datatype Codec = Codec(digest: (string, Body) -> Option<string>, validUtf8: string -> bool)

  function EntryKey(e: Entry): string {
    e.mount + "/" + e.path
  }

  // ----- The state document -----

  /** The state Secret's data, by what the loader can make of it.  A JSON null record is None. */
  datatype Document =
    | NoKey
    | Undecodable
    | NullDocument
    | Decoded(records: map<string, Option<Record>>)

  predicate Complete(rec: Option<Record>) {
    rec.Some? && rec.value.sha256 != "" && rec.value.mountUUID != ""
  }

  /** The loader's verdict on an existing state Secret. */
  function LoadDocument(doc: Document): Option<Records> {
    if doc.Decoded? && forall k :: k in doc.records ==> Complete(doc.records[k])
    then Some(map k | k in doc.records :: doc.records[k].value)
    else None
  }

  /** The document the manager saves. */
  function RenderDocument(records: Records): Document {
    Decoded(map k | k in records :: Some(records[k]))
  }

  /** A saved document is read back as exactly the records saved iff each has a digest and a UUID. */
  lemma {:induction false} SavedDocumentLoads(records: Records)
    ensures LoadDocument(RenderDocument(records)) == Some(records)
       <==> forall k :: k in records ==> records[k].sha256 != "" && records[k].mountUUID != ""
  {
    var doc := RenderDocument(records);
    assert forall k :: k in records ==> k in doc.records && doc.records[k] == Some(records[k]);
    if forall k :: k in records ==> records[k].sha256 != "" && records[k].mountUUID != "" {
      assert forall k :: k in doc.records ==> Complete(doc.records[k]);
      assert LoadDocument(doc).value == records;
    } else {
      var k :| k in records && (records[k].sha256 == "" || records[k].mountUUID == "");
      assert !Complete(doc.records[k]);
    }
  }

  // ----- Which entries to write -----

  datatype Reason = Current | Unrecorded | MountRecreated | Changed

  function WriteReason(rec: Option<Record>, digest: string, uuid: string): Reason {
    if rec.None? then Unrecorded
    else if rec.value.mountUUID != uuid then MountRecreated
    else if rec.value.sha256 != digest then Changed
    else Current
  }

  function Lookup(records: Records, key: string): Option<Record> {
    if key in records then Some(records[key]) else None
  }

  predicate NeedsWrite(records: Records, e: Resolved, uuids: map<string, string>)
    requires e.mount in uuids
  {
    WriteReason(Lookup(records, e.key), e.digest, uuids[e.mount]) != Current
  }

  predicate MountsKnown(entries: seq<Resolved>, uuids: map<string, string>) {
    forall e :: e in entries ==> e.mount in uuids && uuids[e.mount] != ""
  }

  /** The entries to write, in declaration order. */
  function Pending(records: Records, entries: seq<Resolved>, uuids: map<string, string>): (p: seq<Resolved>)
    requires MountsKnown(entries, uuids)
    ensures forall e :: e in p ==> e in entries
  {
    if entries == [] then []
    else
      var rest := Pending(records, entries[1..], uuids);
      if NeedsWrite(records, entries[0], uuids) then [entries[0]] + rest else rest
  }

  /** The records once the first `n` pending writes were accepted. */
  function AfterWrites(records: Records, pending: seq<Resolved>, uuids: map<string, string>, n: nat): Records
    requires n <= |pending| && MountsKnown(pending, uuids)
  {
    if n == 0 then records
    else
      var e := pending[n - 1];
      AfterWrites(records, pending, uuids, n - 1)[e.key := Record(e.digest, uuids[e.mount])]
  }

  function DeclaredKeys(entries: seq<Resolved>): set<string> {
    set e | e in entries :: e.key
  }

  /** The records left once undeclared ones are dropped. */
  function DropUndeclared(records: Records, entries: seq<Resolved>): Records {
    map k | k in records && k in DeclaredKeys(entries) :: records[k]
  }

  ghost predicate DistinctKeys(entries: seq<Resolved>) {
    forall i, j :: 0 <= i < j < |entries| ==> entries[i].key != entries[j].key
  }

  // ----- Convergence -----

  /** The records a pass saves after its first `n` writes were accepted. */
  function SavedRecords(records: Records, entries: seq<Resolved>, uuids: map<string, string>, n: nat): Records
    requires MountsKnown(entries, uuids) && n <= |Pending(records, entries, uuids)|
  {
    DropUndeclared(AfterWrites(records, Pending(records, entries, uuids), uuids, n), entries)
  }

  lemma {:induction false} PendingDistinct(records: Records, entries: seq<Resolved>, uuids: map<string, string>)
    requires MountsKnown(entries, uuids) && DistinctKeys(entries)
    ensures DistinctKeys(Pending(records, entries, uuids))
  {
    if entries != [] {
      PendingDistinct(records, entries[1..], uuids);
      assert forall e :: e in Pending(records, entries[1..], uuids) ==> e.key != entries[0].key;
    }
  }

  lemma {:induction false} PendingReadsDeclaredOnly(a: Records, b: Records, entries: seq<Resolved>,
                                                    uuids: map<string, string>)
    requires MountsKnown(entries, uuids)
    requires forall e :: e in entries ==> Lookup(a, e.key) == Lookup(b, e.key)
    ensures Pending(a, entries, uuids) == Pending(b, entries, uuids)
  {
    if entries != [] {
      assert entries[0] in entries;
      PendingReadsDeclaredOnly(a, b, entries[1..], uuids);
    }
  }

  /** Recording the first pending write takes exactly that entry off the list. */
  lemma {:induction false} RecordingClearsOne(records: Records, entries: seq<Resolved>, uuids: map<string, string>)
    requires MountsKnown(entries, uuids) && DistinctKeys(entries)
    requires Pending(records, entries, uuids) != []
    ensures var p := Pending(records, entries, uuids);
            var recorded := records[p[0].key := Record(p[0].digest, uuids[p[0].mount])];
            Pending(recorded, entries, uuids) == p[1..]
  {
    var p, rest := Pending(records, entries, uuids), entries[1..];
    var recorded := records[p[0].key := Record(p[0].digest, uuids[p[0].mount])];
    assert DistinctKeys(rest);
    assert forall e :: e in rest ==> e.key != entries[0].key;
    if NeedsWrite(records, entries[0], uuids) {
      PendingReadsDeclaredOnly(recorded, records, rest, uuids);
    } else {
      RecordingClearsOne(records, rest, uuids);
    }
  }

  lemma {:induction false} PendingAfterWrites(records: Records, entries: seq<Resolved>, uuids: map<string, string>,
                                              n: nat)
    requires MountsKnown(entries, uuids) && DistinctKeys(entries)
    requires n <= |Pending(records, entries, uuids)|
    ensures var p := Pending(records, entries, uuids);
            Pending(AfterWrites(records, p, uuids, n), entries, uuids) == p[n..]
  {
    if n > 0 {
      PendingAfterWrites(records, entries, uuids, n - 1);
      RecordingClearsOne(AfterWrites(records, Pending(records, entries, uuids), uuids, n - 1), entries, uuids);
    }
  }

  /** Checkpointing: with unchanged inputs, a saved pass leaves to write exactly what it had not
      written, in the same order. */
  lemma {:induction false} SavedPassLeavesTheRest(records: Records, entries: seq<Resolved>, uuids: map<string, string>,
                                                  n: nat)
    requires MountsKnown(entries, uuids) && DistinctKeys(entries)
    requires n <= |Pending(records, entries, uuids)|
    ensures Pending(SavedRecords(records, entries, uuids, n), entries, uuids) == Pending(records, entries, uuids)[n..]
  {
    var after := AfterWrites(records, Pending(records, entries, uuids), uuids, n);
    PendingAfterWrites(records, entries, uuids, n);
    PendingReadsDeclaredOnly(after, DropUndeclared(after, entries), entries, uuids);
  }

  /** Accepted writes set the record of their own key and leave every other record alone. */
  lemma {:induction false} AfterWritesAt(records: Records, pending: seq<Resolved>, uuids: map<string, string>, n: nat,
                                         key: string)
    requires n <= |pending| && MountsKnown(pending, uuids) && DistinctKeys(pending)
    ensures forall i :: 0 <= i < n && pending[i].key == key ==>
              Lookup(AfterWrites(records, pending, uuids, n), key) ==
                  Some(Record(pending[i].digest, uuids[pending[i].mount]))
    ensures (forall i :: 0 <= i < n ==> pending[i].key != key) ==>
              Lookup(AfterWrites(records, pending, uuids, n), key) == Lookup(records, key)
  {
    if n > 0 {
      AfterWritesAt(records, pending, uuids, n - 1, key);
    }
  }

  /** What a saved pass stores: for a declared entry written in this pass its new record, for any other
      declared entry the record it had, and nothing for an undeclared key. */
  lemma {:induction false} SavedRecordsAreExact(records: Records, entries: seq<Resolved>, uuids: map<string, string>,
                                                n: nat, key: string)
    requires MountsKnown(entries, uuids) && DistinctKeys(entries)
    requires n <= |Pending(records, entries, uuids)|
    ensures var p, saved := Pending(records, entries, uuids), SavedRecords(records, entries, uuids, n);
            && (key !in DeclaredKeys(entries) ==> key !in saved)
            && (forall i :: 0 <= i < n && p[i].key == key ==>
                  Lookup(saved, key) == Some(Record(p[i].digest, uuids[p[i].mount])))
            && (key in DeclaredKeys(entries) && (forall i :: 0 <= i < n ==> p[i].key != key) ==>
                  Lookup(saved, key) == Lookup(records, key))
  {
    var p := Pending(records, entries, uuids);
    PendingDistinct(records, entries, uuids);
    AfterWritesAt(records, p, uuids, n, key);
    forall i | 0 <= i < n && p[i].key == key
      ensures key in DeclaredKeys(entries)
    {
      assert p[i] in entries;
    }
  }

  /** Nothing pending means every declared entry is recorded with its digest and its mount's UUID. */
  lemma {:induction false} NothingPendingIffAllRecorded(records: Records, entries: seq<Resolved>,
                                                        uuids: map<string, string>)
    requires MountsKnown(entries, uuids)
    ensures Pending(records, entries, uuids) == []
       <==> forall e :: e in entries ==> Lookup(records, e.key) == Some(Record(e.digest, uuids[e.mount]))
  {
    if entries != [] {
      NothingPendingIffAllRecorded(records, entries[1..], uuids);
      assert entries == [entries[0]] + entries[1..];
    }
  }
}
