/**
  Backup and restore, cmd/server/backup.go and cmd/server/restore.go: what goes into the archive,
  what the manifest says of it, what restore refuses, and what it puts back.

  The digest and the manifest's encoding are parameters.  A character stands for a byte.
 */
module Backup {
  datatype Option<T> = None | Some(value: T)

  type Bucket = map<string, string>

  type Entries = map<string, string>

  datatype Manifest = Manifest(files: seq<string>, digests: map<string, string>)

  datatype Member = Member(name: string, data: string)

  datatype Codec = Codec(digest: string -> string, encode: Manifest -> string, decode: string -> Option<Manifest>)

  /** Unmarshalling undoes marshalling. */
  ghost predicate Faithful(c: Codec) { forall m :: c.decode(c.encode(m)) == Some(m) }

  const DUMP := "database.sql"

  const MANIFEST := "manifest.json"

  const PREFIX := "storage/"

  /** What an object is called in the archive. */
  function ObjectName(key: string): string { PREFIX + key }

  // ----- Backup ---------------------------------------------------------------------------------

  class BackupManifest {
    var files: seq<string>
    var digests: map<string, string>

    function Contents(): Manifest
      reads this
    {
      Manifest(files, digests)
    }

    constructor ()
      ensures Contents() == Manifest([], map[])
    {
      files, digests := [], map[];
    }

    method RecordFile(name: string, data: string, digest: string -> string)
      modifies this
      ensures Contents() == Recorded(old(Contents()), Member(name, data), digest)
    {
      files := files + [name];
      digests := digests[name := digest(data)];
    }
  }

  function Recorded(m: Manifest, f: Member, digest: string -> string): Manifest {
    Manifest(m.files + [f.name], m.digests[f.name := digest(f.data)])
  }

  /** The manifest of these members. */
  function ManifestOf(ms: seq<Member>, digest: string -> string): Manifest {
    if ms == [] then Manifest([], map[])
    else Recorded(ManifestOf(ms[..|ms| - 1], digest), ms[|ms| - 1], digest)
  }

  /** The tar writer. */
  class Archive {
    var members: seq<Member>

    constructor ()
      ensures members == []
    {
      members := [];
    }

    method Add(name: string, data: string)
      modifies this
      ensures members == old(members) + [Member(name, data)]
    {
      members := members + [Member(name, data)];
    }
  }

  /** Every key of the bucket once, in the order the store lists them. */
  ghost predicate Listing(bucket: Bucket, keys: seq<string>) {
    && (forall i :: 0 <= i < |keys| ==> keys[i] in bucket)
    && (forall k :: k in bucket ==> k in keys)
    && (forall i, j :: 0 <= i < j < |keys| ==> keys[i] != keys[j])
  }

  function Objects(bucket: Bucket, keys: seq<string>): seq<Member>
    requires forall i :: 0 <= i < |keys| ==> keys[i] in bucket
  {
    seq(|keys|, i requires 0 <= i < |keys| => Member(ObjectName(keys[i]), bucket[keys[i]]))
  }

  /** The archive: the dump, the objects, and last the manifest of them. */
  function ArchiveOf(dump: string, objects: seq<Member>, c: Codec): seq<Member> {
    var files := [Member(DUMP, dump)] + objects;
    files + [Member(MANIFEST, c.encode(ManifestOf(files, c.digest)))]
  }

  method BackupObject(key: string, data: string, c: Codec, tw: Archive, manifest: BackupManifest)
    requires manifest.Contents() == ManifestOf(tw.members, c.digest)
    modifies tw, manifest
    ensures manifest.Contents() == ManifestOf(tw.members, c.digest)
    ensures tw.members == old(tw.members) + [Member(ObjectName(key), data)]
  {
    tw.Add(ObjectName(key), data);
    manifest.RecordFile(ObjectName(key), data, c.digest);
    assert tw.members[..|old(tw.members)|] == old(tw.members);
  }

  lemma ListingStep(bucket: Bucket, pending: set<string>, keys: seq<string>, key: string, before: seq<Member>)
    requires pending <= bucket.Keys && key in pending && Listing(bucket - pending, keys)
    ensures Listing(bucket - (pending - {key}), keys + [key])
    ensures before + Objects(bucket, keys) + [Member(ObjectName(key), bucket[key])]
            == before + Objects(bucket, keys + [key])
  {
    assert (bucket - (pending - {key})).Keys == (bucket - pending).Keys + {key};
    assert Objects(bucket, keys + [key]) == Objects(bucket, keys) + [Member(ObjectName(key), bucket[key])];
  }

  /** Copies the bucket; stops at the first object that cannot be read. */
  method BackupObjectStorage(bucket: Bucket, unreadable: set<string>, c: Codec, tw: Archive, manifest: BackupManifest)
    returns (ok: bool, ghost keys: seq<string>)
    requires manifest.Contents() == ManifestOf(tw.members, c.digest)
    modifies tw, manifest
    ensures ok <==> bucket.Keys !! unreadable
    ensures manifest.Contents() == ManifestOf(tw.members, c.digest)
    ensures ok ==> Listing(bucket, keys) && tw.members == old(tw.members) + Objects(bucket, keys)
  {
    keys := [];
    var pending := bucket.Keys;
    while pending != {}
      invariant pending <= bucket.Keys && bucket.Keys - pending !! unreadable
      invariant Listing(bucket - pending, keys) && tw.members == old(tw.members) + Objects(bucket, keys)
      invariant manifest.Contents() == ManifestOf(tw.members, c.digest)
      decreases |pending|
    {
      var key :| key in pending;
      if key in unreadable {
        return false, keys;
      }
      ListingStep(bucket, pending, keys, key, old(tw.members));
      BackupObject(key, bucket[key], c, tw, manifest);
      keys := keys + [key];
      pending := pending - {key};
    }
    assert bucket - {} == bucket;
    ok := true;
  }

  /** `storage` is whether object storage is configured. */
  method RunBackup(dump: string, storage: bool, bucket: Bucket, unreadable: set<string>, c: Codec)
    returns (archive: Option<seq<Member>>, ghost keys: seq<string>)
    ensures archive.Some? <==> !storage || bucket.Keys !! unreadable
    ensures archive.Some? && storage ==>
              Listing(bucket, keys) && archive.value == ArchiveOf(dump, Objects(bucket, keys), c)
    ensures archive.Some? && !storage ==> archive.value == ArchiveOf(dump, [], c)
  {
    var tw := new Archive();
    var manifest := new BackupManifest();
    keys := [];
    tw.Add(DUMP, dump);
    manifest.RecordFile(DUMP, dump, c.digest);
    assert [Member(DUMP, dump)][..0] == [];
    assert tw.members == [Member(DUMP, dump)];
    if storage {
      var ok;
      ok, keys := BackupObjectStorage(bucket, unreadable, c, tw, manifest);
      if !ok {
        return None, keys;
      }
    }
    assert !storage ==> tw.members == [Member(DUMP, dump)] + [];
    assert manifest.Contents() == ManifestOf(tw.members, c.digest);
    tw.Add(MANIFEST, c.encode(manifest.Contents()));
    archive := Some(tw.members);
  }

  // ----- Restore ----------------------------------------------------------------------------------

  /** The archive as a map; of members with one name the last counts. */
  function EntriesOf(ms: seq<Member>): Entries {
    if ms == [] then map[] else EntriesOf(ms[..|ms| - 1])[ms[|ms| - 1].name := ms[|ms| - 1].data]
  }

  method ReadArchive(ms: seq<Member>) returns (entries: Entries)
    ensures entries == EntriesOf(ms)
  {
    entries := map[];
    for i := 0 to |ms|
      invariant entries == EntriesOf(ms[..i])
    {
      assert ms[..i + 1][..i] == ms[..i];
      entries := entries[ms[i].name := ms[i].data];
    }
    assert ms[..|ms|] == ms;
  }

  /** What is wrong with a listed file, if anything.  A manifest with no digests at all is an old one,
      and only presence is asked for. */
  datatype Defect = Fine | Missing | DigestStripped | DigestDiffers

  function DefectOf(f: string, m: Manifest, entries: Entries, digest: string -> string): Defect {
    if f !in entries then Missing
    else if m.digests == map[] then Fine
    else if f !in m.digests then DigestStripped
    else if digest(entries[f]) != m.digests[f] then DigestDiffers
    else Fine
  }

  ghost predicate Verified(m: Manifest, entries: Entries, digest: string -> string) {
    forall f :: f in m.files ==> DefectOf(f, m, entries, digest).Fine?
  }

  /** The first defect in manifest order. */
  method VerifyManifestedFiles(m: Manifest, entries: Entries, digest: string -> string) returns (d: Defect,
                               file: string)
    ensures d.Fine? <==> Verified(m, entries, digest)
    ensures !d.Fine? ==> file in m.files && d == DefectOf(file, m, entries, digest)
  {
    for i := 0 to |m.files|
      invariant forall j :: 0 <= j < i ==> DefectOf(m.files[j], m, entries, digest).Fine?
    {
      d, file := DefectOf(m.files[i], m, entries, digest), m.files[i];
      if !d.Fine? {
        return;
      }
    }
    return Fine, "";
  }

  datatype Validation = Valid(manifest: Manifest) | NoManifest | BadManifest | Refused(defect: Defect, file: string)

  method ValidateManifest(entries: Entries, c: Codec) returns (v: Validation)
    ensures v.Valid? <==> MANIFEST in entries && c.decode(entries[MANIFEST]).Some?
                          && Verified(c.decode(entries[MANIFEST]).value, entries, c.digest)
    ensures v.Valid? ==> Some(v.manifest) == c.decode(entries[MANIFEST])
    ensures v.NoManifest? <==> MANIFEST !in entries
    ensures v.BadManifest? <==> MANIFEST in entries && c.decode(entries[MANIFEST]).None?
    ensures v.Refused? ==>
              && !v.defect.Fine? && v.file in c.decode(entries[MANIFEST]).value.files
              && v.defect == DefectOf(v.file, c.decode(entries[MANIFEST]).value, entries, c.digest)
  {
    if MANIFEST !in entries {
      return NoManifest;
    }
    var decoded := c.decode(entries[MANIFEST]);
    if decoded.None? {
      return BadManifest;
    }
    var d, file := VerifyManifestedFiles(decoded.value, entries, c.digest);
    return if d.Fine? then Valid(decoded.value) else Refused(d, file);
  }

  function StripStoragePrefix(path: string): string {
    if |path| > |PREFIX| && path[..|PREFIX|] == PREFIX then path[|PREFIX|..] else path
  }

  predicate IsObject(entries: Entries, name: string) { name in entries && PREFIX <= name }

  /** Some object of these entries is restored under the key. */
  ghost predicate Fed(entries: Entries, key: string) {
    exists name :: IsObject(entries, name) && StripStoragePrefix(name) == key
  }

  /** The bucket after the objects among these entries have been put, in any order: a key that is fed
      holds one of the objects fed to it, any other is untouched. */
  ghost predicate Uploaded(entries: Entries, before: Bucket, after: Bucket) {
    forall key :: KeyUploaded(entries, before, after, key)
  }

  ghost predicate KeyUploaded(entries: Entries, before: Bucket, after: Bucket, key: string) {
    if Fed(entries, key) then key in after && HoldsFed(entries, key, after[key])
    else (key in after <==> key in before) && (key in before ==> after[key] == before[key])
  }

  /** One of the objects restored under the key has this content. */
  ghost predicate HoldsFed(entries: Entries, key: string, data: string) {
    exists name :: IsObject(entries, name) && StripStoragePrefix(name) == key && data == entries[name]
  }

  lemma StillHolds(entries: Entries, name: string, data: string, key: string, held: string)
    requires name !in entries && HoldsFed(entries, key, held)
    ensures HoldsFed(entries[name := data], key, held)
  {
    var n :| IsObject(entries, n) && StripStoragePrefix(n) == key && held == entries[n];
    assert IsObject(entries[name := data], n);
  }

  lemma SameFed(entries: Entries, name: string, data: string, key: string)
    requires name !in entries && !(PREFIX <= name && StripStoragePrefix(name) == key)
    ensures Fed(entries[name := data], key) <==> Fed(entries, key)
  {
    var entries' := entries[name := data];
    if n :| IsObject(entries, n) && StripStoragePrefix(n) == key { assert IsObject(entries', n); }
    if n :| IsObject(entries', n) && StripStoragePrefix(n) == key { assert IsObject(entries, n); }
  }

  /** An entry that does not feed a key changes nothing about it. */
  lemma KeyUnfed(entries: Entries, name: string, data: string, before: Bucket, after: Bucket, key: string)
    requires name !in entries && !(PREFIX <= name && StripStoragePrefix(name) == key)
    requires KeyUploaded(entries, before, after, key)
    ensures KeyUploaded(entries[name := data], before, after, key)
  {
    SameFed(entries, name, data, key);
    if Fed(entries, key) { StillHolds(entries, name, data, key, after[key]); }
  }

  lemma OneMoreUploaded(entries: Entries, name: string, data: string, before: Bucket, after: Bucket)
    requires name !in entries && PREFIX <= name && Uploaded(entries, before, after)
    ensures Uploaded(entries[name := data], before, after[StripStoragePrefix(name) := data])
  {
    var entries', key0 := entries[name := data], StripStoragePrefix(name);
    var after' := after[key0 := data];
    forall key ensures KeyUploaded(entries', before, after', key) {
      if key == key0 {
        assert IsObject(entries', name) && HoldsFed(entries', key, data);
      } else {
        assert KeyUploaded(entries, before, after, key);
        KeyUnfed(entries, name, data, before, after', key);
      }
    }
  }

  lemma OneMoreSkipped(entries: Entries, name: string, data: string, before: Bucket, after: Bucket)
    requires name !in entries && !(PREFIX <= name) && Uploaded(entries, before, after)
    ensures Uploaded(entries[name := data], before, after)
  {
    var entries' := entries[name := data];
    forall key ensures KeyUploaded(entries', before, after, key) {
      assert KeyUploaded(entries, before, after, key);
      KeyUnfed(entries, name, data, before, after, key);
    }
  }

  class ObjectStore {
    var bucket: Bucket

    constructor (bucket: Bucket)
      ensures this.bucket == bucket
    {
      this.bucket := bucket;
    }

    /** Overwrites. */
    method PutObject(key: string, data: string, fails: bool) returns (ok: bool)
      modifies this
      ensures ok == !fails && bucket == if ok then old(bucket)[key := data] else old(bucket)
    {
      if fails {
        return false;
      }
      bucket := bucket[key := data];
      return true;
    }
  }

  /** Puts one entry back, if it is an object. */
  method RestoreEntry(ghost done: Entries, name: string, data: string, ghost before: Bucket, store: ObjectStore,
                      failing: set<string>)
    returns (ok: bool)
    requires name !in done && Uploaded(done, before, store.bucket)
    modifies store
    ensures ok <==> !(PREFIX <= name && StripStoragePrefix(name) in failing)
    ensures Uploaded(if ok then done[name := data] else done, before, store.bucket)
  {
    if !(PREFIX <= name) {
      OneMoreSkipped(done, name, data, before, store.bucket);
      return true;
    }
    var key := StripStoragePrefix(name);
    OneMoreUploaded(done, name, data, before, store.bucket);
    ok := store.PutObject(key, data, key in failing);
  }

  /** Puts every object back, in whatever order the map is walked.  When a put fails, exactly the
      entries walked before it are in the bucket. */
  method RestoreObjectStorage(entries: Entries, store: ObjectStore, failing: set<string>)
    returns (ok: bool, ghost done: Entries)
    modifies store
    ensures ok <==> forall name :: IsObject(entries, name) ==> StripStoragePrefix(name) !in failing
    ensures done.Keys <= entries.Keys && forall name :: name in done ==> done[name] == entries[name]
    ensures ok ==> done == entries
    ensures Uploaded(done, old(store.bucket), store.bucket)
  {
    ok, done := true, map[];
    var pending := entries.Keys;
    assert forall key :: !Fed(done, key);
    while pending != {}
      invariant ok && pending <= entries.Keys && done == entries - pending
      invariant Uploaded(done, old(store.bucket), store.bucket)
      invariant forall name :: name in done && PREFIX <= name ==> StripStoragePrefix(name) !in failing
      decreases |pending|
    {
      var name :| name in pending;
      ok := RestoreEntry(done, name, entries[name], old(store.bucket), store, failing);
      if !ok {
        assert IsObject(entries, name);
        return;
      }
      done := done[name := entries[name]];
      pending := pending - {name};
      assert done == entries - pending;
    }
    assert entries - {} == entries;
  }

  /** The server a dump is replayed into. */
  class DatabaseServer {
    var restored: Option<string>

    constructor ()
      ensures restored == None
    {
      restored := None;
    }

    method Replay(dump: string, fails: bool) returns (ok: bool)
      modifies this
      ensures ok == !fails && (ok ==> restored == Some(dump))
    {
      if fails {
        restored := None;
        return false;
      }
      restored := Some(dump);
      return true;
    }
  }

  datatype Outcome =
    | Restored(files: nat)
    | Invalid(why: Validation)
    | ServerRunning
    | NoDump
    | DatabaseFailed
    | StorageFailed

  /** Whether a run may change anything: the archive is valid, no server is running, and there is a
      dump in it. */
  ghost predicate MayStart(e: Entries, c: Codec, locked: bool) {
    && MANIFEST in e && c.decode(e[MANIFEST]).Some? && Verified(c.decode(e[MANIFEST]).value, e, c.digest)
    && !locked && DUMP in e
  }

  /** Nothing is touched before everything has been checked, and the objects only after the database. */
  method RunRestore(archive: seq<Member>, c: Codec, locked: bool, replayFails: bool, storage: bool,
                    failing: set<string>,
                    db: DatabaseServer, store: ObjectStore)
    returns (r: Outcome)
    modifies db, store
    ensures !MayStart(EntriesOf(archive), c, locked) ==>
              (r.Invalid? || r.ServerRunning? || r.NoDump?)
              && db.restored == old(db.restored) && store.bucket == old(store.bucket)
    ensures MayStart(EntriesOf(archive), c, locked) && replayFails ==>
              r.DatabaseFailed? && store.bucket == old(store.bucket)
    ensures MayStart(EntriesOf(archive), c, locked) && !replayFails ==>
              (r.Restored? || r.StorageFailed?) && db.restored == Some(EntriesOf(archive)[DUMP])
              && (!storage ==> r.Restored? && store.bucket == old(store.bucket))
    ensures r.Restored? && storage ==> Uploaded(EntriesOf(archive), old(store.bucket), store.bucket)
  {
    var entries := ReadArchive(archive);
    var v := ValidateManifest(entries, c);
    if !v.Valid? {
      return Invalid(v);
    }
    if locked {
      return ServerRunning;
    }
    if DUMP !in entries {
      return NoDump;
    }
    var replayed := db.Replay(entries[DUMP], replayFails);
    if !replayed {
      return DatabaseFailed;
    }
    if storage {
      var ok;
      ghost var done;
      ok, done := RestoreObjectStorage(entries, store, failing);
      if !ok {
        return StorageFailed;
      }
    }
    r := Restored(|v.manifest.files|);
  }

  // ----- Restore undoes backup ---------------------------------------------------------------------

  ghost predicate DistinctNames(ms: seq<Member>) { forall i, j :: 0 <= i < j < |ms| ==> ms[i].name != ms[j].name }

  /** Reading the archive back gives every member its bytes. */
  lemma {:induction false} EntriesAreMembers(ms: seq<Member>)
    requires DistinctNames(ms)
    ensures forall i :: 0 <= i < |ms| ==> ms[i].name in EntriesOf(ms) && EntriesOf(ms)[ms[i].name] == ms[i].data
    ensures forall name :: name in EntriesOf(ms) ==> exists i :: 0 <= i < |ms| && ms[i].name == name
  {
    if ms != [] {
      var n := |ms| - 1;
      EntriesAreMembers(ms[..n]);
      forall name | name in EntriesOf(ms) ensures exists i :: 0 <= i < |ms| && ms[i].name == name {
        if name == ms[n].name {
          assert ms[n].name == name;
        } else {
          var i :| 0 <= i < |ms[..n]| && ms[..n][i].name == name;
          assert ms[i].name == name;
        }
      }
    }
  }

  lemma {:induction false} ManifestListsMembers(ms: seq<Member>, digest: string -> string)
    requires DistinctNames(ms)
    ensures var m := ManifestOf(ms, digest);
      && |m.files| == |ms| && (forall i :: 0 <= i < |ms| ==> m.files[i] == ms[i].name)
      && (forall i :: 0 <= i < |ms| ==> ms[i].name in m.digests && m.digests[ms[i].name] == digest(ms[i].data))
  {
    if ms != [] { ManifestListsMembers(ms[..|ms| - 1], digest); }
  }

  lemma ObjectNames(key: string)
    ensures PREFIX <= ObjectName(key) && ObjectName(key) != DUMP && ObjectName(key) != MANIFEST
    ensures StripStoragePrefix(ObjectName(key)) == if key == "" then PREFIX else key
  {
    assert ObjectName(key)[..|PREFIX|] == PREFIX && ObjectName(key)[|PREFIX|..] == key;
    assert key == "" ==> ObjectName(key) == PREFIX;
    assert ObjectName(key)[0] == 's' && DUMP[0] == 'd' && MANIFEST[0] == 'm';
  }

  lemma ObjectNameTells(k: string, l: string)
    requires ObjectName(k) == ObjectName(l)
    ensures k == l
  {
    assert ObjectName(k)[|PREFIX|..] == k && ObjectName(l)[|PREFIX|..] == l;
  }

  lemma ObjectsDiffer(bucket: Bucket, keys: seq<string>)
    requires Listing(bucket, keys)
    ensures var ms := Objects(bucket, keys);
      DistinctNames(ms) && forall i :: 0 <= i < |ms| ==> ms[i].name != DUMP && ms[i].name != MANIFEST
  {
    var ms := Objects(bucket, keys);
    forall i | 0 <= i < |ms| ensures ms[i].name != DUMP && ms[i].name != MANIFEST { ObjectNames(keys[i]); }
    forall i, j | 0 <= i < j < |ms| ensures ms[i].name != ms[j].name {
      if ObjectName(keys[i]) == ObjectName(keys[j]) { ObjectNameTells(keys[i], keys[j]); }
    }
  }

  lemma StillDistinct(a: Member, ms: seq<Member>, b: Member)
    requires DistinctNames(ms) && a.name != b.name
    requires forall i :: 0 <= i < |ms| ==> ms[i].name != a.name && ms[i].name != b.name
    ensures DistinctNames([a] + ms) && DistinctNames([a] + ms + [b])
  {
  }

  lemma FilesDiffer(dump: string, bucket: Bucket, keys: seq<string>)
    requires Listing(bucket, keys)
    ensures DistinctNames(Files(dump, bucket, keys))
  {
    ObjectsDiffer(bucket, keys);
  }

  /** No object collides with another, with the dump or with the manifest. */
  lemma ArchiveNamesDiffer(dump: string, bucket: Bucket, keys: seq<string>, c: Codec)
    requires Listing(bucket, keys)
    ensures DistinctNames(ArchiveOf(dump, Objects(bucket, keys), c))
  {
    ObjectsDiffer(bucket, keys);
    assert DUMP[0] != MANIFEST[0];
    var files := [Member(DUMP, dump)] + Objects(bucket, keys);
    StillDistinct(Member(DUMP, dump), Objects(bucket, keys), Member(MANIFEST, c.encode(ManifestOf(files, c.digest))));
  }

  /** These entries hold the dump and exactly the bucket's objects. */
  ghost predicate HoldsBackup(e: Entries, dump: string, bucket: Bucket) {
    && DUMP in e && e[DUMP] == dump
    && (forall key :: key in bucket ==> ObjectName(key) in e && e[ObjectName(key)] == bucket[key])
    && (forall name :: IsObject(e, name) ==> exists key :: key in bucket && name == ObjectName(key))
  }

  lemma {:induction false} MemberIsEntry(ms: seq<Member>, i: nat)
    requires DistinctNames(ms) && i < |ms|
    ensures ms[i].name in EntriesOf(ms) && EntriesOf(ms)[ms[i].name] == ms[i].data
  {
    EntriesAreMembers(ms);
  }

  lemma ArchiveHoldsObjects(dump: string, bucket: Bucket, keys: seq<string>, c: Codec, i: nat)
    requires Listing(bucket, keys) && i < |keys|
    ensures var e := EntriesOf(ArchiveOf(dump, Objects(bucket, keys), c));
            ObjectName(keys[i]) in e && e[ObjectName(keys[i])] == bucket[keys[i]]
  {
    var ms := ArchiveOf(dump, Objects(bucket, keys), c);
    ArchiveNamesDiffer(dump, bucket, keys, c);
    assert ms[i + 1] == Objects(bucket, keys)[i];
    MemberIsEntry(ms, i + 1);
  }

  lemma ObjectsComeFromBucket(dump: string, bucket: Bucket, keys: seq<string>, c: Codec, name: string)
    requires Listing(bucket, keys) && IsObject(EntriesOf(ArchiveOf(dump, Objects(bucket, keys), c)), name)
    ensures exists key :: key in bucket && name == ObjectName(key)
  {
    var ms := ArchiveOf(dump, Objects(bucket, keys), c);
    ArchiveNamesDiffer(dump, bucket, keys, c);
    EntriesAreMembers(ms);
    var i :| 0 <= i < |ms| && ms[i].name == name;
    assert DUMP[0] != PREFIX[0] && MANIFEST[0] != PREFIX[0];
    assert 0 < i < |ms| - 1;
    assert ms[i] == Objects(bucket, keys)[i - 1] && keys[i - 1] in bucket;
  }

  lemma ArchiveHoldsBackup(dump: string, bucket: Bucket, keys: seq<string>, c: Codec)
    requires Listing(bucket, keys)
    ensures HoldsBackup(EntriesOf(ArchiveOf(dump, Objects(bucket, keys), c)), dump, bucket)
  {
    var ms := ArchiveOf(dump, Objects(bucket, keys), c);
    ArchiveNamesDiffer(dump, bucket, keys, c);
    EntriesAreMembers(ms);
    assert ms[0] == Member(DUMP, dump);
    forall key | key in bucket
      ensures ObjectName(key) in EntriesOf(ms) && EntriesOf(ms)[ObjectName(key)] == bucket[key]
    {
      var i :| 0 <= i < |keys| && keys[i] == key;
      ArchiveHoldsObjects(dump, bucket, keys, c, i);
    }
    forall name | IsObject(EntriesOf(ms), name) ensures exists key :: key in bucket && name == ObjectName(key) {
      ObjectsComeFromBucket(dump, bucket, keys, c, name);
    }
  }

  lemma ArchiveHoldsManifest(dump: string, bucket: Bucket, keys: seq<string>, c: Codec)
    requires Listing(bucket, keys) && Faithful(c)
    ensures var e := EntriesOf(ArchiveOf(dump, Objects(bucket, keys), c));
      MANIFEST in e && c.decode(e[MANIFEST]) == Some(ManifestOf(Files(dump, bucket, keys), c.digest))
  {
    var files := Files(dump, bucket, keys);
    var ms := ArchiveOf(dump, Objects(bucket, keys), c);
    ArchiveNamesDiffer(dump, bucket, keys, c);
    EntriesAreMembers(ms);
    assert ms[|files|] == Member(MANIFEST, c.encode(ManifestOf(files, c.digest)));
  }

  ghost predicate Intact(f: Member, e: Entries, digest: string -> string) {
    f.name in e && digest(e[f.name]) == digest(f.data)
  }

  function Files(dump: string, bucket: Bucket, keys: seq<string>): seq<Member>
    requires forall i :: 0 <= i < |keys| ==> keys[i] in bucket
  {
    [Member(DUMP, dump)] + Objects(bucket, keys)
  }

  /** The dump and every object are there with unchanged digests. */
  ghost predicate SameDigests(dump: string, bucket: Bucket, e: Entries, digest: string -> string) {
    && Intact(Member(DUMP, dump), e, digest)
    && forall key :: key in bucket ==> Intact(Member(ObjectName(key), bucket[key]), e, digest)
  }

  lemma IntactFiles(dump: string, bucket: Bucket, keys: seq<string>, e: Entries, digest: string -> string)
    requires Listing(bucket, keys)
    requires forall i :: 0 <= i < |keys| + 1 ==> Intact(Files(dump, bucket, keys)[i], e, digest)
    ensures SameDigests(dump, bucket, e, digest)
  {
    var files := Files(dump, bucket, keys);
    assert Intact(files[0], e, digest);
    forall key | key in bucket ensures Intact(Member(ObjectName(key), bucket[key]), e, digest) {
      var i :| 0 <= i < |keys| && keys[i] == key;
      assert files[i + 1] == Objects(bucket, keys)[i] == Member(ObjectName(key), bucket[key]);
      assert Intact(files[i + 1], e, digest);
    }
  }

  lemma IntactObjects(dump: string, bucket: Bucket, keys: seq<string>, e: Entries, digest: string -> string, i: nat)
    requires Listing(bucket, keys) && SameDigests(dump, bucket, e, digest) && i < |keys| + 1
    ensures Intact(Files(dump, bucket, keys)[i], e, digest)
  {
    if i > 0 {
      assert Files(dump, bucket, keys)[i] == Objects(bucket, keys)[i - 1];
      assert keys[i - 1] in bucket;
    }
  }

  /** What verification comes to when the manifest is a backup's: every file it was made of is there
      with an unchanged digest. */
  lemma VerifiedMeans(dump: string, bucket: Bucket, keys: seq<string>, e: Entries, digest: string -> string)
    requires Listing(bucket, keys)
    ensures Verified(ManifestOf(Files(dump, bucket, keys), digest), e, digest) <==> SameDigests(dump, bucket, e, digest)
  {
    var files := Files(dump, bucket, keys);
    FilesDiffer(dump, bucket, keys);
    DefectsOfMembers(files, ManifestOf(files, digest), e, digest);
    if forall i :: 0 <= i < |files| ==> Intact(files[i], e, digest) {
      IntactFiles(dump, bucket, keys, e, digest);
    }
    if SameDigests(dump, bucket, e, digest) {
      forall i | 0 <= i < |files| ensures Intact(files[i], e, digest) {
        IntactObjects(dump, bucket, keys, e, digest, i);
      }
    }
  }

  lemma {:induction false} DefectsOfMembers(files: seq<Member>, m: Manifest, e: Entries, digest: string -> string)
    requires files != [] && DistinctNames(files) && m == ManifestOf(files, digest)
    ensures Verified(m, e, digest) <==> forall i :: 0 <= i < |files| ==> Intact(files[i], e, digest)
  {
    ManifestListsMembers(files, digest);
    if Verified(m, e, digest) {
      forall i | 0 <= i < |files| ensures Intact(files[i], e, digest) {
        assert m.files[i] == files[i].name;
        assert DefectOf(m.files[i], m, e, digest).Fine?;
      }
    }
    if forall i :: 0 <= i < |files| ==> Intact(files[i], e, digest) {
      forall f | f in m.files ensures DefectOf(f, m, e, digest).Fine? {
        var i :| 0 <= i < |m.files| && m.files[i] == f;
        assert Intact(files[i], e, digest);
      }
    }
  }

  lemma HeldIsIntact(e: Entries, dump: string, bucket: Bucket, digest: string -> string)
    requires HoldsBackup(e, dump, bucket)
    ensures SameDigests(dump, bucket, e, digest)
  {
  }

  /** An archive read back passes its own verification, with its dump and exactly its objects in it. */
  lemma BackupVerifies(dump: string, bucket: Bucket, keys: seq<string>, c: Codec)
    requires Listing(bucket, keys) && Faithful(c)
    ensures var e := EntriesOf(ArchiveOf(dump, Objects(bucket, keys), c));
      && MANIFEST in e && c.decode(e[MANIFEST]).Some? && Verified(c.decode(e[MANIFEST]).value, e, c.digest)
      && HoldsBackup(e, dump, bucket)
  {
    ArchiveHoldsBackup(dump, bucket, keys, c);
    HeldIsIntact(EntriesOf(ArchiveOf(dump, Objects(bucket, keys), c)), dump, bucket, c.digest);
    ArchiveHoldsManifest(dump, bucket, keys, c);
    VerifiedMeans(dump, bucket, keys, EntriesOf(ArchiveOf(dump, Objects(bucket, keys), c)), c.digest);
  }

  lemma FedFromBucket(e: Entries, dump: string, bucket: Bucket, key: string)
    requires HoldsBackup(e, dump, bucket) && "" !in bucket
    ensures Fed(e, key) <==> key in bucket
    ensures forall name :: IsObject(e, name) && StripStoragePrefix(name) == key
              ==> key in bucket && e[name] == bucket[key]
  {
    forall name | IsObject(e, name) && StripStoragePrefix(name) == key ensures key in bucket && e[name] == bucket[key] {
      var k :| k in bucket && name == ObjectName(k);
      ObjectNames(k);
    }
    if key in bucket {
      ObjectNames(key);
      assert IsObject(e, ObjectName(key));
    }
  }

  /** Restoring a backup puts every backed-up object over what is there and touches nothing else. */
  lemma RestoreOverwrites(e: Entries, dump: string, bucket: Bucket, before: Bucket, after: Bucket)
    requires HoldsBackup(e, dump, bucket) && "" !in bucket && Uploaded(e, before, after)
    ensures after == before + bucket
  {
    forall key
      ensures key in after <==> key in before + bucket
      ensures key in after ==> after[key] == (before + bucket)[key]
    {
      assert KeyUploaded(e, before, after, key);
      FedFromBucket(e, dump, bucket, key);
    }
  }

  /** The empty key would come back as "storage/". */
  lemma EmptyKeyIsLost(e: Entries, before: Bucket, after: Bucket)
    requires Uploaded(e, before, after) && "" !in before
    ensures "" !in after
  {
    assert KeyUploaded(e, before, after, "") && !Fed(e, "");
  }

  lemma ExactlyRebuilt(e: Entries, dump: string, bucket: Bucket, after: Bucket)
    requires HoldsBackup(e, dump, bucket) && Uploaded(e, map[], after)
    ensures after == bucket <==> "" !in bucket
  {
    EmptyKeyIsLost(e, map[], after);
    if "" !in bucket {
      RestoreOverwrites(e, dump, bucket, map[], after);
      assert map[] + bucket == bucket;
    }
  }

  /** Restoring into an empty bucket rebuilds the bucket, in whatever order the entries are walked,
      exactly when no object has the empty key. */
  lemma RestoreUndoesBackup(dump: string, bucket: Bucket, keys: seq<string>, c: Codec, after: Bucket)
    requires Listing(bucket, keys)
    requires Uploaded(EntriesOf(ArchiveOf(dump, Objects(bucket, keys), c)), map[], after)
    ensures after == bucket <==> "" !in bucket
  {
    ArchiveHoldsBackup(dump, bucket, keys, c);
    ExactlyRebuilt(EntriesOf(ArchiveOf(dump, Objects(bucket, keys), c)), dump, bucket, after);
  }

  // ----- What restore refuses ------------------------------------------------------------------------

  /** An altered archive that still carries the backup's manifest is accepted exactly when every
      listed file is there with its digest unchanged. */
  lemma AlteredArchive(dump: string, bucket: Bucket, keys: seq<string>, c: Codec, altered: Entries)
    requires Listing(bucket, keys) && Faithful(c)
    requires var e := EntriesOf(ArchiveOf(dump, Objects(bucket, keys), c));
             MANIFEST in e && MANIFEST in altered && altered[MANIFEST] == e[MANIFEST]
    ensures c.decode(altered[MANIFEST]).Some? && (
      Verified(c.decode(altered[MANIFEST]).value, altered, c.digest) <==> SameDigests(dump, bucket, altered, c.digest))
  {
    ArchiveHoldsManifest(dump, bucket, keys, c);
    VerifiedMeans(dump, bucket, keys, altered, c.digest);
  }

  /** Dropping one file's digest, while any other is left, is refused. */
  lemma StrippedDigestIsRefused(m: Manifest, f: string, entries: Entries, digest: string -> string)
    requires f in m.files && f !in m.digests && m.digests != map[]
    ensures !Verified(m, entries, digest)
  {
    assert !DefectOf(f, m, entries, digest).Fine?;
  }

  /** A manifest from before digests asks only that its files are there. */
  lemma OldManifestsAskForPresence(m: Manifest, entries: Entries, digest: string -> string)
    requires m.digests == map[]
    ensures Verified(m, entries, digest) <==> forall f :: f in m.files ==> f in entries
  {
    if forall f :: f in m.files ==> f in entries {
      forall f | f in m.files ensures DefectOf(f, m, entries, digest).Fine? {}
    }
    if Verified(m, entries, digest) {
      forall f | f in m.files ensures f in entries { assert DefectOf(f, m, entries, digest).Fine?; }
    }
  }
}
