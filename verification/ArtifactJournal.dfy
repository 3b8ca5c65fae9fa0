/**
 The local artifact store and its per-operation file journal. An operation
 stages new files and deletions, installs them one by one by renaming the
 original into `backup` and the staged file into place, and either commits or
 rolls back. Every durable effect is separated from the next by a point at
 which the process may stop.
 */
module ArtifactJournal {
  import opened Results
  import opened Faults

  type Key = string
  type Id = string
  type Bytes = seq<bv8>

  const MAX_ARTIFACT_SIZE := 16777216
  const PRIVATE_MODE := 384 // 0600
  const PUBLIC_MODE := 420 // 0644

  datatype File = File(content: Bytes, mode: nat)

  /** SHA-256, taken to be injective. */
  datatype Digest = Sha256(content: Bytes)

  datatype OperationState = Prepared | FilesInstalled | Committed | RolledBack

  datatype Entry = Entry(
    write: bool, key: Key, mode: nat, digest: Option<Digest>,
    hadOriginal: bool, originalMode: nat, originalDigest: Option<Digest>,
    backupReady: bool, installed: bool)

  datatype Manifest = Manifest(state: OperationState, entries: seq<Entry>)

  /** What `.operations/<id>` holds. */
  datatype Directory = Directory(manifest: Manifest, staged: map<Key, File>, backup: map<Key, File>)

  predicate SafeMode(mode: nat) {
    mode == PRIVATE_MODE || mode == PUBLIC_MODE
  }

  /** Canonical relative keys; keys are flat names, so no separator occurs in them. */
  predicate ValidKey(key: Key) {
    key != "" && key != "." && key != ".." && key != ".operations"
    && '\0' !in key && '\\' !in key && '/' !in key
  }

  function DigestFile(file: File): Option<Digest> {
    if |file.content| <= MAX_ARTIFACT_SIZE then Some(Sha256(file.content)) else None
  }

  predicate Staged(entries: seq<Entry>, key: Key) {
    exists i :: 0 <= i < |entries| && entries[i].key == key
  }

  // ------------------------------------------------------------------
  // The size of a manifest
  // ------------------------------------------------------------------

  // a saved manifest may have any size, but only this much of it is read back
  const MAX_MANIFEST := 1048576

  /** Bytes a character takes inside a JSON string, where some are escaped. */
  function JsonLength(c: char): (n: nat)
    ensures n > 0
  {
    var code := c as int;
    if c == '"' || c == '\\' || 8 <= code <= 10 || code == 12 || code == 13 then 2
    else if code < 0x20 || c == '<' || c == '>' || c == '&' || code == 0x2028 || code == 0x2029 then 6
    else if code < 0x80 then 1
    else if code < 0x800 then 2
    else if code < 0x10000 then 3
    else 4
  }

  function KeyLength(key: Key): (n: nat)
    ensures n >= |key|
  {
    if key == "" then 0 else KeyLength(key[..|key| - 1]) + JsonLength(key[|key| - 1])
  }

  /**
   Bytes of one encoded entry and the comma after it: the names of its fields, action, mode and
   digest, the key, and the evidence, which is left out until there is an original.
   */
  function EntrySize(e: Entry): (n: nat)
    ensures n > 0
  {
    KeyLength(e.key) + (if e.write then 175 else 110) + (if e.hadOriginal then 104 else 0)
    - (if e.backupReady then 1 else 0) - (if e.installed then 1 else 0)
  }

  function EntriesSize(entries: seq<Entry>): (n: nat)
    ensures n >= |entries|
  {
    if entries == [] then 0 else EntriesSize(entries[..|entries| - 1]) + EntrySize(entries[|entries| - 1])
  }

  /** Version, identifier, state and the braces around the entries. */
  function HeaderSize(state: OperationState): nat {
    match state
    case Prepared => 89
    case FilesInstalled => 96
    case Committed => 90
    case RolledBack => 92
  }

  /** Bytes of the encoded manifest; the last entry has no comma. */
  function ManifestSize(m: Manifest): nat {
    HeaderSize(m.state) + EntriesSize(m.entries) - (if m.entries == [] then 0 else 1)
  }

  predicate WithinLimit(m: Manifest) {
    ManifestSize(m) <= MAX_MANIFEST
  }

  /** The checks `readManifest` makes before a restarted process trusts a manifest. */
  predicate Readable(m: Manifest) {
    && WithinLimit(m)
    && (forall i :: 0 <= i < |m.entries| ==> ReadableEntry(m.entries[i]))
    && Distinct(m.entries)
  }

  predicate ReadableEntry(e: Entry) {
    && ValidKey(e.key)
    && (if e.write then SafeMode(e.mode) && e.digest.Some? else e.mode == 0 && e.digest.None?)
    && (if e.hadOriginal then SafeMode(e.originalMode) && e.originalDigest.Some?
        else e.originalMode == 0 && e.originalDigest.None? && !e.backupReady)
  }

  predicate Distinct(entries: seq<Entry>) {
    forall i, j :: 0 <= i < j < |entries| ==> entries[i].key != entries[j].key
  }

  // ------------------------------------------------------------------
  // What a recoverable operation looks like, one key at a time
  // ------------------------------------------------------------------

  /** The change an operation intends for a key: write this file, or delete. */
  type Plan = map<Key, Option<File>>

  /** The three places a key can have a file during an operation. */
  datatype Slot = Slot(target: Option<File>, backup: Option<File>, staged: Option<File>)

  function SlotOf(targets: map<Key, File>, dir: Directory, key: Key): Slot {
    Slot(Lookup(targets, key), Lookup(dir.backup, key), Lookup(dir.staged, key))
  }

  /** The manifest entry is about this change. */
  predicate Describes(e: Entry, change: Option<File>) {
    && ValidKey(e.key)
    && e.write == change.Some?
    && (change.Some? ==> SafeMode(change.value.mode) && e.mode == change.value.mode
                         && DigestFile(change.value).Some? && e.digest == DigestFile(change.value))
    && (change.None? ==> e.mode == 0 && e.digest.None?)
  }

  /** The entry's evidence about the original file is true of the original. */
  predicate Evidence(e: Entry, original: Option<File>) {
    if e.hadOriginal then
      && original.Some? && SafeMode(original.value.mode) && DigestFile(original.value).Some?
      && e.originalMode == original.value.mode && e.originalDigest == DigestFile(original.value)
    else
      e.originalMode == 0 && e.originalDigest.None? && !e.backupReady
  }

  /** No step of an installation or of a rollback leaves a key outside this set of shapes. */
  predicate Recoverable(e: Entry, original: Option<File>, change: Option<File>, s: Slot) {
    && (s.backup.Some? ==> s.backup == original && e.hadOriginal && (s.target.None? || s.target == change))
    && (s.backup.None? && original.Some? ==> s.target == original)
    && (s.backup.None? && original.None? ==> s.target.None? || (s.target == change && s.staged.None?))
    && (s.staged.Some? ==> s.staged == change)
    && (original.Some? && !e.hadOriginal ==> s.backup.None? && !e.installed && s.staged == change)
  }

  predicate SlotOk(e: Entry, original: Option<File>, change: Option<File>, s: Slot) {
    Describes(e, change) && Evidence(e, original) && Recoverable(e, original, change, s)
  }

  predicate Restored(original: Option<File>, s: Slot) {
    s.target == original && s.backup.None?
  }

  predicate Installed(original: Option<File>, change: Option<File>, s: Slot) {
    s.target == change && s.backup == original
  }

  datatype RollbackStep = Keep | Restore | Discard | Refuse

  /** The decision `Rollback` takes for one entry from what it finds on disk. */
  function RollbackDecision(e: Entry, s: Slot): RollbackStep {
    if s.backup.Some? then Restore
    else if e.hadOriginal then
      if s.target.Some? && e.originalDigest.Some? && DigestFile(s.target.value) == e.originalDigest then Keep
        else Refuse
    else if e.write && (e.installed || s.staged.None?) then
      if s.target.Some? && (DigestFile(s.target.value).None? || DigestFile(s.target.value) != e.digest) then Refuse
        else Discard
    else Keep
  }

  function AfterRollback(e: Entry, s: Slot): Slot {
    match RollbackDecision(e, s)
    case Keep => s
    case Restore => s.(target := s.backup, backup := None)
    case Discard => s.(target := None)
    case Refuse => s
  }

  /** Rolling back a recoverable key is never refused and brings the original back exactly. */
  lemma RollbackRestores(e: Entry, original: Option<File>, change: Option<File>, s: Slot)
    requires SlotOk(e, original, change, s)
    ensures RollbackDecision(e, s) != Refuse
    ensures Restored(original, AfterRollback(e, s))
    ensures AfterRollback(e, AfterRollback(e, s)) == AfterRollback(e, s)
  {
    if s.target.Some? && s.backup.None? && original.None? {
      assert change.Some?;
    }
  }

  /**
   Both states rollback passes through on a key, the one with the target removed
   and the finished one, are recoverable again, under the entry acted on and under
   any other manifest version describing the same key.
   */
  lemma RollbackStaysRecoverable(e: Entry, d: Entry, original: Option<File>, change: Option<File>, s: Slot)
    requires SlotOk(e, original, change, s) && SlotOk(d, original, change, s)
    ensures SlotOk(d, original, change, AfterRollback(e, s))
    ensures s.backup.Some? ==> SlotOk(d, original, change, s.(target := None))
  {
    RollbackRestores(e, original, change, s);
  }

  /** A key the operation never touched is left alone by rollback. */
  lemma RollbackKeepsUntouched(e: Entry, original: Option<File>, change: Option<File>, s: Slot)
    requires SlotOk(e, original, change, s) && Restored(original, s)
    ensures AfterRollback(e, s) == s
  {
    RollbackRestores(e, original, change, s);
  }

  /** Rollback takes the entry's file for put in place: it says so, or the staged file is gone. */
  predicate Begun(e: Entry, s: Slot) {
    e.write && (e.installed || s.staged.None?)
  }

  predicate SameContent(a: Option<File>, b: Option<File>) {
    a.Some? && b.Some? && a.value.content == b.value.content
  }

  /**
   Why no operation may start over an interrupted one that shares a key. Suppose a later one has
   committed there, a file or a deletion, the same as the old one or different. Then rolling the old
   one back leaves what was committed, or refuses, exactly as follows. In particular it deletes what
   was committed if that is what the old one had already put where there was no file.
   */
  lemma LateRollback(e: Entry, original: Option<File>, change: Option<File>, s: Slot, committed: Option<File>)
    requires SlotOk(e, original, change, s) && (committed.Some? ==> |committed.value.content| <= MAX_ARTIFACT_SIZE)
    ensures var late := s.(target := committed);
            && (AfterRollback(e, late).target == committed <==>
                  if s.backup.Some? then committed == original
                  else e.hadOriginal || !Begun(e, s) || committed.None? || !SameContent(committed, change))
            && (RollbackDecision(e, late) == Refuse <==>
                  s.backup.None? &&
                  if e.hadOriginal then !SameContent(committed, original)
                  else Begun(e, s) && committed.Some? && !SameContent(committed, change))
  {
    DigestsTellApart(committed, original);
    DigestsTellApart(committed, change);
    hide DigestFile;
  }

  /** Where there is a digest, it is the same exactly for the same content. */
  lemma DigestsTellApart(a: Option<File>, b: Option<File>)
    requires a.Some? ==> |a.value.content| <= MAX_ARTIFACT_SIZE
    ensures a.Some? ==> DigestFile(a.value).Some?
    ensures a.Some? && b.Some? ==> (DigestFile(a.value) == DigestFile(b.value) <==> a.value.content == b.value.content)
  {
  }

  /**
   The retry of an operation that was cut after it had put a new file in place, and that no one has
   rolled back: it commits the same file, and the rollback that comes later deletes it.
   */
  lemma RetryIsUndone(key: Key, file: File, noted: bool) returns (e: Entry, s: Slot)
    requires ValidKey(key) && SafeMode(file.mode) && |file.content| <= MAX_ARTIFACT_SIZE
    ensures e.key == key && e.installed == noted && SlotOk(e, None, Some(file), s) && s.target == Some(file)
    ensures var late := s.(target := Some(file));
            RollbackDecision(e, late) == Discard && AfterRollback(e, late).target.None?
  {
    e := Entry(true, key, file.mode, DigestFile(file), false, 0, None, false, noted);
    s := Slot(Some(file), None, None);
  }

  // ------------------------------------------------------------------
  // What a recoverable operation looks like, over a whole manifest
  // ------------------------------------------------------------------

  function KeysOf(entries: seq<Entry>): set<Key> {
    set i | 0 <= i < |entries| :: entries[i].key
  }

  ghost predicate Journaled(entries: seq<Entry>, plan: Plan, base: map<Key, File>,
                            targets: map<Key, File>, dir: Directory)
  {
    && Distinct(entries)
    && (forall i :: 0 <= i < |entries| ==>
          && entries[i].key in plan
          && SlotOk(entries[i], Lookup(base, entries[i].key), plan[entries[i].key],
            SlotOf(targets, dir, entries[i].key)))
    && (forall k :: k in plan && k !in KeysOf(entries) ==> Restored(Lookup(base, k), SlotOf(targets, dir, k)))
  }

  ghost predicate AllRestored(plan: Plan, base: map<Key, File>, targets: map<Key, File>) {
    forall k :: k in plan ==> Lookup(targets, k) == Lookup(base, k)
  }

  ghost predicate AllInstalled(plan: Plan, targets: map<Key, File>) {
    forall k :: k in plan ==> Lookup(targets, k) == plan[k]
  }

  predicate SameKeys(a: seq<Entry>, b: seq<Entry>) {
    |a| == |b| && forall i :: 0 <= i < |a| ==> a[i].key == b[i].key
  }

  /** The two disk states agree on every other key. */
  ghost predicate OnlyKeyChanged(key: Key, t: map<Key, File>, d: Directory, t': map<Key, File>, d': Directory) {
    && t - {key} == t' - {key}
    && d.staged - {key} == d'.staged - {key}
    && d.backup - {key} == d'.backup - {key}
  }

  lemma OtherSlotsKept(key: Key, t: map<Key, File>, d: Directory, t': map<Key, File>, d': Directory, k: Key)
    requires OnlyKeyChanged(key, t, d, t', d') && k != key
    ensures SlotOf(t', d', k) == SlotOf(t, d, k)
  {
    assert k in t <==> k in t - {key};
    assert k in t' <==> k in t' - {key};
    assert k in d.staged <==> k in d.staged - {key};
    assert k in d'.staged <==> k in d'.staged - {key};
    assert k in d.backup <==> k in d.backup - {key};
    assert k in d'.backup <==> k in d'.backup - {key};
    if k in t { assert t[k] == (t - {key})[k] == t'[k]; }
    if k in d.staged { assert d.staged[k] == (d.staged - {key})[k] == d'.staged[k]; }
    if k in d.backup { assert d.backup[k] == (d.backup - {key})[k] == d'.backup[k]; }
  }

  /** A step on one key keeps the journal recoverable if it keeps that key recoverable. */
  lemma Reslot(entries: seq<Entry>, entries': seq<Entry>, key: Key, plan: Plan, base: map<Key, File>,
               t: map<Key, File>, d: Directory, t': map<Key, File>, d': Directory)
    requires Journaled(entries, plan, base, t, d)
    requires SameKeys(entries, entries')
    requires forall i :: 0 <= i < |entries| && entries[i].key != key ==> entries'[i] == entries[i]
    requires OnlyKeyChanged(key, t, d, t', d')
    requires forall i :: 0 <= i < |entries| && entries[i].key == key ==>
                           SlotOk(entries'[i], Lookup(base, key), plan[key], SlotOf(t', d', key))
    requires key in plan && key !in KeysOf(entries) ==> Restored(Lookup(base, key), SlotOf(t', d', key))
    ensures Journaled(entries', plan, base, t', d')
  {
    assert KeysOf(entries') == KeysOf(entries) by {
      forall k | k in KeysOf(entries) ensures k in KeysOf(entries') {
        var i :| 0 <= i < |entries| && entries[i].key == k;
        assert entries'[i].key == k;
      }
    }
    forall i | 0 <= i < |entries'|
      ensures entries'[i].key in plan
      ensures SlotOk(entries'[i], Lookup(base, entries'[i].key), plan[entries'[i].key], SlotOf(t', d', entries'[i].key))
    {
      if entries[i].key != key {
        OtherSlotsKept(key, t, d, t', d', entries[i].key);
      }
    }
    forall k | k in plan && k !in KeysOf(entries')
      ensures Restored(Lookup(base, k), SlotOf(t', d', k))
    {
      if k != key {
        OtherSlotsKept(key, t, d, t', d', k);
      }
    }
  }

  // ------------------------------------------------------------------
  // The store and its operations
  // ------------------------------------------------------------------

  class LocalStore {
    var targets: map<Key, File>
    var dirs: map<Id, Directory>

    constructor ()
      ensures targets == map[] && dirs == map[]
    {
      targets, dirs := map[], map[];
    }

    /** `mkdir` and the first manifest, taken as one durable step. */
    method BeginOperation(id: Id, env: Environment) returns (outcome: Outcome, operation: Operation?)
      modifies this, env
      ensures env.trouble + (if outcome == Failed || outcome == Crashed then 1 else 0) <= old(env.trouble)
      ensures targets == old(targets)
      ensures outcome == Refused <==> id in old(dirs)
      ensures outcome != Done ==> dirs == old(dirs)
      ensures outcome == Done ==>
                && dirs == old(dirs)[id := Directory(Manifest(Prepared, []), map[], map[])]
                && operation != null && fresh(operation) && operation.store == this && operation.id == id
                && operation.base == targets && operation.Pristine() && operation.plan == map[]
    {
      operation := null;
      if id in dirs {
        return Refused, null;
      }
      outcome := env.Step();
      if outcome != Done {
        return;
      }
      dirs := dirs[id := Directory(Manifest(Prepared, []), map[], map[])];
      operation := new Operation(this, id, Manifest(Prepared, []), map[], targets);
    }

    /** Reopens an interrupted operation, exactly if its durable manifest is within the limit. */
    method OpenOperation(id: Id, env: Environment, ghost plan: Plan, ghost base: map<Key, File>)
      returns (outcome: Outcome, operation: Operation?)
      requires id in dirs
      requires Journaled(dirs[id].manifest.entries, plan, base, targets, dirs[id])
      modifies env
      ensures env.trouble + (if outcome == Failed || outcome == Crashed then 1 else 0) <= old(env.trouble)
      ensures outcome == Refused ==> !WithinLimit(dirs[id].manifest)
      ensures outcome == Done ==>
                && WithinLimit(dirs[id].manifest)
                && operation != null && fresh(operation) && operation.store == this && operation.id == id
                && operation.plan == plan && operation.base == base
                && operation.manifest == dirs[id].manifest && operation.Valid()
    {
      operation := null;
      outcome := env.Step();
      if outcome != Done {
        return;
      }
      JournaledIsReadable(dirs[id].manifest, plan, base, targets, dirs[id]);
      if !Readable(dirs[id].manifest) {
        return Refused, null;
      }
      operation := new Operation(this, id, dirs[id].manifest, plan, base);
    }
  }

  lemma JournaledIsReadable(m: Manifest, plan: Plan, base: map<Key, File>, t: map<Key, File>, d: Directory)
    requires Journaled(m.entries, plan, base, t, d)
    ensures Readable(m) <==> WithinLimit(m)
  {
    hide WithinLimit;
    forall i | 0 <= i < |m.entries| ensures ReadableEntry(m.entries[i]) {
      assert SlotOk(m.entries[i], Lookup(base, m.entries[i].key), plan[m.entries[i].key],
             SlotOf(t, d, m.entries[i].key));
    }
  }

  class Operation {
    const store: LocalStore
    const id: Id
    var manifest: Manifest
    // the changes journaled so far, and the target files they start from
    ghost var plan: Plan
    ghost const base: map<Key, File>

    constructor (store: LocalStore, id: Id, manifest: Manifest, ghost plan: Plan, ghost base: map<Key, File>)
      ensures this.store == store && this.id == id && this.manifest == manifest
      ensures this.plan == plan && this.base == base
    {
      this.store, this.id, this.manifest := store, id, manifest;
      this.plan, this.base := plan, base;
    }

    /** Both the in-memory manifest and the durable one describe a recoverable operation. */
    ghost predicate Valid()
      reads this, store
    {
      && id in store.dirs
      && Journaled(manifest.entries, plan, base, store.targets, store.dirs[id])
      && Journaled(store.dirs[id].manifest.entries, plan, base, store.targets, store.dirs[id])
    }

    /** Nothing has been installed and the durable manifest is current. */
    ghost predicate Pristine()
      reads this, store
    {
      && Valid()
      && manifest.state == Prepared
      && store.targets == base
      && store.dirs[id].manifest == manifest
      && store.dirs[id].backup == map[]
      && Fresh(manifest.entries, plan, store.dirs[id])
    }

    ghost function SlotAt(key: Key): Slot
      requires id in store.dirs
      reads this, store
    {
      SlotOf(store.targets, store.dirs[id], key)
    }

    /** Every other operation's directory is as it was. */
    twostate predicate OtherDirsKept()
      reads store
    {
      store.dirs - {id} == old(store.dirs) - {id}
    }

    /** Every other key is where it was in all three places. */
    twostate predicate OtherKeysKept(key: Key)
      requires old(id in store.dirs) && id in store.dirs
      reads this, store
    {
      OnlyKeyChanged(key, old(store.targets), old(store.dirs[id]), store.targets, store.dirs[id])
    }

    /** The target files outside this operation's plan are as they were. */
    twostate predicate OtherTargetsKept()
      reads this, store
    {
      store.targets - plan.Keys == old(store.targets) - plan.Keys
    }

    /** Writes the manifest and syncs its directory; the error may come after the write. */
    method SaveManifest(env: Environment) returns (outcome: Outcome)
      requires Valid()
      modifies store`dirs, env
      ensures outcome != Refused
      ensures env.trouble + (if outcome == Done then 0 else 1) <= old(env.trouble)
      ensures Valid() && OtherDirsKept()
      ensures store.dirs[id].staged == old(store.dirs[id].staged) && store.dirs[id].backup == old(store.dirs[id].backup)
      ensures store.dirs[id].manifest == manifest ||
              (store.dirs[id].manifest == old(store.dirs[id].manifest) && outcome != Done)
    {
      outcome := env.Step();
      if outcome != Done {
        return;
      }
      ghost var d := store.dirs[id];
      store.dirs := store.dirs[id := store.dirs[id].(manifest := manifest)];
      SlotsIgnoreManifest(manifest.entries, plan, base, store.targets, d, store.dirs[id]);
      outcome := env.Step();
    }

    predicate CanJournal(key: Key)
      reads this
    {
      manifest.state == Prepared && ValidKey(key) && !Staged(manifest.entries, key)
    }

    method Stage(key: Key, mode: nat, content: Bytes, env: Environment) returns (outcome: Outcome)
      requires Pristine()
      modifies this, store`dirs, env
      ensures env.trouble + (if outcome == Failed || outcome == Crashed then 1 else 0) <= old(env.trouble)
      ensures Valid() && OtherDirsKept() && manifest.state == Prepared && store.dirs[id].manifest.state == Prepared
      ensures plan == old(plan) || (old(key !in plan) && plan == old(plan)[key := Some(File(content, mode))])
      ensures outcome == Done ==> Pristine() && key in plan && plan == old(plan)[key := Some(File(content, mode))]
      ensures outcome == Done ==> old(CanJournal(key)) && SafeMode(mode) && |content| <= MAX_ARTIFACT_SIZE
      ensures outcome == Refused ==> !(old(CanJournal(key)) && SafeMode(mode) && |content| <= MAX_ARTIFACT_SIZE)
    {
      hide Journaled, ValidKey;
      if manifest.state != Prepared || !SafeMode(mode) || !ValidKey(key) || Staged(manifest.entries, key) {
        return Refused;
      }
      // the bounded copy into the temporary file
      outcome := env.Step();
      if outcome != Done {
        return;
      }
      var file := File(content, mode);
      var digest := DigestFile(file);
      if digest.None? {
        return Refused;
      }
      outcome := env.Step();
      if outcome != Done {
        return;
      }
      StageKeepsJournal(manifest, plan, base, store.dirs[id], key, file);
      store.dirs := store.dirs[id := store.dirs[id].(staged := store.dirs[id].staged[key := file])];
      outcome := env.Step();
      if outcome != Done {
        return;
      }
      var entry := Entry(true, key, mode, digest, false, 0, None, false, false);
      AppendEntry(entry, Some(file));
      outcome := SaveManifest(env);
    }

    /** Journals the deletion of a key; deleting an absent file is allowed. */
    method Remove(key: Key, env: Environment) returns (outcome: Outcome)
      requires Pristine()
      modifies this, store`dirs, env
      ensures env.trouble + (if outcome == Failed || outcome == Crashed then 1 else 0) <= old(env.trouble)
      ensures Valid() && OtherDirsKept() && manifest.state == Prepared && store.dirs[id].manifest.state == Prepared
      ensures plan == old(plan) || (old(key !in plan) && plan == old(plan)[key := None])
      ensures outcome == Done ==> Pristine() && key in plan && plan == old(plan)[key := None]
      ensures outcome == Done ==> old(CanJournal(key)) && (key in store.targets ==> SafeMode(store.targets[key].mode))
      ensures outcome == Refused ==>
              !(old(CanJournal(key)) && (key in store.targets ==> SafeMode(store.targets[key].mode)))
    {
      if manifest.state != Prepared || !ValidKey(key) || Staged(manifest.entries, key) {
        return Refused;
      }
      if key in store.targets && !SafeMode(store.targets[key].mode) {
        return Refused;
      }
      var entry := Entry(false, key, 0, None, false, 0, None, false, false);
      AppendEntry(entry, None);
      outcome := SaveManifest(env);
    }

    /** Appends a fresh entry in memory; the key's target and backup are untouched. */
    method AppendEntry(entry: Entry, ghost change: Option<File>)
      requires Valid() && store.targets == base && store.dirs[id].backup == map[]
      requires plan.Keys == KeysOf(manifest.entries) && store.dirs[id].manifest == manifest
      requires forall i ::
               0 <= i < |manifest.entries| ==> !manifest.entries[i].hadOriginal && !manifest.entries[i].installed
      requires store.dirs[id].staged.Keys <= plan.Keys + {entry.key}
      requires forall k :: k in plan ==> Lookup(store.dirs[id].staged, k) == plan[k]
      requires entry.key !in plan && !entry.hadOriginal && !entry.installed
      requires Describes(entry, change) && Evidence(entry, None)
      requires Lookup(store.dirs[id].staged, entry.key) == change
      modifies this
      ensures manifest == old(manifest).(entries := old(manifest.entries) + [entry])
      ensures plan == old(plan)[entry.key := change]
      ensures Valid() && Fresh(manifest.entries, plan, store.dirs[id])
    {
      AppendKeepsJournal(manifest.entries, entry, plan, change, base, store.dirs[id]);
      manifest := manifest.(entries := manifest.entries + [entry]);
      plan := plan[entry.key := change];
    }

    // ---------------- installation ----------------

    ghost predicate KeyOk(entries: seq<Entry>, key: Key, s: Slot)
      reads this
    {
      forall i :: 0 <= i < |entries| && entries[i].key == key && key in plan ==>
        SlotOk(entries[i], Lookup(base, key), plan[key], s)
    }

    /** Replaces one in-memory entry by one that still describes the key's slot. */
    method Update(index: nat, entry: Entry)
      requires Valid() && index < |manifest.entries| && entry.key == manifest.entries[index].key
      requires SlotOk(entry, Lookup(base, entry.key), plan[entry.key], SlotAt(entry.key))
      modifies this`manifest
      ensures manifest == old(manifest).(entries := old(manifest.entries)[index := entry])
      ensures Valid()
    {
      Reslot(manifest.entries, manifest.entries[index := entry], entry.key, plan, base,
             store.targets, store.dirs[id], store.targets, store.dirs[id]);
      manifest := manifest.(entries := manifest.entries[index := entry]);
    }

    /** One atomic rename or removal on a key, given as the key's slot afterwards. */
    method Move(key: Key, targets: map<Key, File>, dir: Directory)
      requires Valid() && key in plan && dir.manifest == store.dirs[id].manifest
      requires OnlyKeyChanged(key, store.targets, store.dirs[id], targets, dir)
      requires KeyOk(manifest.entries, key, SlotOf(targets, dir, key))
      requires KeyOk(store.dirs[id].manifest.entries, key, SlotOf(targets, dir, key))
      requires key !in KeysOf(store.dirs[id].manifest.entries) ==>
               Restored(Lookup(base, key), SlotOf(targets, dir, key))
      requires key in KeysOf(manifest.entries)
      modifies store
      ensures store.targets == targets && store.dirs == old(store.dirs)[id := dir]
      ensures Valid()
    {
      Reslot(manifest.entries, manifest.entries, key, plan, base, store.targets, store.dirs[id], targets, dir);
      Reslot(dir.manifest.entries, dir.manifest.entries, key, plan, base, store.targets, store.dirs[id], targets, dir);
      store.targets := targets;
      store.dirs := store.dirs[id := dir];
    }

    /** Updates one entry in memory, syncs the directories it speaks about, and saves. */
    method UpdateAndSave(index: nat, entry: Entry, env: Environment) returns (outcome: Outcome)
      requires Valid() && index < |manifest.entries| && entry.key == manifest.entries[index].key
      requires SlotOk(entry, Lookup(base, entry.key), plan[entry.key], SlotAt(entry.key))
      modifies this`manifest, store`dirs, env
      ensures outcome != Refused
      ensures env.trouble + (if outcome == Done then 0 else 1) <= old(env.trouble)
      ensures Valid() && OtherDirsKept()
      ensures manifest == old(manifest).(entries := old(manifest.entries)[index := entry])
      ensures store.dirs[id].staged == old(store.dirs[id].staged) && store.dirs[id].backup == old(store.dirs[id].backup)
      ensures store.dirs[id].manifest == manifest ||
              (store.dirs[id].manifest == old(store.dirs[id].manifest) && outcome != Done)
    {
      Update(index, entry);
      outcome := env.Step();
      if outcome != Done {
        return;
      }
      outcome := SaveManifest(env);
    }

    /** `rename(target, backup)` and the directory syncs after it. */
    method MoveToBackup(index: nat, env: Environment) returns (outcome: Outcome)
      requires Valid() && index < |manifest.entries| && store.dirs[id].manifest == manifest
      requires manifest.entries[index].hadOriginal && manifest.entries[index].key in store.targets
      requires UntouchedAt(manifest.entries[index].key)
      modifies store, env
      ensures outcome != Refused
      ensures env.trouble + (if outcome == Done then 0 else 1) <= old(env.trouble)
      ensures Valid() && OtherDirsKept() && OtherKeysKept(manifest.entries[index].key)
      ensures store.dirs[id].manifest == manifest
      ensures outcome == Done ==> BackedUpAt(manifest.entries[index].key)
    {
      var key := manifest.entries[index].key;
      outcome := env.Step();
      if outcome != Done {
        return;
      }
      var dir := store.dirs[id];
      Move(key, store.targets - {key}, dir.(backup := dir.backup[key := store.targets[key]]));
      outcome := env.Step();
    }

    /** `rename(staged, target)`. */
    method MoveToTarget(index: nat, env: Environment) returns (outcome: Outcome)
      requires Valid() && index < |manifest.entries| && store.dirs[id].manifest == manifest
      requires manifest.entries[index].write && BackedUpAt(manifest.entries[index].key)
      modifies store, env
      ensures outcome != Refused
      ensures env.trouble + (if outcome == Done then 0 else 1) <= old(env.trouble)
      ensures Valid() && OtherDirsKept() && OtherKeysKept(manifest.entries[index].key)
      ensures store.dirs[id].manifest == manifest
      ensures outcome == Done ==> InstalledAt(manifest.entries[index].key)
    {
      var key := manifest.entries[index].key;
      outcome := env.Step();
      if outcome != Done {
        return;
      }
      var dir := store.dirs[id];
      Move(key, store.targets[key := dir.staged[key]], dir.(staged := dir.staged - {key}));
    }

    ghost predicate UntouchedAt(key: Key)
      requires id in store.dirs
      reads this, store
    {
      key in plan && SlotAt(key) == Slot(Lookup(base, key), None, plan[key])
    }

    ghost predicate BackedUpAt(key: Key)
      requires id in store.dirs
      reads this, store
    {
      key in plan && SlotAt(key) == Slot(None, Lookup(base, key), plan[key])
    }

    ghost predicate InstalledAt(key: Key)
      requires id in store.dirs
      reads this, store
    {
      key in plan && Installed(Lookup(base, key), plan[key], SlotAt(key))
    }

    method BackUpOriginal(index: nat, env: Environment) returns (outcome: Outcome)
      requires Valid() && store.dirs[id].manifest == manifest && index < |manifest.entries|
      requires !manifest.entries[index].hadOriginal && !manifest.entries[index].installed
      requires manifest.entries[index].key in store.targets && UntouchedAt(manifest.entries[index].key)
      modifies this`manifest, store, env
      ensures env.trouble + (if outcome == Failed || outcome == Crashed then 1 else 0) <= old(env.trouble)
      ensures Valid() && OtherDirsKept() && OtherKeysKept(old(manifest.entries[index].key))
      ensures EntryAdvanced(old(manifest), manifest, index)
      ensures store.dirs[id].manifest.state == manifest.state
      ensures outcome == Refused ==> !Installable(old(store.targets)[old(manifest.entries[index].key)])
      ensures outcome == Done ==> Installable(old(store.targets)[old(manifest.entries[index].key)])
      ensures outcome == Done ==> store.dirs[id].manifest == manifest && BackedUpAt(manifest.entries[index].key)
    {
      hide Journaled, SlotOk, DigestFile, ValidKey, SafeMode;
      var key := manifest.entries[index].key;
      var original := store.targets[key];
      var digest := DigestFile(original);
      if !SafeMode(original.mode) || digest.None? {
        return Refused;
      }
      EntryOk(manifest.entries, plan, base, store.targets, store.dirs[id], index);
      OriginalEntryOk(manifest.entries[index], original, plan[key], SlotAt(key));
      outcome := UpdateAndSave(index,
        manifest.entries[index].(hadOriginal := true, originalMode := original.mode, originalDigest := digest), env);
      if outcome != Done {
        return;
      }
      outcome := MoveToBackup(index, env);
      if outcome != Done {
        return;
      }
      EntryOk(manifest.entries, plan, base, store.targets, store.dirs[id], index);
      BackupEntryOk(manifest.entries[index], Lookup(base, key), plan[key], SlotAt(key));
      outcome := UpdateAndSave(index, manifest.entries[index].(backupReady := true), env);
    }

    method InstallEntry(index: nat, env: Environment) returns (outcome: Outcome)
      requires Valid() && store.dirs[id].manifest == manifest && index < |manifest.entries|
      requires !manifest.entries[index].hadOriginal && !manifest.entries[index].installed
      requires UntouchedAt(manifest.entries[index].key)
      modifies this`manifest, store, env
      ensures env.trouble + (if outcome == Failed || outcome == Crashed then 1 else 0) <= old(env.trouble)
      ensures Valid() && OtherDirsKept() && OtherKeysKept(old(manifest.entries[index].key))
      ensures EntryAdvanced(old(manifest), manifest, index)
      ensures store.dirs[id].manifest.state == manifest.state
      ensures outcome == Refused ==> !InstallableAt(base, old(manifest.entries[index].key))
      ensures outcome == Done ==> InstallableAt(base, old(manifest.entries[index].key))
      ensures outcome == Done ==> store.dirs[id].manifest == manifest && InstalledAt(manifest.entries[index].key)
    {
      hide Journaled, SlotOk, DigestFile, ValidKey, SafeMode;
      var key := manifest.entries[index].key;
      // the context, the target's parents and the target itself are inspected
      outcome := env.Step();
      if outcome != Done {
        return;
      }
      if key in store.targets {
        outcome := BackUpOriginal(index, env);
        if outcome != Done {
          return;
        }
      }
      if manifest.entries[index].write {
        outcome := MoveToTarget(index, env);
        if outcome != Done {
          return;
        }
      }
      EntryOk(manifest.entries, plan, base, store.targets, store.dirs[id], index);
      InstalledEntryOk(manifest.entries[index], Lookup(base, key), plan[key], SlotAt(key));
      outcome := UpdateAndSave(index, manifest.entries[index].(installed := true), env);
    }

    /** Checks every staged file and target before the first rename. */
    method Preflight() returns (ok: bool)
      requires Pristine()
      ensures ok ==>
              forall i :: 0 <= i < |manifest.entries| ==>
              manifest.entries[i].key in base ==> SafeMode(base[manifest.entries[i].key].mode)
      ensures !ok ==> exists i :: 0 <= i < |manifest.entries| && !InstallableAt(base, manifest.entries[i].key)
    {
      var index := 0;
      while index < |manifest.entries|
        invariant 0 <= index <= |manifest.entries|
        invariant forall i ::
                  0 <= i < index ==> manifest.entries[i].key in base ==> SafeMode(base[manifest.entries[i].key].mode)
      {
        var entry := manifest.entries[index];
        assert SlotOk(entry, Lookup(base, entry.key), plan[entry.key], SlotAt(entry.key));
        assert Lookup(store.dirs[id].staged, entry.key) == plan[entry.key];
        if entry.write {
          var staged := Lookup(store.dirs[id].staged, entry.key);
          if staged.None? || staged.value.mode != entry.mode || DigestFile(staged.value) != entry.digest {
            return false;
          }
        }
        if entry.key in store.targets && !SafeMode(store.targets[entry.key].mode) {
          return false;
        }
        index := index + 1;
      }
      return true;
    }

    /** Everything up to `done` is installed and nothing after it has been touched. */
    ghost predicate InstalledUpTo(done: nat)
      reads this, store
    {
      && Valid()
      && done <= |manifest.entries|
      && manifest.state == Prepared && store.dirs[id].manifest == manifest
      && KeysOf(manifest.entries) == plan.Keys
      && Progress(manifest.entries, plan, base, store.targets, store.dirs[id], done)
      && (forall i :: 0 <= i < done ==> InstallableAt(base, manifest.entries[i].key))
    }

    method InstallNext(index: nat, env: Environment) returns (outcome: Outcome)
      requires InstalledUpTo(index) && index < |manifest.entries|
      modifies this`manifest, store, env
      ensures env.trouble + (if outcome == Failed || outcome == Crashed then 1 else 0) <= old(env.trouble)
      ensures Valid() && OtherDirsKept() && OtherTargetsKept()
      ensures manifest.state == Prepared && store.dirs[id].manifest.state == Prepared
      ensures outcome == Refused ==> exists k :: k in plan && !InstallableAt(base, k)
      ensures outcome == Done ==> |manifest.entries| == old(|manifest.entries|) && InstalledUpTo(index + 1)
    {
      ghost var m, t, d := manifest, store.targets, store.dirs[id];
      outcome := InstallEntry(index, env);
      OtherTargetsOf(m.entries[index].key, t, d);
      if outcome == Done {
        ProgressStep(m.entries, manifest.entries, plan, base, t, d, store.targets, store.dirs[id], index);
        SameKeysSet(m.entries, manifest.entries);
      }
    }

    method MarkInstalled(env: Environment) returns (outcome: Outcome)
      requires InstalledUpTo(|manifest.entries|)
      modifies this`manifest, store`dirs, env
      ensures outcome != Refused
      ensures env.trouble + (if outcome == Done then 0 else 1) <= old(env.trouble)
      ensures Valid() && OtherDirsKept()
      ensures manifest.state == FilesInstalled
      ensures store.dirs[id].manifest.state == Prepared || store.dirs[id].manifest.state == FilesInstalled
      ensures forall k :: k in plan ==> InstallableAt(base, k)
      ensures outcome == Done ==> store.dirs[id].manifest == manifest
      ensures AllInstalled(plan, store.targets)
    {
      ProgressInstalls(manifest.entries, plan, base, store.targets, store.dirs[id]);
      forall k | k in plan ensures InstallableAt(base, k) {
        assert k in KeysOf(manifest.entries);
      }
      manifest := manifest.(state := FilesInstalled);
      outcome := SaveManifest(env);
    }

    method Install(env: Environment) returns (outcome: Outcome)
      requires Pristine()
      modifies this`manifest, store, env
      ensures env.trouble + (if outcome == Failed || outcome == Crashed then 1 else 0) <= old(env.trouble)
      ensures Valid() && OtherDirsKept() && OtherTargetsKept()
      ensures manifest.state == Prepared || manifest.state == FilesInstalled
      ensures store.dirs[id].manifest.state == Prepared || store.dirs[id].manifest.state == FilesInstalled
      ensures outcome == Refused ==> exists k :: k in plan && !InstallableAt(base, k)
      ensures outcome == Done ==> forall k :: k in plan ==> InstallableAt(base, k)
      ensures outcome == Done ==> manifest.state == FilesInstalled && store.dirs[id].manifest == manifest
      ensures outcome == Done ==> AllInstalled(plan, store.targets)
    {
      var ok := Preflight();
      if !ok {
        return Refused;
      }
      PristineProgress();
      var index := 0;
      while index < |manifest.entries|
        invariant InstalledUpTo(index)
        invariant env.trouble <= old(env.trouble)
        invariant OtherDirsKept() && OtherTargetsKept()
        decreases |manifest.entries| - index
      {
        outcome := InstallNext(index, env);
        if outcome != Done {
          return;
        }
        index := index + 1;
      }
      outcome := MarkInstalled(env);
    }

    lemma PristineProgress()
      requires Pristine()
      ensures Progress(manifest.entries, plan, base, store.targets, store.dirs[id], 0)
    {
      forall j | 0 <= j < |manifest.entries|
        ensures SlotAt(manifest.entries[j].key)
                == Slot(Lookup(base, manifest.entries[j].key), None, plan[manifest.entries[j].key])
      {
        assert manifest.entries[j].key in plan;
      }
    }

    lemma OtherTargetsOf(key: Key, t: map<Key, File>, d: Directory)
      requires id in store.dirs && key in plan && OnlyKeyChanged(key, t, d, store.targets, store.dirs[id])
      ensures store.targets - plan.Keys == t - plan.Keys
    {
      assert store.targets - plan.Keys == (store.targets - {key}) - plan.Keys;
      assert t - plan.Keys == (t - {key}) - plan.Keys;
    }

    // ---------------- commit and rollback ----------------

    /** Removing the directory is one durable step; syncing its parent may still fail. */
    method Cleanup(env: Environment) returns (outcome: Outcome)
      requires id in store.dirs
      modifies store`dirs, env
      ensures outcome != Refused
      ensures env.trouble + (if outcome == Done then 0 else 1) <= old(env.trouble)
      ensures OtherDirsKept()
      ensures id !in store.dirs || (outcome != Done && store.dirs == old(store.dirs))
    {
      outcome := env.Step();
      if outcome != Done {
        return;
      }
      store.dirs := store.dirs - {id};
      outcome := env.Step();
    }

    method Commit(env: Environment) returns (outcome: Outcome)
      requires Valid()
      modifies this`manifest, store`dirs, env
      ensures env.trouble + (if outcome == Failed || outcome == Crashed then 1 else 0) <= old(env.trouble)
      ensures outcome == Refused <==> old(manifest.state) !in {FilesInstalled, Committed}
      ensures OtherDirsKept()
      ensures id in store.dirs ==>
              Valid() && (store.dirs[id].manifest.state == old(store.dirs[id].manifest.state) ||
              store.dirs[id].manifest.state == Committed)
      ensures outcome == Refused ==> store.dirs == old(store.dirs)
      ensures outcome == Done ==> id !in store.dirs
    {
      if manifest.state == Committed {
        outcome := Cleanup(env);
        return;
      }
      if manifest.state != FilesInstalled {
        return Refused;
      }
      manifest := manifest.(state := Committed);
      outcome := SaveManifest(env);
      if outcome != Done {
        return;
      }
      outcome := Cleanup(env);
    }

    lemma RollbackKeepsKey(e: Entry, entries: seq<Entry>, s: Slot, s': Slot)
      requires e.key in plan && SlotOk(e, Lookup(base, e.key), plan[e.key], s) && KeyOk(entries, e.key, s)
      requires s' == AfterRollback(e, s) || (s.backup.Some? && s' == s.(target := None))
      ensures KeyOk(entries, e.key, s')
    {
      forall i | 0 <= i < |entries| && entries[i].key == e.key
        ensures SlotOk(entries[i], Lookup(base, e.key), plan[e.key], s')
      {
        RollbackStaysRecoverable(e, entries[i], Lookup(base, e.key), plan[e.key], s);
      }
    }

    /** A rename or removal that `Rollback` makes for one entry. */
    method RollbackMove(e: Entry, targets: map<Key, File>, dir: Directory)
      requires Valid() && e in manifest.entries && dir.manifest == store.dirs[id].manifest
      requires OnlyKeyChanged(e.key, store.targets, store.dirs[id], targets, dir)
      requires || SlotOf(targets, dir, e.key) == AfterRollback(e, SlotAt(e.key))
               || (SlotAt(e.key).backup.Some? && SlotOf(targets, dir, e.key) == SlotAt(e.key).(target := None))
      modifies store
      ensures store.targets == targets && store.dirs == old(store.dirs)[id := dir]
      ensures Valid()
    {
      var key := e.key;
      assert SlotOk(e, Lookup(base, key), plan[key], SlotAt(key));
      RollbackKeepsKey(e, manifest.entries, SlotAt(key), SlotOf(targets, dir, key));
      RollbackKeepsKey(e, dir.manifest.entries, SlotAt(key), SlotOf(targets, dir, key));
      if key !in KeysOf(dir.manifest.entries) {
        RollbackKeepsUntouched(e, Lookup(base, key), plan[key], SlotAt(key));
      }
      Move(key, targets, dir);
    }

    ghost predicate RestoredAt(key: Key)
      requires id in store.dirs
      reads this, store
    {
      Restored(Lookup(base, key), SlotAt(key))
    }

    method RestoreEntry(index: nat, env: Environment) returns (outcome: Outcome)
      requires Valid() && index < |manifest.entries|
      modifies store, env
      ensures outcome != Refused
      ensures env.trouble + (if outcome == Done then 0 else 1) <= old(env.trouble)
      ensures Valid() && OtherDirsKept() && OtherKeysKept(manifest.entries[index].key)
      ensures store.dirs[id].manifest == old(store.dirs[id].manifest)
      ensures outcome == Done ==> RestoredAt(manifest.entries[index].key)
    {
      var entry := manifest.entries[index];
      var key := entry.key;
      RollbackRestores(entry, Lookup(base, key), plan[key], SlotAt(key));
      outcome := env.Step();
      if outcome != Done {
        return;
      }
      var dir := store.dirs[id];
      if key in dir.backup {
        outcome := RestoreBackup(entry, env);
      } else if entry.hadOriginal {
        if key !in store.targets || entry.originalDigest.None? ||
          DigestFile(store.targets[key]) != entry.originalDigest {
          return Refused;
        }
      } else if entry.write && (entry.installed || key !in dir.staged) && key in store.targets {
        if DigestFile(store.targets[key]).None? || DigestFile(store.targets[key]) != entry.digest {
          return Refused;
        }
        outcome := env.Step();
        if outcome != Done {
          return;
        }
        RollbackMove(entry, store.targets - {key}, dir);
      }
      if outcome != Done {
        return;
      }
      outcome := env.Step();
    }

    /** Removes whatever is at the target, then renames the backup over it. */
    method RestoreBackup(entry: Entry, env: Environment) returns (outcome: Outcome)
      requires Valid() && entry in manifest.entries && entry.key in store.dirs[id].backup
      modifies store, env
      ensures outcome != Refused
      ensures env.trouble + (if outcome == Done then 0 else 1) <= old(env.trouble)
      ensures Valid() && OtherDirsKept() && OtherKeysKept(entry.key)
      ensures store.dirs[id].manifest == old(store.dirs[id].manifest)
      ensures outcome == Done ==> RestoredAt(entry.key)
    {
      var key := entry.key;
      assert SlotOk(entry, Lookup(base, key), plan[key], SlotAt(key));
      outcome := env.Step();
      if outcome != Done {
        return;
      }
      RollbackMove(entry, store.targets - {key}, store.dirs[id]);
      outcome := env.Step();
      if outcome != Done {
        return;
      }
      var dir := store.dirs[id];
      RollbackMove(entry, store.targets[key := dir.backup[key]], dir.(backup := dir.backup - {key}));
    }

    /** Entries from `from` on have their original back. */
    ghost predicate RestoredFrom(from: nat)
      reads this, store
    {
      && Valid()
      && from <= |manifest.entries|
      && forall j :: from <= j < |manifest.entries| ==> RestoredAt(manifest.entries[j].key)
    }

    method RestoreNext(index: nat, env: Environment) returns (outcome: Outcome)
      requires index < |manifest.entries| && RestoredFrom(index + 1)
      modifies store, env
      ensures outcome != Refused
      ensures env.trouble + (if outcome == Done then 0 else 1) <= old(env.trouble)
      ensures Valid() && OtherDirsKept() && OtherTargetsKept()
      ensures store.dirs[id].manifest == old(store.dirs[id].manifest)
      ensures outcome == Done ==> RestoredFrom(index)
    {
      ghost var t, d := store.targets, store.dirs[id];
      outcome := RestoreEntry(index, env);
      OtherTargetsOf(manifest.entries[index].key, t, d);
      forall j | index < j < |manifest.entries|
        ensures RestoredAt(manifest.entries[j].key)
      {
        OtherSlotsKept(manifest.entries[index].key, t, d, store.targets, store.dirs[id], manifest.entries[j].key);
      }
    }

    lemma RestoredAll()
      requires RestoredFrom(0)
      ensures AllRestored(plan, base, store.targets)
    {
      forall k | k in plan ensures Lookup(store.targets, k) == Lookup(base, k) {
        if k in KeysOf(manifest.entries) {
          var i :| 0 <= i < |manifest.entries| && manifest.entries[i].key == k;
          assert RestoredAt(manifest.entries[i].key);
        } else {
          assert Restored(Lookup(base, k), SlotAt(k));
        }
      }
    }

    method MarkRolledBack(env: Environment) returns (outcome: Outcome)
      requires RestoredFrom(0)
      modifies this`manifest, store`dirs, env
      ensures outcome != Refused
      ensures env.trouble + (if outcome == Done then 0 else 1) <= old(env.trouble)
      ensures OtherDirsKept() && AllRestored(plan, base, store.targets)
      ensures id in store.dirs ==>
              Valid() && (store.dirs[id].manifest.state == old(store.dirs[id].manifest.state) ||
              store.dirs[id].manifest.state == RolledBack)
      ensures outcome == Done ==> id !in store.dirs
    {
      RestoredAll();
      manifest := manifest.(state := RolledBack);
      outcome := SaveManifest(env);
      if outcome != Done {
        return;
      }
      outcome := Cleanup(env);
    }

    /**
     From any recoverable state, rollback is refused only for a committed operation,
     and when it finishes every target is what it was before the operation.
     An interrupted rollback leaves a state from which rollback can be run again.
     */
    method Rollback(env: Environment) returns (outcome: Outcome)
      requires Valid()
      requires manifest.state == RolledBack ==> AllRestored(plan, base, store.targets)
      modifies this`manifest, store, env
      ensures env.trouble + (if outcome == Failed || outcome == Crashed then 1 else 0) <= old(env.trouble)
      ensures outcome == Refused <==> old(manifest.state) == Committed
      ensures outcome == Refused ==> store.dirs == old(store.dirs) && store.targets == old(store.targets)
      ensures OtherDirsKept() && OtherTargetsKept()
      ensures id !in store.dirs ==> AllRestored(plan, base, store.targets)
      ensures id in store.dirs ==> Valid()
      ensures id in store.dirs ==> || store.dirs[id].manifest.state == old(store.dirs[id].manifest.state)
                                   || (store.dirs[id].manifest.state == RolledBack &&
                                     AllRestored(plan, base, store.targets))
      ensures old(manifest.state) == RolledBack ==> store.targets == old(store.targets)
      ensures outcome == Done ==> id !in store.dirs
    {
      if manifest.state == RolledBack {
        outcome := Cleanup(env);
        return;
      }
      if manifest.state == Committed {
        return Refused;
      }
      var index: nat := |manifest.entries|;
      while index > 0
        invariant RestoredFrom(index)
        invariant env.trouble <= old(env.trouble)
        invariant OtherDirsKept() && OtherTargetsKept()
        invariant store.dirs[id].manifest == old(store.dirs[id].manifest)
      {
        outcome := RestoreNext(index - 1, env);
        if outcome != Done {
          return;
        }
        index := index - 1;
      }
      outcome := MarkRolledBack(env);
    }
  }

  /** An original file that installation is willing to move aside. */
  predicate Installable(original: File) {
    SafeMode(original.mode) && DigestFile(original).Some?
  }

  predicate InstallableAt(base: map<Key, File>, key: Key) {
    key in base ==> Installable(base[key])
  }

  /** The first `done` entries are installed and the others untouched. */
  ghost predicate Progress(entries: seq<Entry>, plan: Plan, base: map<Key, File>, t: map<Key, File>, d: Directory,
      done: nat)
    requires forall i :: 0 <= i < |entries| ==> entries[i].key in plan
  {
    && (forall j :: 0 <= j < done && j < |entries| ==>
          Installed(Lookup(base, entries[j].key), plan[entries[j].key], SlotOf(t, d, entries[j].key)))
    && (forall j :: done <= j < |entries| ==>
          && !entries[j].hadOriginal && !entries[j].installed
          && SlotOf(t, d, entries[j].key) == Slot(Lookup(base, entries[j].key), None, plan[entries[j].key]))
  }

  lemma ProgressStep(entries: seq<Entry>, entries': seq<Entry>, plan: Plan, base: map<Key, File>,
                     t: map<Key, File>, d: Directory, t': map<Key, File>, d': Directory, index: nat)
    requires index < |entries| == |entries'| && Distinct(entries)
    requires forall i :: 0 <= i < |entries| ==> entries[i].key in plan
    requires entries' == entries[index := entries'[index]] && entries'[index].key == entries[index].key
    requires Progress(entries, plan, base, t, d, index)
    requires OnlyKeyChanged(entries[index].key, t, d, t', d')
    requires Installed(Lookup(base, entries[index].key), plan[entries[index].key], SlotOf(t', d', entries[index].key))
    ensures forall i :: 0 <= i < |entries'| ==> entries'[i].key in plan
    ensures Progress(entries', plan, base, t', d', index + 1)
    ensures t' - plan.Keys == t - plan.Keys
  {
    var key := entries[index].key;
    forall j | 0 <= j < |entries| && j != index
      ensures SlotOf(t', d', entries[j].key) == SlotOf(t, d, entries[j].key)
    {
      OtherSlotsKept(key, t, d, t', d', entries[j].key);
    }
    assert t' - plan.Keys == (t' - {key}) - plan.Keys;
    assert t - plan.Keys == (t - {key}) - plan.Keys;
  }

  lemma ProgressInstalls(entries: seq<Entry>, plan: Plan, base: map<Key, File>, t: map<Key, File>, d: Directory)
    requires forall i :: 0 <= i < |entries| ==> entries[i].key in plan
    requires plan.Keys == KeysOf(entries) && Progress(entries, plan, base, t, d, |entries|)
    ensures AllInstalled(plan, t)
  {
    forall k | k in plan ensures Lookup(t, k) == plan[k] {
      var i :| 0 <= i < |entries| && entries[i].key == k;
      assert SlotOf(t, d, entries[i].key).target == plan[k];
    }
  }

  lemma SameKeysSet(a: seq<Entry>, b: seq<Entry>)
    requires SameKeys(a, b)
    ensures KeysOf(a) == KeysOf(b)
  {
    forall k | k in KeysOf(a) ensures k in KeysOf(b) {
      var i :| 0 <= i < |a| && a[i].key == k;
      assert b[i].key == k;
    }
    forall k | k in KeysOf(b) ensures k in KeysOf(a) {
      var i :| 0 <= i < |b| && b[i].key == k;
      assert a[i].key == k;
    }
  }

  /** Only the evidence and progress of one entry has changed. */
  predicate EntryAdvanced(m: Manifest, m': Manifest, index: nat) {
    && index < |m.entries| == |m'.entries|
    && m'.state == m.state
    && m'.entries == m.entries[index := m'.entries[index]]
    && m'.entries[index].key == m.entries[index].key
  }

  /** No entry has been acted on yet, and nothing is staged beyond the plan. */
  ghost predicate Fresh(entries: seq<Entry>, plan: Plan, dir: Directory) {
    && plan.Keys == KeysOf(entries)
    && dir.staged.Keys <= plan.Keys
    && (forall k :: k in plan ==> Lookup(dir.staged, k) == plan[k])
    && (forall i :: 0 <= i < |entries| ==> !entries[i].hadOriginal && !entries[i].installed)
  }

  lemma AppendKeepsJournal(entries: seq<Entry>, entry: Entry, plan: Plan, change: Option<File>, base: map<Key, File>,
      d: Directory)
    requires Journaled(entries, plan, base, base, d)
    requires plan.Keys == KeysOf(entries) && d.backup == map[]
    requires entry.key !in plan && !entry.hadOriginal && !entry.installed
    requires Describes(entry, change) && Evidence(entry, None) && Lookup(d.staged, entry.key) == change
    ensures Journaled(entries + [entry], plan[entry.key := change], base, base, d)
    ensures Journaled(entries, plan[entry.key := change], base, base, d)
    ensures KeysOf(entries + [entry]) == KeysOf(entries) + {entry.key}
  {
    hide Describes, Evidence, Recoverable;
    var longer := entries + [entry];
    forall i | 0 <= i < |entries| ensures longer[i] == entries[i] && longer[i].key != entry.key {
      assert entries[i].key in KeysOf(entries);
    }
    assert longer[|entries|] == entry;
    assert KeysOf(longer) == KeysOf(entries) + {entry.key} by {
      forall k | k in KeysOf(entries) + {entry.key} ensures k in KeysOf(longer) {
        if k in KeysOf(entries) {
          var i :| 0 <= i < |entries| && entries[i].key == k;
          assert longer[i].key == k;
        } else {
          assert longer[|entries|].key == k;
        }
      }
    }
    FreshEntryOk(entry, Lookup(base, entry.key), change, SlotOf(base, d, entry.key));
  }

  /** A new entry over an untouched target. */
  lemma FreshEntryOk(entry: Entry, original: Option<File>, change: Option<File>, s: Slot)
    requires !entry.hadOriginal && !entry.installed && Describes(entry, change) && Evidence(entry, None)
    requires s.target == original && s.backup.None? && s.staged == change
    ensures SlotOk(entry, original, change, s)
  {
  }

  lemma StageKeepsJournal(m: Manifest, plan: Plan, base: map<Key, File>, d: Directory, key: Key, file: File)
    requires !Staged(m.entries, key)
    requires Journaled(m.entries, plan, base, base, d) && plan.Keys == KeysOf(m.entries)
    ensures Journaled(m.entries, plan, base, base, d.(staged := d.staged[key := file]))
    ensures key !in plan
  {
    Reslot(m.entries, m.entries, key, plan, base, base, d, base, d.(staged := d.staged[key := file]));
  }

  lemma SlotsIgnoreManifest(entries: seq<Entry>, plan: Plan, base: map<Key, File>, t: map<Key, File>, d: Directory,
      d': Directory)
    requires Journaled(entries, plan, base, t, d)
    requires d'.staged == d.staged && d'.backup == d.backup
    ensures Journaled(entries, plan, base, t, d')
  {
    Reslot(entries, entries, "", plan, base, t, d, t, d');
  }

  lemma EntryOk(entries: seq<Entry>, plan: Plan, base: map<Key, File>, t: map<Key, File>, d: Directory, i: nat)
    requires Journaled(entries, plan, base, t, d) && i < |entries|
    ensures entries[i].key in plan && (entries[i].write <==> plan[entries[i].key].Some?)
    ensures SlotOk(entries[i], Lookup(base, entries[i].key), plan[entries[i].key], SlotOf(t, d, entries[i].key))
  {
  }

  /** Before the original moves, its evidence may be recorded. */
  lemma OriginalEntryOk(e: Entry, original: File, change: Option<File>, s: Slot)
    requires SlotOk(e, Some(original), change, s) && s == Slot(Some(original), None, change) && !e.installed
    requires SafeMode(original.mode) && DigestFile(original).Some?
    ensures SlotOk(e.(hadOriginal := true, originalMode := original.mode, originalDigest := DigestFile(original)),
            Some(original), change, s)
  {
  }

  /** Once the backup is there, the entry may say so. */
  lemma BackupEntryOk(e: Entry, original: Option<File>, change: Option<File>, s: Slot)
    requires SlotOk(e, original, change, s) && e.hadOriginal
    ensures SlotOk(e.(backupReady := true), original, change, s)
  {
  }

  /** An entry whose change is in place may say so. */
  lemma InstalledEntryOk(e: Entry, original: Option<File>, change: Option<File>, s: Slot)
    requires SlotOk(e, original, change, s) && Installed(original, change, s)
    ensures SlotOk(e.(installed := true), original, change, s)
  {
  }
}
