/**
 Reconciling the SQL journal with the file journal after a crash, and the smallest
 complete client of the two-store protocol. The state both are proved against is
 `World`: any finite set of operations on disjoint keys, each either interrupted at
 some point or settled, over the target files they started from.
 */
module Recovery {
  import opened Results
  import opened Faults
  import opened ArtifactJournal
  import opened ManifestLimit
  import opened StateJournal

  type Plans = map<Id, Plan>

  ghost predicate Disjoint(plans: Plans) {
    forall a, b :: a in plans && b in plans && a != b ==> plans[a].Keys !! plans[b].Keys
  }

  /** Without a directory, the operation has taken effect exactly if SQL committed it. */
  ghost predicate Settled(plan: Plan, base: map<Key, File>, targets: map<Key, File>, sql: Option<JournalState>) {
    if sql == Some(JCommitted) then AllInstalled(plan, targets) else AllRestored(plan, base, targets)
  }

  /** With a directory, the two journals agree and the files can still go either way SQL decides. */
  ghost predicate Interrupted(plan: Plan, base: map<Key, File>, targets: map<Key, File>, dir: Directory,
      sql: Option<JournalState>)
  {
    && Journaled(dir.manifest.entries, plan, base, targets, dir)
    && (dir.manifest.state == Committed ==> sql == Some(JCommitted))
    && (dir.manifest.state == RolledBack ==> AllRestored(plan, base, targets))
    && (sql == Some(JCommitted) ==>
      (dir.manifest.state == FilesInstalled || dir.manifest.state == Committed) && AllInstalled(plan, targets))
  }

  ghost predicate OperationOk(plan: Plan, base: map<Key, File>, targets: map<Key, File>, dir: Option<Directory>,
      sql: Option<JournalState>)
  {
    match dir
    case None => Settled(plan, base, targets, sql)
    case Some(d) => Interrupted(plan, base, targets, d, sql)
  }

  ghost predicate WorldOf(targets: map<Key, File>, dirs: map<Id, Directory>, journal: map<Id, JournalState>,
                          base: map<Key, File>, plans: Plans)
  {
    && Disjoint(plans)
    && dirs.Keys <= plans.Keys
    && (forall id :: id in journal && id !in plans ==> !IsPending(journal[id]))
    && (forall id :: id in plans ==> OperationOk(plans[id], base, targets, Lookup(dirs, id), Lookup(journal, id)))
    && (forall k :: (forall id :: id in plans ==> k !in plans[id]) ==> Lookup(targets, k) == Lookup(base, k))
  }

  ghost predicate World(files: LocalStore, state: StateStore, base: map<Key, File>, plans: Plans)
    reads files, state
  {
    WorldOf(files.targets, files.dirs, state.journal, base, plans)
  }

  /** Every operation took effect completely if SQL committed it and not at all otherwise. */
  ghost predicate Resolved(targets: map<Key, File>, journal: map<Id, JournalState>, base: map<Key, File>,
      plans: Plans)
  {
    && (forall id :: id in plans ==> Settled(plans[id], base, targets, Lookup(journal, id)))
    && (forall k :: (forall id :: id in plans ==> k !in plans[id]) ==> Lookup(targets, k) == Lookup(base, k))
  }

  predicate NothingPending(journal: map<Id, JournalState>) {
    forall id :: id in journal ==> !IsPending(journal[id])
  }

  predicate SameCommits(journal: map<Id, JournalState>, journal': map<Id, JournalState>) {
    && journal.Keys == journal'.Keys
    && forall id :: id in journal ==> (journal[id] == JCommitted <==> journal'[id] == JCommitted)
  }

  lemma LookupElsewhere(plan: Plan, t: map<Key, File>, t': map<Key, File>, k: Key)
    requires t' - plan.Keys == t - plan.Keys && k !in plan
    ensures Lookup(t', k) == Lookup(t, k)
  {
    assert k in t <==> k in t - plan.Keys;
    assert k in t' <==> k in t' - plan.Keys;
    if k in t {
      assert t[k] == (t - plan.Keys)[k] == (t' - plan.Keys)[k];
    }
  }

  /** What happens on one operation's keys does not concern an operation on other keys. */
  lemma OperationElsewhere(mine: Plan, other: Plan, base: map<Key, File>, t: map<Key, File>, t': map<Key, File>,
                           dir: Option<Directory>, sql: Option<JournalState>)
    requires mine.Keys !! other.Keys && t' - mine.Keys == t - mine.Keys
    requires OperationOk(other, base, t, dir, sql)
    ensures OperationOk(other, base, t', dir, sql)
  {
    forall k | k in other ensures Lookup(t', k) == Lookup(t, k) {
      LookupElsewhere(mine, t, t', k);
    }
    if dir.Some? {
      forall k | k in other ensures SlotOf(t', dir.value, k) == SlotOf(t, dir.value, k) {
      }
    }
  }

  /** Replacing one operation's directory and journal row by consistent ones keeps the world consistent. */
  lemma WorldStep(t: map<Key, File>, dirs: map<Id, Directory>, journal: map<Id, JournalState>,
                  t': map<Key, File>, dirs': map<Id, Directory>, journal': map<Id, JournalState>,
                  base: map<Key, File>, plans: Plans, id: Id)
    requires WorldOf(t, dirs, journal, base, plans) && id in plans
    requires t' - plans[id].Keys == t - plans[id].Keys
    requires dirs' - {id} == dirs - {id} && journal' - {id} == journal - {id}
    requires OperationOk(plans[id], base, t', Lookup(dirs', id), Lookup(journal', id))
    ensures WorldOf(t', dirs', journal', base, plans)
  {
    forall other | other != id
      ensures Lookup(dirs', other) == Lookup(dirs, other) && Lookup(journal', other) == Lookup(journal, other)
      ensures other in dirs' <==> other in dirs
      ensures other in journal' <==> other in journal
    {
      assert other in dirs <==> other in dirs - {id};
      assert other in dirs' <==> other in dirs' - {id};
      assert other in journal <==> other in journal - {id};
      assert other in journal' <==> other in journal' - {id};
      if other in dirs { assert dirs[other] == (dirs - {id})[other] == (dirs' - {id})[other]; }
      if other in journal { assert journal[other] == (journal - {id})[other] == (journal' - {id})[other]; }
    }
    forall other | other in plans && other != id
      ensures OperationOk(plans[other], base, t', Lookup(dirs', other), Lookup(journal', other))
    {
      OperationElsewhere(plans[id], plans[other], base, t, t', Lookup(dirs, other), Lookup(journal, other));
    }
    forall k | forall o :: o in plans ==> k !in plans[o]
      ensures Lookup(t', k) == Lookup(base, k)
    {
      LookupElsewhere(plans[id], t, t', k);
    }
  }

  lemma WorldMember(t: map<Key, File>, dirs: map<Id, Directory>, journal: map<Id, JournalState>,
                    base: map<Key, File>, plans: Plans, id: Id)
    requires WorldOf(t, dirs, journal, base, plans) && id in dirs
    ensures id in plans && OperationOk(plans[id], base, t, Lookup(dirs, id), Lookup(journal, id))
  {
  }

  lemma WorldWithoutDirectories(t: map<Key, File>, journal: map<Id, JournalState>, base: map<Key, File>, plans: Plans)
    requires WorldOf(t, map[], journal, base, plans)
    ensures Resolved(t, journal, base, plans)
  {
  }

  // ------------------------------------------------------------------
  // Recovery
  // ------------------------------------------------------------------

  datatype Action = Action(id: Id, what: ActionKind)
  datatype ActionKind = RolledBackAction | OrphanRolledBack | CommitFinished | RollbackFinished

  /** Opens and rolls back an operation SQL has not committed. */
  method RollBackFiles(files: LocalStore, state: StateStore, id: Id, env: Environment, ghost base: map<Key, File>,
      ghost plans: Plans)
    returns (outcome: Outcome)
    requires World(files, state, base, plans) && id in files.dirs
    requires Lookup(state.journal, id) != Some(JCommitted)
    modifies files, env
    ensures World(files, state, base, plans)
    ensures env.trouble + (if outcome == Failed || outcome == Crashed then 1 else 0) <= old(env.trouble)
    ensures outcome == Refused ==> files.dirs == old(files.dirs) && !WithinLimit(files.dirs[id].manifest)
    ensures outcome == Done ==> WithinLimit(old(files.dirs)[id].manifest)
    ensures files.dirs - {id} == old(files.dirs) - {id}
    ensures outcome == Done ==> files.dirs == old(files.dirs) - {id}
  {
    ghost var t, dirs := files.targets, files.dirs;
    assert OperationOk(plans[id], base, t, Lookup(dirs, id), Lookup(state.journal, id));
    var operation: Operation?;
    outcome, operation := files.OpenOperation(id, env, plans[id], base);
    if outcome != Done {
      return;
    }
    if operation.manifest.state == Committed {
      return Refused;
    }
    outcome := operation.Rollback(env);
    WorldStep(t, dirs, state.journal, files.targets, files.dirs, state.journal, base, plans, id);
    if id !in files.dirs {
      assert files.dirs == files.dirs - {id};
    }
  }

  /** Opens an operation SQL has committed and finishes its file journal. */
  method FinishCommit(files: LocalStore, state: StateStore, id: Id, env: Environment, ghost base: map<Key, File>,
      ghost plans: Plans)
    returns (outcome: Outcome)
    requires World(files, state, base, plans) && id in files.dirs
    requires Lookup(state.journal, id) == Some(JCommitted)
    modifies files, env
    ensures World(files, state, base, plans)
    ensures env.trouble + (if outcome == Failed || outcome == Crashed then 1 else 0) <= old(env.trouble)
    ensures outcome == Refused ==> files.dirs == old(files.dirs) && !WithinLimit(files.dirs[id].manifest)
    ensures outcome == Done ==> WithinLimit(old(files.dirs)[id].manifest)
    ensures files.targets == old(files.targets)
    ensures files.dirs - {id} == old(files.dirs) - {id}
    ensures outcome == Done ==> files.dirs == old(files.dirs) - {id}
  {
    hide WorldOf, Journaled;
    ghost var t, dirs := files.targets, files.dirs;
    WorldMember(t, dirs, state.journal, base, plans, id);
    var operation: Operation?;
    outcome, operation := files.OpenOperation(id, env, plans[id], base);
    if outcome != Done {
      return;
    }
    if operation.manifest.state != FilesInstalled && operation.manifest.state != Committed {
      return Refused;
    }
    outcome := operation.Commit(env);
    WorldStep(t, dirs, state.journal, files.targets, files.dirs, state.journal, base, plans, id);
    if id !in files.dirs {
      assert files.dirs == files.dirs - {id};
    }
  }

  /** The journal row of an operation without files moves to rolled-back. */
  method MarkRolledBack(files: LocalStore, state: StateStore, id: Id, env: Environment, ghost base: map<Key, File>,
      ghost plans: Plans)
    returns (outcome: Outcome)
    requires World(files, state, base, plans)
    requires id in state.journal && IsPending(state.journal[id])
    modifies state`journal, env
    ensures World(files, state, base, plans)
    ensures env.trouble + (if outcome == Done then 0 else 1) <= old(env.trouble)
    ensures outcome != Refused
    ensures state.journal == if outcome == Done then old(state.journal)[id := JRolledBack] else old(state.journal)
  {
    ghost var journal := state.journal;
    outcome := state.AdvanceOperation(id, JRolledBack, env);
    if outcome == Done {
      assert OperationOk(plans[id], base, files.targets, Lookup(files.dirs, id), Lookup(journal, id));
      WorldStep(files.targets, files.dirs, journal, files.targets, files.dirs, state.journal, base, plans, id);
    }
  }

  lemma SameCommitsAlways(journal: map<Id, JournalState>)
    ensures SameCommits(journal, journal)
  {
  }

  lemma RollingBackKeepsCommits(journal: map<Id, JournalState>, journal': map<Id, JournalState>, id: Id)
    requires SameCommits(journal, journal') && id in journal' && IsPending(journal'[id])
    ensures SameCommits(journal, journal'[id := JRolledBack])
  {
  }

  /** Of the operation directories before, some are gone, and those could be opened; the others are as they were. */
  ghost predicate Handled(before: map<Id, Directory>, now: map<Id, Directory>) {
    && (forall id :: id in now ==> id in before && now[id] == before[id])
    && (forall id :: id in before && id !in now ==> WithinLimit(before[id].manifest))
  }

  /** An operation cannot be opened, and is as it was: nor will it be opened next time. */
  ghost predicate Stuck(before: map<Id, Directory>, now: map<Id, Directory>) {
    exists id :: id in before && id in now && now[id] == before[id] && !WithinLimit(now[id].manifest)
  }

  lemma AllHandled(dirs: map<Id, Directory>)
    ensures Handled(dirs, dirs)
  {
  }

  /** One more directory opened and removed, or found too large. */
  lemma OneHandled(before: map<Id, Directory>, between: map<Id, Directory>, now: map<Id, Directory>, id: Id,
      outcome: Outcome)
    requires Handled(before, between) && id in between
    requires outcome == Done ==> now == between - {id} && WithinLimit(between[id].manifest)
    requires outcome == Refused ==> now == between && !WithinLimit(between[id].manifest)
    ensures outcome == Done ==> Handled(before, now)
    ensures outcome == Refused ==> Stuck(before, now)
  {
  }

  lemma HandledThen(before: map<Id, Directory>, between: map<Id, Directory>, now: map<Id, Directory>)
    requires Handled(before, between)
    ensures Handled(between, now) ==> Handled(before, now)
    ensures Stuck(between, now) ==> Stuck(before, now)
  {
  }

  function PendingIds(journal: map<Id, JournalState>): set<Id> {
    set id | id in journal && IsPending(journal[id])
  }

  /** The first loop: every pending journal row, with or without files, is rolled back. */
  method RecoverPending(files: LocalStore, state: StateStore, env: Environment, ghost base: map<Key, File>,
      ghost plans: Plans)
    returns (outcome: Outcome, actions: seq<Action>)
    requires World(files, state, base, plans)
    modifies files, state`journal, env
    ensures World(files, state, base, plans)
    ensures env.trouble + (if outcome == Failed || outcome == Crashed then 1 else 0) <= old(env.trouble)
    ensures outcome == Done ==> Handled(old(files.dirs), files.dirs)
    ensures outcome == Refused ==> Stuck(old(files.dirs), files.dirs)
    ensures SameCommits(old(state.journal), state.journal)
    ensures outcome == Done ==> NothingPending(state.journal)
    ensures old(NothingPending(state.journal)) && outcome == Done ==>
              actions == [] && files.dirs == old(files.dirs) && files.targets == old(files.targets) &&
                state.journal == old(state.journal)
  {
    hide WorldOf, SameCommits, Handled, Stuck;
    outcome, actions := Done, [];
    AllHandled(files.dirs);
    SameCommitsAlways(state.journal);
    outcome := env.Step();
    if outcome != Done {
      return;
    }
    var pending := PendingIds(state.journal);
    while pending != {}
      invariant World(files, state, base, plans)
      invariant env.trouble <= old(env.trouble) && outcome == Done
      invariant pending == PendingIds(state.journal)
      invariant Handled(old(files.dirs), files.dirs)
      invariant SameCommits(old(state.journal), state.journal)
      invariant old(NothingPending(state.journal)) ==>
                  actions == [] && files.dirs == old(files.dirs) && files.targets == old(files.targets) &&
                    state.journal == old(state.journal)
      decreases pending
    {
      var id :| id in pending;
      if id in files.dirs {
        ghost var dirs := files.dirs;
        outcome := RollBackFiles(files, state, id, env, base, plans);
        OneHandled(old(files.dirs), dirs, files.dirs, id, outcome);
        if outcome != Done {
          return;
        }
      }
      RollingBackKeepsCommits(old(state.journal), state.journal, id);
      outcome := MarkRolledBack(files, state, id, env, base, plans);
      if outcome != Done {
        return;
      }
      actions := actions + [Action(id, RolledBackAction)];
      pending := pending - {id};
    }
    forall id | id in state.journal ensures !IsPending(state.journal[id]) {
      assert id !in PendingIds(state.journal);
    }
  }

  /** The second loop: file journals whose SQL row is already terminal, or missing. */
  method RecoverRemaining(files: LocalStore, state: StateStore, env: Environment, ghost base: map<Key, File>,
      ghost plans: Plans)
    returns (outcome: Outcome, actions: seq<Action>)
    requires World(files, state, base, plans) && NothingPending(state.journal)
    modifies files, env
    ensures World(files, state, base, plans)
    ensures env.trouble + (if outcome == Failed || outcome == Crashed then 1 else 0) <= old(env.trouble)
    ensures outcome == Done ==> Handled(old(files.dirs), files.dirs)
    ensures outcome == Refused ==> Stuck(old(files.dirs), files.dirs)
    ensures outcome == Done ==> files.dirs == map[]
    ensures old(files.dirs) == map[] ==> actions == [] && files.targets == old(files.targets) && files.dirs == map[]
  {
    hide WorldOf, Handled, Stuck;
    outcome, actions := Done, [];
    AllHandled(files.dirs);
    var remaining := files.dirs.Keys;
    while remaining != {}
      invariant World(files, state, base, plans)
      invariant env.trouble <= old(env.trouble) && outcome == Done
      invariant remaining == files.dirs.Keys && Handled(old(files.dirs), files.dirs)
      invariant old(files.dirs) == map[] ==> actions == [] && files.targets == old(files.targets) && files.dirs == map[]
      decreases remaining
    {
      var id :| id in remaining;
      var what;
      ghost var dirs := files.dirs;
      if id !in state.journal {
        what := OrphanRolledBack;
        outcome := RollBackFiles(files, state, id, env, base, plans);
      } else {
        match state.journal[id] {
          case JCommitted =>
            what := CommitFinished;
            outcome := FinishCommit(files, state, id, env, base, plans);
          case JRolledBack =>
            what := RollbackFinished;
            outcome := RollBackFiles(files, state, id, env, base, plans);
          case JFailed =>
            what := RollbackFinished;
            outcome := RollBackFiles(files, state, id, env, base, plans);
          case _ =>
            return Refused, actions;
        }
      }
      OneHandled(old(files.dirs), dirs, files.dirs, id, outcome);
      if outcome != Done {
        return;
      }
      actions := actions + [Action(id, what)];
      remaining := remaining - {id};
    }
  }

  /**
   From any set of interrupted operations on disjoint keys, and however often faults
   strike, recovery is never refused for conflicting evidence, but exactly if some manifest
   is too large to be read back, and then every time. When it finishes, both journals are
   empty, every operation has taken effect exactly if SQL committed it, and running it
   again takes no action.
   */
  method RecoverOperations(files: LocalStore, state: StateStore, env: Environment, ghost base: map<Key, File>,
      ghost plans: Plans)
    returns (outcome: Outcome, actions: seq<Action>)
    requires World(files, state, base, plans)
    modifies files, state`journal, env
    ensures World(files, state, base, plans)
    ensures env.trouble + (if outcome == Failed || outcome == Crashed then 1 else 0) <= old(env.trouble)
    ensures outcome == Done ==> forall id :: id in old(files.dirs) ==> WithinLimit(old(files.dirs)[id].manifest)
    ensures outcome == Refused ==> Stuck(old(files.dirs), files.dirs)
    ensures SameCommits(old(state.journal), state.journal)
    ensures outcome == Done ==> files.dirs == map[] && NothingPending(state.journal)
    ensures outcome == Done ==> Resolved(files.targets, state.journal, base, plans)
    ensures outcome == Done && old(files.dirs == map[] && NothingPending(state.journal)) ==>
              actions == [] && files.targets == old(files.targets) && state.journal == old(state.journal)
  {
    outcome, actions := RecoverPending(files, state, env, base, plans);
    if outcome != Done {
      return;
    }
    ghost var dirs := files.dirs;
    var finished;
    outcome, finished := RecoverRemaining(files, state, env, base, plans);
    HandledThen(old(files.dirs), dirs, files.dirs);
    actions := actions + finished;
    if outcome == Done {
      WorldWithoutDirectories(files.targets, state.journal, base, plans);
    }
  }

  // ------------------------------------------------------------------
  // A client of the two stores
  // ------------------------------------------------------------------

  datatype Write = Write(key: Key, mode: nat, content: Bytes)

  /** The file changes a refresh asks for. */
  function Intended(writes: seq<Write>, deletions: seq<Key>): Plan
    decreases |deletions|, |writes|
  {
    if deletions != [] then
      Intended(writes, deletions[..|deletions| - 1])[deletions[|deletions| - 1] := None]
    else if writes != [] then
      var w := writes[|writes| - 1];
      Intended(writes[..|writes| - 1], [])[w.key := Some(File(w.content, w.mode))]
    else map[]
  }

  /** What it asks for key by key, a write standing above a deletion: at most this is ever journaled. */
  function Asked(writes: seq<Write>, deletions: seq<Key>): Plan {
    (map k | k in deletions :: None) + Intended(writes, [])
  }

  /** A plan that journals no more keys, and writes no others. */
  predicate NoMoreThan(plan: Plan, asked: Plan) {
    plan.Keys <= asked.Keys && forall k :: k in plan && plan[k].Some? ==> asked[k].Some?
  }

  lemma {:induction false} IntendedKeys(writes: seq<Write>, deletions: seq<Key>)
    ensures forall k ::
            k in Intended(writes, deletions) <==> k in deletions || exists i :: 0 <= i < |writes| && writes[i].key == k
    ensures forall k ::
            k in Intended(writes, deletions) && Intended(writes, deletions)[k].Some? ==>
            exists i :: 0 <= i < |writes| && writes[i].key == k
    ensures deletions == [] ==> forall k :: k in Intended(writes, []) ==> Intended(writes, [])[k].Some?
    decreases |deletions|, |writes|
  {
    if deletions != [] {
      IntendedKeys(writes, deletions[..|deletions| - 1]);
      assert deletions == deletions[..|deletions| - 1] + [deletions[|deletions| - 1]];
    } else if writes != [] {
      var rest, last := writes[..|writes| - 1], writes[|writes| - 1];
      IntendedKeys(rest, []);
      forall k ensures k in Intended(writes, []) <==> exists i :: 0 <= i < |writes| && writes[i].key == k {
        if k in Intended(rest, []) {
          var i :| 0 <= i < |rest| && rest[i].key == k;
          assert writes[i].key == k;
        } else if k == last.key {
          assert writes[|writes| - 1].key == k;
        }
      }
    }
  }

  lemma PrefixAsked(writes: seq<Write>, deletions: seq<Key>, n: nat, m: nat)
    requires n <= |writes| && m <= |deletions|
    ensures NoMoreThan(Intended(writes[..n], deletions[..m]), Asked(writes, deletions))
  {
    IntendedKeys(writes[..n], deletions[..m]);
    IntendedKeys(writes, []);
    var plan, asked := Intended(writes[..n], deletions[..m]), Asked(writes, deletions);
    forall k | k in plan ensures k in asked && (plan[k].Some? ==> asked[k].Some?) {
      if i :| 0 <= i < n && writes[..n][i].key == k {
        assert writes[i].key == k;
      } else {
        assert k in deletions[..m];
      }
    }
  }

  /** Requests that staging accepts: proper keys, each once, with proper modes and sizes. */
  predicate Stageable(base: map<Key, File>, writes: seq<Write>, deletions: seq<Key>) {
    && (forall i :: 0 <= i < |writes| ==> StageableWrite(writes[i]))
    && (forall i :: 0 <= i < |deletions| ==> StageableDeletion(base, deletions[i]))
    && (forall i, j :: 0 <= i < j < |writes| ==> writes[i].key != writes[j].key)
    && (forall i, j :: 0 <= i < j < |deletions| ==> deletions[i] != deletions[j])
    && (forall i, j :: 0 <= i < |writes| && 0 <= j < |deletions| ==> writes[i].key != deletions[j])
  }

  predicate StageableWrite(w: Write) {
    ValidKey(w.key) && SafeMode(w.mode) && |w.content| <= MAX_ARTIFACT_SIZE
  }

  predicate StageableDeletion(base: map<Key, File>, k: Key) {
    ValidKey(k) && (k in base ==> SafeMode(base[k].mode))
  }

  /** Accepting a request write by write, and then deletion by deletion, is accepting it as a whole. */
  lemma NextWrite(base: map<Key, File>, writes: seq<Write>, n: nat)
    requires n < |writes| && Stageable(base, writes[..n], [])
    ensures Stageable(base, writes[..n + 1], []) <==>
            StageableWrite(writes[n]) && writes[n].key !in Intended(writes[..n], [])
  {
    IntendedKeys(writes[..n], []);
    hide StageableWrite, StageableDeletion, Intended;
    var longer := writes[..n + 1];
    assert forall i :: 0 <= i < n ==> longer[i] == writes[i] == writes[..n][i];
    if Stageable(base, longer, []) {
      assert forall i :: 0 <= i < n ==> longer[i].key != longer[n].key;
    }
  }

  lemma NextDeletion(base: map<Key, File>, writes: seq<Write>, deletions: seq<Key>, n: nat)
    requires n < |deletions| && Stageable(base, writes, deletions[..n])
    ensures Stageable(base, writes, deletions[..n + 1]) <==>
            StageableDeletion(base, deletions[n]) && deletions[n] !in Intended(writes, deletions[..n])
  {
    IntendedKeys(writes, deletions[..n]);
    hide StageableWrite, StageableDeletion, Intended;
    var longer := deletions[..n + 1];
    assert forall i :: 0 <= i < n ==> longer[i] == deletions[i] == deletions[..n][i];
    if Stageable(base, writes, longer) {
      assert forall i :: 0 <= i < n ==> longer[i] != longer[n];
      assert forall i :: 0 <= i < |writes| ==> writes[i].key != longer[n];
    }
  }

  lemma PrefixStageable(base: map<Key, File>, writes: seq<Write>, deletions: seq<Key>, n: nat, m: nat)
    requires Stageable(base, writes, deletions) && n <= |writes| && m <= |deletions|
    ensures Stageable(base, writes[..n], deletions[..m])
  {
  }

  /** The files a refresh asks for are there, and those it wants deleted are not. */
  predicate Written(t: map<Key, File>, writes: seq<Write>, deletions: seq<Key>) {
    && (forall i :: 0 <= i < |writes| ==> Lookup(t, writes[i].key) == Some(File(writes[i].content, writes[i].mode)))
    && (forall i :: 0 <= i < |deletions| ==> Lookup(t, deletions[i]) == None)
  }

  predicate Names(writes: seq<Write>, deletions: seq<Key>, k: Key) {
    k in deletions || exists i :: 0 <= i < |writes| && writes[i].key == k
  }

  /** What staging intends is what was asked for. */
  lemma {:induction false} IntendedMeaning(base: map<Key, File>, writes: seq<Write>, deletions: seq<Key>)
    requires Stageable(base, writes, deletions)
    ensures forall i :: 0 <= i < |writes| ==>
              Lookup(Intended(writes, deletions), writes[i].key) == Some(Some(File(writes[i].content, writes[i].mode)))
    ensures forall i :: 0 <= i < |deletions| ==> Lookup(Intended(writes, deletions), deletions[i]) == Some(None)
    ensures forall k :: k in Intended(writes, deletions) <==> Names(writes, deletions, k)
    decreases |deletions|, |writes|
  {
    hide StageableWrite, StageableDeletion;
    IntendedKeys(writes, deletions);
    if deletions != [] {
      PrefixStageable(base, writes, deletions, |writes|, |deletions| - 1);
      assert writes[..|writes|] == writes;
      IntendedMeaning(base, writes, deletions[..|deletions| - 1]);
    } else if writes != [] {
      PrefixStageable(base, writes, deletions, |writes| - 1, 0);
      IntendedMeaning(base, writes[..|writes| - 1], []);
    }
  }

  /** Exactly the refreshes that go through when nothing fails. */
  predicate Refreshable(clients: set<Id>, rows: map<Key, Row>, base: map<Key, File>,
                        writes: seq<Write>, deletions: seq<Key>, active: seq<Metadata>, deleted: seq<Deletion>) {
    && Stageable(base, writes, deletions)
    && (forall k :: k in Intended(writes, deletions) ==> InstallableAt(base, k))
    && Acceptable(clients, rows, active, deleted)
  }

  /** The part of the stores that one operation has to do with, whatever else is pending in them. */
  ghost predicate PartOf(t: map<Key, File>, dirs: map<Id, Directory>, journal: map<Id, JournalState>,
                         base: map<Key, File>, id: Id, plan: Plan)
  {
    && OperationOk(plan, base, t, Lookup(dirs, id), Lookup(journal, id))
    && t - plan.Keys == base - plan.Keys
  }

  ghost predicate Part(files: LocalStore, state: StateStore, base: map<Key, File>, id: Id, plan: Plan)
    reads files, state
  {
    PartOf(files.targets, files.dirs, state.journal, base, id, plan)
  }

  /** Nothing but this operation's directory and row has changed. */
  twostate predicate OthersKept(files: LocalStore, state: StateStore, id: Id)
    reads files, state
  {
    files.dirs - {id} == old(files.dirs) - {id} && state.journal - {id} == old(state.journal) - {id}
  }

  /** What holds while an operation runs. */
  ghost predicate Running(files: LocalStore, state: StateStore, operation: Operation)
    reads files, state, operation, operation.store
  {
    && operation.store == files && operation.Valid()
    && (files.dirs[operation.id].manifest.state == Prepared ||
      files.dirs[operation.id].manifest.state == FilesInstalled)
    && (Lookup(state.journal, operation.id) == Some(JPrepared) ||
      Lookup(state.journal, operation.id) == Some(JFilesInstalled))
    && files.targets - operation.plan.Keys == operation.base - operation.plan.Keys
  }

  /** The rollback closure: files first, then the journal row, whatever the first one returned. */
  method Abandon(files: LocalStore, state: StateStore, operation: Operation, env: Environment, cause: Outcome)
    returns (outcome: Outcome)
    requires Running(files, state, operation) &&
             (operation.manifest.state == Prepared || operation.manifest.state == FilesInstalled)
    requires cause == Failed || cause == Refused
    modifies files, state`journal, operation, env
    ensures Part(files, state, operation.base, operation.id, operation.plan) && operation.plan == old(operation.plan)
    ensures OthersKept(files, state, operation.id)
    ensures Lookup(state.journal, operation.id) != Some(JCommitted)
    ensures outcome == cause || outcome == Crashed
    ensures env.trouble <= old(env.trouble) && (outcome == Crashed ==> env.trouble < old(env.trouble))
    ensures old(env.trouble) == 0 ==>
            operation.id !in files.dirs && Lookup(state.journal, operation.id) == Some(JRolledBack) &&
            files.targets == operation.base
  {
    hide Journaled;
    outcome := operation.Rollback(env);
    if outcome == Crashed {
      return;
    }
    var marked := state.AdvanceOperation(operation.id, JRolledBack, env);
    if marked == Crashed {
      return Crashed;
    }
    outcome := cause;
    if operation.id !in files.dirs {
      SameTargets(files.targets, operation.base, operation.plan);
    }
  }

  lemma SameTargets(t: map<Key, File>, base: map<Key, File>, plan: Plan)
    requires AllRestored(plan, base, t) && t - plan.Keys == base - plan.Keys
    ensures t == base
  {
    forall k ensures (k in t <==> k in base) && (k in t ==> t[k] == base[k]) {
      if k in plan {
        assert Lookup(t, k) == Lookup(base, k);
      } else {
        LookupElsewhere(plan, base, t, k);
      }
    }
  }

  /** What is left of the two stores after a refresh, however it ended. */
  ghost predicate Outcomes(files: LocalStore, state: StateStore, id: Id, plan: Plan,
                           writes: seq<Write>, deletions: seq<Key>, base: map<Key, File>,
                           rows: map<Key, Row>, active: seq<Metadata>, deleted: seq<Deletion>)
    reads files, state
  {
    && Part(files, state, base, id, plan)
    && NoMoreThan(plan, Asked(writes, deletions))
    && (if Lookup(state.journal, id) == Some(JCommitted)
        then plan == Intended(writes, deletions) && Stageable(base, writes, deletions)
             && state.metadata == Applied(rows, active, deleted) && RowsFollow(rows, state.metadata, active, deleted)
        else state.metadata == rows)
  }

  lemma NothingStaged(base: map<Key, File>, writes: seq<Write>, deletions: seq<Key>)
    ensures Stageable(base, writes[..0], []) && Intended(writes[..0], []) == map[]
    ensures NoMoreThan(map[], Asked(writes, deletions)) &&
            NoMoreThan(Intended(writes, deletions), Asked(writes, deletions))
    ensures writes[..|writes|] == writes && deletions[..|deletions|] == deletions && deletions[..0] == []
  {
    PrefixAsked(writes, deletions, |writes|, |deletions|);
    assert writes[..|writes|] == writes && deletions[..|deletions|] == deletions;
  }

  /** Staging looks for the key among the entries, which are those of the plan. */
  lemma JournalableIfNew(operation: Operation, key: Key)
    requires operation.Pristine()
    ensures operation.CanJournal(key) <==> ValidKey(key) && key !in operation.plan
  {
    assert Staged(operation.manifest.entries, key) <==> key in KeysOf(operation.manifest.entries);
  }

  lemma WriteAsked(writes: seq<Write>, deletions: seq<Key>, n: nat)
    requires n < |writes|
    ensures Intended(writes[..n + 1], [])
            == Intended(writes[..n], [])[writes[n].key := Some(File(writes[n].content, writes[n].mode))]
    ensures NoMoreThan(Intended(writes[..n], []), Asked(writes, deletions))
    ensures NoMoreThan(Intended(writes[..n + 1], []), Asked(writes, deletions))
  {
    assert writes[..n + 1][..n] == writes[..n];
    PrefixAsked(writes, deletions, n, 0);
    PrefixAsked(writes, deletions, n + 1, 0);
    assert deletions[..0] == [];
  }

  lemma DeletionAsked(writes: seq<Write>, deletions: seq<Key>, n: nat)
    requires n < |deletions|
    ensures Intended(writes, deletions[..n + 1]) == Intended(writes, deletions[..n])[deletions[n] := None]
    ensures NoMoreThan(Intended(writes, deletions[..n]), Asked(writes, deletions))
    ensures NoMoreThan(Intended(writes, deletions[..n + 1]), Asked(writes, deletions))
  {
    assert deletions[..n + 1][..n] == deletions[..n];
    PrefixAsked(writes, deletions, |writes|, n);
    PrefixAsked(writes, deletions, |writes|, n + 1);
    assert writes[..|writes|] == writes;
  }

  lemma NotStageable(base: map<Key, File>, writes: seq<Write>, deletions: seq<Key>, n: nat, m: nat)
    requires n <= |writes| && m <= |deletions|
    ensures !Stageable(base, writes[..n], deletions[..m]) ==> !Stageable(base, writes, deletions)
  {
    if Stageable(base, writes, deletions) {
      PrefixStageable(base, writes, deletions, n, m);
    }
  }

  /** Stages every write and journals every deletion, in order. */
  method StageAll(files: LocalStore, operation: Operation, writes: seq<Write>, deletions: seq<Key>, env: Environment)
    returns (outcome: Outcome)
    requires operation.store == files && operation.Pristine() && operation.plan == map[]
    modifies files`dirs, operation, env
    ensures operation.Valid() && operation.OtherDirsKept()
    ensures operation.manifest.state == Prepared && files.dirs[operation.id].manifest.state == Prepared
    ensures env.trouble + (if outcome == Failed || outcome == Crashed then 1 else 0) <= old(env.trouble)
    ensures NoMoreThan(operation.plan, Asked(writes, deletions))
    ensures outcome == Done ==> operation.Pristine() && operation.plan == Intended(writes, deletions)
    ensures outcome == Done ==> Stageable(operation.base, writes, deletions)
    ensures outcome == Refused ==> !Stageable(operation.base, writes, deletions)
  {
    hide Journaled, Fresh, Stageable, NoMoreThan, Asked;
    outcome := Done;
    NothingStaged(operation.base, writes, deletions);
    var index := 0;
    while index < |writes|
      invariant 0 <= index <= |writes| && outcome == Done
      invariant operation.Pristine() && operation.OtherDirsKept()
      invariant operation.plan == Intended(writes[..index], [])
      invariant Stageable(operation.base, writes[..index], [])
      invariant env.trouble <= old(env.trouble)
    {
      var item := writes[index];
      JournalableIfNew(operation, item.key);
      NextWrite(operation.base, writes, index);
      WriteAsked(writes, deletions, index);
      outcome := operation.Stage(item.key, item.mode, item.content, env);
      if outcome != Done {
        NotStageable(operation.base, writes, deletions, index + 1, 0);
        return;
      }
      index := index + 1;
    }
    assert writes[..index] == writes;
    index := 0;
    while index < |deletions|
      invariant 0 <= index <= |deletions| && outcome == Done
      invariant operation.Pristine() && operation.OtherDirsKept()
      invariant operation.plan == Intended(writes, deletions[..index])
      invariant Stageable(operation.base, writes, deletions[..index])
      invariant env.trouble <= old(env.trouble)
    {
      JournalableIfNew(operation, deletions[index]);
      NextDeletion(operation.base, writes, deletions, index);
      DeletionAsked(writes, deletions, index);
      outcome := operation.Remove(deletions[index], env);
      if outcome != Done {
        NotStageable(operation.base, writes, deletions, |writes|, index + 1);
        return;
      }
      index := index + 1;
    }
    assert deletions[..index] == deletions;
  }

  /** From prepared journals to the SQL commit; on `Done` both stores are committed. */
  method InstallAndCommit(files: LocalStore, state: StateStore, operation: Operation, writes: seq<Write>,
                          deletions: seq<Key>, active: seq<Metadata>, deleted: seq<Deletion>, env: Environment)
    returns (outcome: Outcome)
    requires Running(files, state, operation) && operation.Pristine() && operation.plan == map[]
    requires Lookup(state.journal, operation.id) == Some(JPrepared)
    modifies files, state`journal, state`metadata, operation, env
    ensures operation.Valid() && operation.id in files.dirs
    ensures env.trouble + (if outcome == Failed || outcome == Crashed then 1 else 0) <= old(env.trouble)
    ensures outcome != Done ==>
            Running(files, state, operation) &&
            (operation.manifest.state == Prepared || operation.manifest.state == FilesInstalled)
    ensures outcome != Done ==> state.metadata == old(state.metadata)
    ensures NoMoreThan(operation.plan, Asked(writes, deletions))
    ensures outcome == Done ==>
            Refreshable(state.clients, old(state.metadata), operation.base, writes, deletions, active, deleted)
    ensures outcome == Refused ==>
            !Refreshable(state.clients, old(state.metadata), operation.base, writes, deletions, active, deleted)
    ensures outcome == Done ==>
              && Part(files, state, operation.base, operation.id, operation.plan)
              && operation.manifest.state == FilesInstalled
              && operation.plan == Intended(writes, deletions) && Stageable(operation.base, writes, deletions)
              && state.metadata == Applied(old(state.metadata), active, deleted)
              && RowsFollow(old(state.metadata), state.metadata, active, deleted)
              && Lookup(state.journal, operation.id) == Some(JCommitted)
    ensures OthersKept(files, state, operation.id)
  {
    hide Journaled, Fresh, Stageable, NoMoreThan, Asked, Acceptable;
    outcome := StageAll(files, operation, writes, deletions, env);
    if outcome != Done {
      return;
    }
    outcome := operation.Install(env);
    if outcome != Done {
      return;
    }
    outcome := state.AdvanceOperation(operation.id, JFilesInstalled, env);
    if outcome != Done {
      return;
    }
    outcome := state.CommitArtifactOperation(operation.id, active, deleted, env);
  }

  lemma NothingBegun(t: map<Key, File>, dirs: map<Id, Directory>, journal: map<Id, JournalState>, id: Id)
    ensures id !in dirs && Lookup(journal, id) != Some(JCommitted) ==> PartOf(t, dirs, journal, t, id, map[])
  {
  }

  /** After the SQL commit the file journal is committed; an error here is not rolled back. */
  method CommitFiles(files: LocalStore, state: StateStore, operation: Operation, env: Environment)
    returns (outcome: Outcome)
    requires operation.store == files && operation.Valid() && operation.manifest.state == FilesInstalled
    requires Part(files, state, operation.base, operation.id, operation.plan)
    requires Lookup(state.journal, operation.id) == Some(JCommitted)
    modifies files`dirs, operation`manifest, env
    ensures Part(files, state, operation.base, operation.id, operation.plan) && OthersKept(files, state, operation.id)
    ensures outcome != Refused
    ensures env.trouble + (if outcome == Done then 0 else 1) <= old(env.trouble)
    ensures outcome == Done ==> operation.id !in files.dirs
  {
    hide Journaled;
    outcome := operation.Commit(env);
  }

  /** Everything after both journals have been opened. */
  method RunRefresh(files: LocalStore, state: StateStore, operation: Operation, writes: seq<Write>, deletions: seq<Key>,
                    active: seq<Metadata>, deleted: seq<Deletion>, env: Environment)
    returns (outcome: Outcome)
    requires Running(files, state, operation) && operation.Pristine() && operation.plan == map[]
    requires Lookup(state.journal, operation.id) == Some(JPrepared)
    modifies files, state`journal, state`metadata, operation, env
    ensures Outcomes(files, state, operation.id, operation.plan, writes, deletions,
                     operation.base, old(state.metadata), active, deleted)
    ensures OthersKept(files, state, operation.id)
    ensures env.trouble + (if outcome == Failed || outcome == Crashed then 1 else 0) <= old(env.trouble)
    ensures outcome == Done ==>
            Lookup(state.journal, operation.id) == Some(JCommitted) && operation.id !in files.dirs
    ensures old(env.trouble) == 0 ==> operation.id !in files.dirs
    ensures old(env.trouble) == 0 && outcome != Done ==>
            files.targets == operation.base && Lookup(state.journal, operation.id) == Some(JRolledBack)
    ensures outcome == Done ==>
            Refreshable(state.clients, old(state.metadata), operation.base, writes, deletions, active, deleted)
    ensures outcome == Refused ==>
            !Refreshable(state.clients, old(state.metadata), operation.base, writes, deletions, active, deleted)
  {
    hide Refreshable, NoMoreThan, Asked, Journaled, Fresh;
    outcome := InstallAndCommit(files, state, operation, writes, deletions, active, deleted, env);
    if outcome == Done {
      outcome := CommitFiles(files, state, operation, env);
    } else if outcome != Crashed {
      outcome := Abandon(files, state, operation, env, outcome);
    }
  }

  /**
   A refresh of artifacts: prepare, stage, install, commit in SQL, commit the files. Without faults
   it goes through exactly if it is refreshable. Whatever is pending beside it stays as it is.
   */
  method Refresh(files: LocalStore, state: StateStore, id: Id, writes: seq<Write>, deletions: seq<Key>,
                 active: seq<Metadata>, deleted: seq<Deletion>, env: Environment)
    returns (outcome: Outcome, ghost plan: Plan)
    requires id !in files.dirs && id !in state.journal
    modifies files, state`journal, state`metadata, env
    ensures Outcomes(files, state, id, plan, writes, deletions, old(files.targets), old(state.metadata), active,
            deleted)
    ensures OthersKept(files, state, id)
    ensures env.trouble + (if outcome == Failed || outcome == Crashed then 1 else 0) <= old(env.trouble)
    ensures outcome == Done ==> Lookup(state.journal, id) == Some(JCommitted) && id !in files.dirs
    ensures old(env.trouble) == 0 ==> id !in files.dirs
    ensures old(env.trouble) == 0 && outcome != Done ==>
            files.targets == old(files.targets) && Lookup(state.journal, id) == Some(JRolledBack)
    ensures outcome == Done ==>
            Refreshable(state.clients, old(state.metadata), old(files.targets), writes, deletions, active, deleted)
    ensures outcome == Refused ==>
            !Refreshable(state.clients, old(state.metadata), old(files.targets), writes, deletions, active, deleted)
  {
    hide Refreshable, NoMoreThan, Asked, PartOf, Intended, Applied;
    plan := map[];
    NothingStaged(files.targets, writes, deletions);
    NothingBegun(files.targets, files.dirs, state.journal, id);
    outcome := state.PrepareOperation(id, env);
    if outcome != Done {
      return;
    }
    var operation: Operation?;
    outcome, operation := files.BeginOperation(id, env);
    if outcome == Done {
      outcome := RunRefresh(files, state, operation, writes, deletions, active, deleted, env);
      plan := operation.plan;
    } else if outcome != Crashed {
      var marked := state.AdvanceOperation(id, JRolledBack, env);
      if marked == Crashed {
        outcome := Crashed;
      }
    }
    NothingBegun(files.targets, files.dirs, state.journal, id);
  }

  /** Directories whose plans are small enough can always be opened again. */
  lemma WorldWithinLimit(t: map<Key, File>, dirs: map<Id, Directory>, journal: map<Id, JournalState>,
      base: map<Key, File>, plans: Plans)
    requires WorldOf(t, dirs, journal, base, plans)
    requires forall id :: id in plans ==> PlanBound(plans[id]) <= MAX_MANIFEST
    ensures forall id :: id in dirs ==> WithinLimit(dirs[id].manifest)
  {
    forall id | id in dirs ensures WithinLimit(dirs[id].manifest) {
      assert OperationOk(plans[id], base, t, Lookup(dirs, id), Lookup(journal, id));
      JournaledWithinBound(dirs[id].manifest, plans[id], base, t, dirs[id]);
    }
  }

  /** Another operation, on keys of its own, beside those of a world. */
  lemma WorldExtended(t: map<Key, File>, dirs: map<Id, Directory>, journal: map<Id, JournalState>,
                      t': map<Key, File>, dirs': map<Id, Directory>, journal': map<Id, JournalState>,
                      base: map<Key, File>, plans: Plans, id: Id, plan: Plan)
    requires WorldOf(t, dirs, journal, base, plans) && id !in plans && id !in journal
    requires dirs' - {id} == dirs - {id} && journal' - {id} == journal - {id}
    requires PartOf(t', dirs', journal', t, id, plan)
    requires forall o :: o in plans ==> plans[o].Keys !! plan.Keys
    ensures WorldOf(t', dirs', journal', base, plans[id := plan])
  {
    hide OperationOk;
    var plans' := plans[id := plan];
    forall other | other != id
      ensures Lookup(dirs', other) == Lookup(dirs, other) && Lookup(journal', other) == Lookup(journal, other)
      ensures other in dirs' <==> other in dirs
      ensures other in journal' <==> other in journal
    {
      SameElsewhere(dirs, dirs', id, other);
      SameElsewhere(journal, journal', id, other);
    }
    forall other | other in plans
      ensures OperationOk(plans'[other], base, t', Lookup(dirs', other), Lookup(journal', other))
    {
      OperationElsewhere(plan, plans[other], base, t, t', Lookup(dirs, other), Lookup(journal, other));
    }
    forall k | k in plan ensures Lookup(t, k) == Lookup(base, k) {
      assert forall o :: o in plans ==> k !in plans[o];
    }
    SameBase(plan, t, base, t', Lookup(dirs', id), Lookup(journal', id));
    forall k | forall o :: o in plans' ==> k !in plans'[o]
      ensures Lookup(t', k) == Lookup(base, k)
    {
      assert k !in plans'[id];
      LookupElsewhere(plan, t, t', k);
      assert forall o :: o in plans ==> plans'[o] == plans[o];
    }
  }

  lemma SameElsewhere<V>(m: map<Id, V>, m': map<Id, V>, id: Id, other: Id)
    requires m' - {id} == m - {id} && other != id
    ensures Lookup(m', other) == Lookup(m, other) && (other in m' <==> other in m)
  {
    assert other in m <==> other in m - {id};
    assert other in m' <==> other in m' - {id};
    if other in m {
      assert m[other] == (m - {id})[other] == (m' - {id})[other];
    }
  }

  /** Only what the base has at the keys of the plan matters. */
  lemma SameBase(plan: Plan, base: map<Key, File>, base': map<Key, File>, t: map<Key, File>,
                 dir: Option<Directory>, sql: Option<JournalState>)
    requires OperationOk(plan, base, t, dir, sql) && forall k :: k in plan ==> Lookup(base, k) == Lookup(base', k)
    ensures OperationOk(plan, base', t, dir, sql)
  {
  }

  /** Some operation cannot be opened again. */
  ghost predicate Blocked(dirs: map<Id, Directory>) {
    exists id :: id in dirs && !WithinLimit(dirs[id].manifest)
  }

  ghost predicate Bounded(plans: Plans) {
    forall id :: id in plans ==> PlanBound(plans[id]) <= MAX_MANIFEST
  }

  /** Stores in which nothing is interrupted. */
  /**
   A refresh started while other operations are interrupted, on keys of its own. However it ends, what it
   leaves is one more operation of the same kind beside them.
   */
  method RefreshBeside(files: LocalStore, state: StateStore, id: Id, writes: seq<Write>, deletions: seq<Key>,
                       active: seq<Metadata>, deleted: seq<Deletion>, env: Environment,
                       ghost base: map<Key, File>, ghost plans: Plans)
    returns (outcome: Outcome, ghost plan: Plan)
    requires World(files, state, base, plans) && id !in plans && id !in state.journal
    requires forall o :: o in plans ==> plans[o].Keys !! Asked(writes, deletions).Keys
    modifies files, state`journal, state`metadata, env
    ensures World(files, state, base, plans[id := plan]) && NoMoreThan(plan, Asked(writes, deletions))
    ensures state.journal - {id} == old(state.journal) - {id}
    ensures outcome == Done ==> Lookup(state.journal, id) == Some(JCommitted)
    ensures if Lookup(state.journal, id) == Some(JCommitted)
            then plan == Intended(writes, deletions) && Stageable(old(files.targets), writes, deletions)
                 && RowsFollow(old(state.metadata), state.metadata, active, deleted)
            else state.metadata == old(state.metadata)
  {
    hide WorldOf, PartOf, Refreshable, NoMoreThan, Asked, Intended;
    ghost var t, dirs, journal := files.targets, files.dirs, state.journal;
    NotAmong(t, dirs, journal, base, plans, id);
    outcome, plan := Refresh(files, state, id, writes, deletions, active, deleted, env);
    AskedKeys(plan, Asked(writes, deletions), plans);
    WorldExtended(t, dirs, journal, files.targets, files.dirs, state.journal, base, plans, id, plan);
  }

  /**
   Two-store atomicity, beside any number of operations that others have left interrupted on other
   keys. A refresh is cut anywhere, and so is every recovery after it; once a recovery finishes, the
   target files and the SQL metadata of each operation are both the new state or both the old one, and
   SQL's commit alone decides which. Recovery finishes unless a manifest left behind is too large to be
   read back, which cannot be if the bounds of what was asked are within the limit.
   */
  method RefreshThroughCrashes(files: LocalStore, state: StateStore, id: Id, writes: seq<Write>, deletions: seq<Key>,
                               active: seq<Metadata>, deleted: seq<Deletion>, env: Environment,
                               ghost base: map<Key, File>, ghost plans: Plans)
    returns (outcome: Outcome, recovery: Outcome)
    requires World(files, state, base, plans) && id !in plans && id !in state.journal
    requires forall o :: o in plans ==> plans[o].Keys !! Asked(writes, deletions).Keys
    modifies files, state`journal, state`metadata, env
    ensures recovery == Done || recovery == Refused
    ensures PlanBound(Asked(writes, deletions)) <= MAX_MANIFEST && Bounded(plans) ==> recovery == Done
    ensures recovery == Refused ==> Blocked(files.dirs)
    ensures recovery == Done ==> files.dirs == map[] && NothingPending(state.journal)
    ensures outcome == Done ==> Lookup(state.journal, id) == Some(JCommitted)
    ensures forall o ::
            o in plans ==>
            (Lookup(state.journal, o) == Some(JCommitted) <==> old(Lookup(state.journal, o)) == Some(JCommitted))
    ensures if Lookup(state.journal, id) == Some(JCommitted)
            then RowsFollow(old(state.metadata), state.metadata, active, deleted)
            else state.metadata == old(state.metadata)
    ensures recovery == Done ==>
              && (forall o :: o in plans ==> Settled(plans[o], base, files.targets, Lookup(state.journal, o)))
              && (Lookup(state.journal, id) == Some(JCommitted) ==> Written(files.targets, writes, deletions))
              && (forall k :: (forall o :: o in plans ==> k !in plans[o])
                              && !(Lookup(state.journal, id) == Some(JCommitted) && Names(writes, deletions, k)) ==>
                    Lookup(files.targets, k) == Lookup(base, k))
  {
    hide WorldOf, Stuck, SameCommits, Resolved, NoMoreThan, Asked, Intended, Stageable, RowsFollow, Written, Names;
    ghost var plan, all;
    ghost var before, t := state.journal, files.targets;
    outcome, plan := RefreshBeside(files, state, id, writes, deletions, active, deleted, env, base, plans);
    all := plans[id := plan];
    AskedBound(plan, Asked(writes, deletions));
    ghost var journal, metadata := state.journal, state.metadata;
    recovery := RecoverAgain(files, state, env, base, all);
    while recovery == Failed || recovery == Crashed
      invariant World(files, state, base, all) && SameCommits(journal, state.journal)
      invariant state.metadata == metadata
      invariant recovery == Done ==> files.dirs == map[] && NothingPending(state.journal)
      invariant recovery == Done ==> Resolved(files.targets, state.journal, base, all)
      invariant recovery == Refused ==> Blocked(files.dirs)
      invariant Bounded(all) ==> recovery != Refused
      decreases env.trouble, recovery == Failed || recovery == Crashed
    {
      ghost var between := state.journal;
      recovery := RecoverAgain(files, state, env, base, all);
      SameCommitsThen(journal, between, state.journal, id);
    }
    CommitsStay(before, journal, state.journal, id, plans);
    if recovery == Done {
      SettledTargets(files.targets, state.journal, base, id, plan, plans);
      if Lookup(state.journal, id) == Some(JCommitted) {
        PlanWritten(files.targets, t, writes, deletions);
      }
    }
  }

  lemma PlanWritten(t: map<Key, File>, base: map<Key, File>, writes: seq<Write>, deletions: seq<Key>)
    requires Stageable(base, writes, deletions) && AllInstalled(Intended(writes, deletions), t)
    ensures Written(t, writes, deletions)
    ensures forall k :: k in Intended(writes, deletions) <==> Names(writes, deletions, k)
  {
    IntendedMeaning(base, writes, deletions);
    hide Stageable, Intended;
    forall i | 0 <= i < |writes| ensures Lookup(t, writes[i].key) == Some(File(writes[i].content, writes[i].mode)) {
      assert Lookup(Intended(writes, deletions), writes[i].key).Some?;
    }
    forall i | 0 <= i < |deletions| ensures Lookup(t, deletions[i]) == None {
      assert Lookup(Intended(writes, deletions), deletions[i]).Some?;
    }
  }

  lemma NotAmong(t: map<Key, File>, dirs: map<Id, Directory>, journal: map<Id, JournalState>, base: map<Key, File>,
                 plans: Plans, id: Id)
    requires WorldOf(t, dirs, journal, base, plans) && id !in plans
    ensures id !in dirs
  {
  }

  lemma AskedKeys(plan: Plan, asked: Plan, plans: Plans)
    requires NoMoreThan(plan, asked) && forall o :: o in plans ==> plans[o].Keys !! asked.Keys
    ensures forall o :: o in plans ==> plans[o].Keys !! plan.Keys
  {
  }

  lemma CommitsStay(before: map<Id, JournalState>, journal: map<Id, JournalState>, now: map<Id, JournalState>, id: Id,
                    plans: Plans)
    requires journal - {id} == before - {id} && SameCommits(journal, now) && id !in plans
    ensures Lookup(now, id) == Some(JCommitted) <==> Lookup(journal, id) == Some(JCommitted)
    ensures forall o :: o in plans ==> (Lookup(now, o) == Some(JCommitted) <==> Lookup(before, o) == Some(JCommitted))
  {
    forall o | o in plans ensures Lookup(journal, o) == Lookup(before, o) {
      SameElsewhere(before, journal, id, o);
    }
  }

  /** One run of recovery over the remains of some operations. */
  method RecoverAgain(files: LocalStore, state: StateStore, env: Environment, ghost base: map<Key, File>,
      ghost plans: Plans)
    returns (recovery: Outcome)
    requires World(files, state, base, plans)
    modifies files, state`journal, env
    ensures World(files, state, base, plans) && SameCommits(old(state.journal), state.journal)
    ensures env.trouble + (if recovery == Failed || recovery == Crashed then 1 else 0) <= old(env.trouble)
    ensures recovery == Done ==> files.dirs == map[] && NothingPending(state.journal)
    ensures recovery == Done ==> Resolved(files.targets, state.journal, base, plans)
    ensures recovery == Refused ==> Blocked(files.dirs)
    ensures Bounded(plans) ==> recovery != Refused
  {
    var actions;
    recovery, actions := RecoverOperations(files, state, env, base, plans);
    if Bounded(plans) {
      WorldWithinLimit(files.targets, files.dirs, state.journal, base, plans);
    }
  }

  lemma SameCommitsThen(a: map<Id, JournalState>, b: map<Id, JournalState>, c: map<Id, JournalState>, id: Id)
    requires SameCommits(a, b) || a == b
    ensures SameCommits(b, c) ==> SameCommits(a, c)
    ensures SameCommits(b, c) ==> (Lookup(c, id) == Some(JCommitted) <==> Lookup(a, id) == Some(JCommitted))
  {
  }

  lemma AskedBound(plan: Plan, asked: Plan)
    requires NoMoreThan(plan, asked)
    ensures PlanBound(plan) <= PlanBound(asked)
  {
    WeightGrows(plan, asked);
  }

  lemma SettledTargets(t: map<Key, File>, journal: map<Id, JournalState>, base: map<Key, File>, id: Id, plan: Plan,
                       plans: Plans)
    requires Resolved(t, journal, base, plans[id := plan]) && id !in plans
    ensures forall o :: o in plans ==> Settled(plans[o], base, t, Lookup(journal, o))
    ensures Settled(plan, base, t, Lookup(journal, id))
    ensures forall k :: (forall o :: o in plans ==> k !in plans[o]) ==>
              Lookup(t, k) == if Lookup(journal, id) == Some(JCommitted) && k in plan then plan[k] else Lookup(base, k)
  {
    var all := plans[id := plan];
    assert Settled(all[id], base, t, Lookup(journal, id));
    forall o | o in plans ensures Settled(plans[o], base, t, Lookup(journal, o)) {
      assert o in all && all[o] == plans[o];
    }
    forall k | k !in plan && (forall o :: o in plans ==> k !in plans[o]) ensures Lookup(t, k) == Lookup(base, k) {
      assert forall o :: o in all ==> k !in all[o];
    }
  }

  // ------------------------------------------------------------------
  // Authority: SQL digests describe the files
  // ------------------------------------------------------------------

  /** Every artifact SQL knows exists and has the digest SQL recorded. */
  predicate Authoritative(rows: map<Key, Row>, targets: map<Key, File>) {
    forall k :: k in rows ==> k in targets && DigestFile(targets[k]) == Some(rows[k].digest)
  }

  /** The metadata handed to the commit is about the files the operation leaves behind. */
  predicate Describing(rows: map<Key, Row>, targets: map<Key, File>, plan: Plan, active: seq<Metadata>,
      deleted: seq<Deletion>)
  {
    && (forall i :: 0 <= i < |active| ==>
          var file := if active[i].key in plan then plan[active[i].key] else Lookup(targets, active[i].key);
          file.Some? && DigestFile(file.value) == Some(active[i].row.digest))
    && (forall k :: k in plan && k in rows ==>
          || (exists i :: 0 <= i < |active| && active[i].key == k)
          || (Deletion(k, rows[k].owner) in deleted))
  }

  /** A refresh that describes its files keeps SQL authoritative over them when it takes effect. */
  lemma RefreshKeepsAuthority(clients: set<Id>, rows: map<Key, Row>, t: map<Key, File>, t': map<Key, File>,
                              plan: Plan, active: seq<Metadata>, deleted: seq<Deletion>)
    requires Authoritative(rows, t) && Acceptable(clients, rows, active, deleted)
    requires Describing(rows, t, plan, active, deleted)
    requires forall k :: Lookup(t', k) == if k in plan then plan[k] else Lookup(t, k)
    ensures Authoritative(Applied(rows, active, deleted), t')
  {
    var upserted := Upserted(rows, active);
    UpsertedMeaning(rows, active);
    RetiredMeaning(upserted, deleted);
    forall k | k in Applied(rows, active, deleted)
      ensures k in t' && DigestFile(t'[k]) == Some(Applied(rows, active, deleted)[k].digest)
    {
      assert Lookup(Applied(rows, active, deleted), k).Some?;
      assert k in upserted && Applied(rows, active, deleted)[k] == upserted[k];
      assert Lookup(t', k) == if k in plan then plan[k] else Lookup(t, k);
      if i :| 0 <= i < |active| && active[i].key == k {
        assert Lookup(upserted, active[i].key) == Some(active[i].row);
      } else {
        assert Lookup(upserted, k) == Lookup(rows, k);
      }
    }
  }

  /**
   What a retry over an interrupted operation comes to: SQL is authoritative over the file it has committed,
   and the later rollback of the interrupted operation, which goes through, takes the file away.
   */
  lemma RetryBreaksAuthority(key: Key, file: File, rows: map<Key, Row>, t: map<Key, File>) returns (e: Entry, s: Slot)
    requires ValidKey(key) && SafeMode(file.mode) && Authoritative(rows, t)
    requires key in rows && key in t && t[key] == file
    ensures SlotOk(e, None, Some(file), s) && e.key == key && Lookup(t, key) == s.target
    ensures RollbackDecision(e, s) != Refuse && AfterRollback(e, s).target.None?
    ensures !Authoritative(rows, t - {key})
  {
    e, s := RetryIsUndone(key, file, true);
  }
}
