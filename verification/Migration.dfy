/**
 The offline migration of an instance's business tree: a snapshot, a staged copy, entries
 replaced one by one under a marker, and a recovery that puts the snapshot back unless the
 marker says committed.
 */
module Migration {
  import opened Results
  import opened Faults

  // ------------------------------------------------------------------
  // The business tree and its archive
  // ------------------------------------------------------------------

  datatype Name = Cache | Ccd | Clients | Config | Data | Meta | Pki | Secrets | Server

  const BACKUP_ENTRIES := [Cache, Ccd, Clients, Config, Data, Meta, Pki, Secrets, Server]
  const INSTALL_ENTRIES := [Cache, Ccd, Clients, Config, Meta, Server]

  const MAX_FILE := 16 * 1024 * 1024
  const MAX_TOTAL := 1024 * 1024 * 1024

  type OperationId = nat
  type Path = nat

  datatype File = File(content: nat, size: nat)

  /** The entries that exist and the files below them. */
  datatype Tree = Tree(names: set<Name>, files: map<(Name, Path), File>)

  function Remove(t: Tree, n: Name): Tree {
    Tree(t.names - {n}, map k | k in t.files && k.0 != n :: t.files[k])
  }

  /** `t` with its entry `n` replaced by the one of `source`. */
  function Replace(t: Tree, n: Name, source: Tree): Tree {
    Tree(t.names + {n}, map k | k in t.files.Keys + source.files.Keys &&
      (if k.0 == n then k in source.files else k in t.files)
                         :: if k.0 == n then source.files[k] else t.files[k])
  }

  datatype Header = Dir(name: Name) | Reg(key: (Name, Path), file: File)

  /** The tree an archive describes; no file may come twice. */
  function Extract(archive: seq<Header>): Option<Tree> {
    if archive == [] then Some(Tree({}, map[]))
    else
      match Extract(archive[..|archive| - 1])
      case None => None
      case Some(t) => ExtractOne(t, archive[|archive| - 1])
  }

  function ExtractOne(t: Tree, header: Header): Option<Tree> {
    match header
    case Dir(n) => Some(t.(names := t.names + {n}))
    case Reg(key, file) =>
      if key in t.files then None else Some(Tree(t.names + {key.0}, t.files[key := file]))
  }

  function Total(archive: seq<Header>): nat {
    if archive == [] then 0
    else
      var last := archive[|archive| - 1];
      Total(archive[..|archive| - 1]) + (if last.Reg? then last.file.size else 0)
  }

  /** What the files of a tree weigh together. */
  ghost function Weight(files: map<(Name, Path), File>): nat
    decreases |files|
  {
    if files == map[] then 0
    else
      var k :| k in files;
      Weight(files - {k}) + files[k].size
  }

  lemma {:induction false} WeightWithout(files: map<(Name, Path), File>, k: (Name, Path))
    requires k in files
    ensures Weight(files) == Weight(files - {k}) + files[k].size
    decreases |files|
  {
    var first :| first in files && Weight(files) == Weight(files - {first}) + files[first].size;
    if first != k {
      WeightWithout(files - {first}, k);
      WeightWithout(files - {k}, first);
      assert files - {first} - {k} == files - {k} - {first};
    }
  }

  /** The total an extraction counts is the weight of the tree it makes. */
  lemma {:induction false} TotalIsWeight(archive: seq<Header>)
    requires Extract(archive).Some?
    ensures Total(archive) == Weight(Extract(archive).value.files)
    decreases |archive|
  {
    if archive != [] {
      var shorter := archive[..|archive| - 1];
      TotalIsWeight(shorter);
      var last := archive[|archive| - 1];
      if last.Reg? {
        var files := Extract(shorter).value.files;
        WeightWithout(files[last.key := last.file], last.key);
        assert files[last.key := last.file] - {last.key} == files;
      }
    }
  }

  lemma {:induction false} PrefixExtracts(archive: seq<Header>, n: nat)
    requires Extract(archive).Some? && n <= |archive|
    ensures Extract(archive[..n]).Some? && Total(archive[..n]) <= Total(archive)
    decreases |archive|
  {
    if n < |archive| {
      PrefixExtracts(archive[..|archive| - 1], n);
      assert archive[..|archive| - 1][..n] == archive[..n];
    } else {
      assert archive[..n] == archive;
    }
  }

  ghost predicate Limited(archive: seq<Header>) {
    forall h :: h in archive && h.Reg? ==> h.file.size <= MAX_FILE
  }

  /** A tree in which every file lies below an entry that exists. */
  ghost predicate Proper(t: Tree) {
    forall k :: k in t.files ==> k.0 in t.names
  }

  function PartOf(t: Tree, names: set<Name>): Tree {
    Tree(t.names * names, map k | k in t.files && k.0 in names :: t.files[k])
  }

  lemma BackupIsAll(n: Name)
    ensures n in BACKUP_ENTRIES
  {
    match n {
      case Cache => assert BACKUP_ENTRIES[0] == n;
      case Ccd => assert BACKUP_ENTRIES[1] == n;
      case Clients => assert BACKUP_ENTRIES[2] == n;
      case Config => assert BACKUP_ENTRIES[3] == n;
      case Data => assert BACKUP_ENTRIES[4] == n;
      case Meta => assert BACKUP_ENTRIES[5] == n;
      case Pki => assert BACKUP_ENTRIES[6] == n;
      case Secrets => assert BACKUP_ENTRIES[7] == n;
      case Server => assert BACKUP_ENTRIES[8] == n;
    }
  }

  lemma AppendExtracts(archive: seq<Header>, header: Header)
    requires Extract(archive).Some?
    ensures Extract(archive + [header]) == ExtractOne(Extract(archive).value, header)
  {
    assert (archive + [header])[..|archive|] == archive;
  }

  /** `was` with an entry `n` of which the files `added` of `t` are already there. */
  function Adding(was: Tree, n: Name, t: Tree, added: set<(Name, Path)>): Tree
    requires added <= t.files.Keys
  {
    Tree(was.names + {n}, was.files + (map k | k in added :: t.files[k]))
  }

  lemma AddOne(was: Tree, n: Name, t: Tree, added: set<(Name, Path)>, k: (Name, Path))
    requires added <= t.files.Keys && k in t.files && k !in added && k !in was.files && k.0 == n
    ensures ExtractOne(Adding(was, n, t, added), Reg(k, t.files[k])) == Some(Adding(was, n, t, added + {k}))
  {
    var one := ExtractOne(Adding(was, n, t, added), Reg(k, t.files[k])).value;
    assert one.names == Adding(was, n, t, added + {k}).names;
    assert one.files == Adding(was, n, t, added + {k}).files;
  }

  lemma AddedAll(was: Tree, n: Name, t: Tree, added: set<(Name, Path)>)
    requires forall k :: k in added <==> k in t.files && k.0 == n
    requires forall k :: k in was.files ==> k.0 != n
    ensures Adding(was, n, t, added) == Replace(was, n, t)
  {
    assert Adding(was, n, t, added).files == Replace(was, n, t).files;
  }

  /** The archive of one existing entry, appended to the archive of the entries before it. */
  method AppendTree(t: Tree, n: Name, archive: seq<Header>) returns (ok: bool, longer: seq<Header>)
    requires n in t.names && Limited(archive)
    requires Extract(archive).Some? && forall k :: k in Extract(archive).value.files ==> k.0 != n
    ensures ok <==> forall k :: k in t.files && k.0 == n ==> t.files[k].size <= MAX_FILE
    ensures ok ==> Limited(longer)
    ensures ok ==> Extract(longer) == Some(Replace(Extract(archive).value, n, t))
  {
    longer := archive + [Dir(n)];
    AppendExtracts(archive, Dir(n));
    ghost var was := Extract(archive).value;
    var rest := set k | k in t.files && k.0 == n;
    ok := true;
    ghost var added := {};
    assert Adding(was, n, t, {}).files == was.files;
    hide ExtractOne, Extract, Adding, Replace;
    while rest != {}
      invariant forall k :: k in added + rest <==> k in t.files && k.0 == n
      invariant added !! rest && Limited(longer)
      invariant forall k :: k in added ==> t.files[k].size <= MAX_FILE
      invariant Extract(longer) == Some(Adding(was, n, t, added))
    {
      var k :| k in rest;
      if t.files[k].size > MAX_FILE {
        return false, [];
      }
      AppendExtracts(longer, Reg(k, t.files[k]));
      AddOne(was, n, t, added, k);
      longer := longer + [Reg(k, t.files[k])];
      added := added + {k};
      rest := rest - {k};
    }
    AddedAll(was, n, t, added);
  }

  lemma PartGrows(t: Tree, names: set<Name>, n: Name)
    requires n !in names && Proper(t)
    ensures PartOf(t, names + {n}) == if n in t.names then Replace(PartOf(t, names), n, t) else PartOf(t, names)
  {
    if n in t.names {
      assert PartOf(t, names + {n}).names == Replace(PartOf(t, names), n, t).names;
      assert PartOf(t, names + {n}).files == Replace(PartOf(t, names), n, t).files;
    } else {
      assert PartOf(t, names + {n}).names == PartOf(t, names).names;
      assert PartOf(t, names + {n}).files == PartOf(t, names).files;
    }
  }

  lemma EntriesDistinct(i: nat, j: nat)
    requires i < j < |BACKUP_ENTRIES|
    ensures BACKUP_ENTRIES[i] != BACKUP_ENTRIES[j]
  {
  }

  /** The archive of the whole tree extracts to that tree. It is made unless a file exceeds the per-file limit. */
  method Archive(t: Tree) returns (ok: bool, archive: seq<Header>)
    requires Proper(t)
    ensures ok <==> forall k :: k in t.files ==> t.files[k].size <= MAX_FILE
    ensures ok ==> Limited(archive) && Extract(archive) == Some(t)
  {
    archive, ok := [], true;
    var index := 0;
    ghost var names: set<Name> := {};
    assert PartOf(t, names) == Tree({}, map[]) by {
      assert PartOf(t, names).names == {} && PartOf(t, names).files == map[];
    }
    while index < |BACKUP_ENTRIES|
      invariant 0 <= index <= |BACKUP_ENTRIES| && ok && Limited(archive)
      invariant forall n :: n in names <==> exists i :: 0 <= i < index && BACKUP_ENTRIES[i] == n
      invariant Extract(archive) == Some(PartOf(t, names))
      invariant forall k :: k in t.files && k.0 in names ==> t.files[k].size <= MAX_FILE
    {
      var n := BACKUP_ENTRIES[index];
      forall i | 0 <= i < index ensures BACKUP_ENTRIES[i] != n {
        EntriesDistinct(i, index);
      }
      PartGrows(t, names, n);
      if n in t.names {
        ok, archive := AppendTree(t, n, archive);
        if !ok {
          return;
        }
      }
      names := names + {n};
      index := index + 1;
    }
    forall n: Name ensures n in names {
      BackupIsAll(n);
    }
    assert PartOf(t, names).names == t.names;
    assert PartOf(t, names).files == t.files;
  }

  // ------------------------------------------------------------------
  // The data directory
  // ------------------------------------------------------------------

  datatype MarkerState = SnapshotReady | Staged | Installing | Committed

  /** The marker carries the digest of the snapshot, which determines it. */
  datatype Marker = Marker(state: MarkerState, operation: OperationId, digest: seq<Header>, installed: set<Name>)

  /** The tree with every installed entry replaced by its staged one; the other entries stay. */
  function Migrated(before: Tree, staged: Tree, count: nat): Tree
    requires count <= |INSTALL_ENTRIES|
  {
    if count == 0 then before else Replace(Migrated(before, staged, count - 1), INSTALL_ENTRIES[count - 1], staged)
  }

  function After(before: Tree, staged: Tree): Tree {
    Migrated(before, staged, |INSTALL_ENTRIES|)
  }

  /** Two trees agree on an entry. */
  ghost predicate SameEntry(a: Tree, b: Tree, n: Name) {
    && (n in a.names <==> n in b.names)
    && (forall k: (Name, Path) :: k.0 == n ==> (k in a.files <==> k in b.files))
    && (forall k: (Name, Path) :: k.0 == n && k in a.files && k in b.files ==> a.files[k] == b.files[k])
  }

  lemma MovedIn(t: Tree, n: Name, stage: Tree, staged: Tree)
    requires SameEntry(stage, staged, n)
    ensures Replace(Remove(t, n), n, stage) == Replace(t, n, staged)
  {
    var a, b := Replace(Remove(t, n), n, stage).files, Replace(t, n, staged).files;
    assert Replace(Remove(t, n), n, stage).names == Replace(t, n, staged).names;
    forall k: (Name, Path) ensures k in a <==> k in b {
      ReplacedAt(Remove(t, n), n, stage, k);
      ReplacedAt(t, n, staged, k);
    }
    forall k | k in a ensures a[k] == b[k] {
      ReplacedAt(Remove(t, n), n, stage, k);
      ReplacedAt(t, n, staged, k);
    }
    assert a == b by { hide SameEntry, Replace, Remove; }
  }

  lemma ReplacedAt(t: Tree, n: Name, source: Tree, k: (Name, Path))
    ensures k in Replace(t, n, source).files <==> (if k.0 == n then k in source.files else k in t.files)
    ensures k in Replace(t, n, source).files ==>
            Replace(t, n, source).files[k] == if k.0 == n then source.files[k] else t.files[k]
  {
  }

  lemma ReplaceMeaning(t: Tree, n: Name, source: Tree, other: Name)
    requires n in source.names
    ensures SameEntry(Replace(t, n, source), if other == n then source else t, other)
  {
    var r := Replace(t, n, source);
    forall k: (Name, Path) | k.0 == other
      ensures k in r.files <==> k in (if other == n then source else t).files
      ensures k in r.files ==> r.files[k] == (if other == n then source else t).files[k]
    {
      ReplacedAt(t, n, source, k);
    }
  }

  /** What is left in the stage once `n` is moved out still agrees on every other entry. */
  lemma MovedOut(stage: Tree, staged: Tree, n: Name, other: Name)
    requires SameEntry(stage, staged, other) && other != n
    ensures SameEntry(Remove(stage, n), staged, other)
  {
  }

  lemma InstallsDistinct(i: nat, j: nat)
    requires i < j < |INSTALL_ENTRIES|
    ensures INSTALL_ENTRIES[i] != INSTALL_ENTRIES[j]
  {
  }

  lemma MigratedProper(before: Tree, staged: Tree, count: nat)
    requires Proper(before) && count <= |INSTALL_ENTRIES|
    ensures Proper(Migrated(before, staged, count))
  {
  }

  /** What migrating means for each entry: installed entries are the staged ones, all others are untouched. */
  lemma AfterMeaning(before: Tree, staged: Tree, n: Name)
    requires forall i :: 0 <= i < |INSTALL_ENTRIES| ==> INSTALL_ENTRIES[i] in staged.names
    ensures SameEntry(After(before, staged),
              if n in {Cache, Ccd, Clients, Config, Meta, Server} then staged else before, n)
  {
    MigratedMeaning(before, staged, |INSTALL_ENTRIES|, n);
    assert INSTALL_ENTRIES[..|INSTALL_ENTRIES|] == INSTALL_ENTRIES;
  }

  lemma {:induction false} MigratedMeaning(before: Tree, staged: Tree, count: nat, n: Name)
    requires count <= |INSTALL_ENTRIES|
    requires forall i :: 0 <= i < |INSTALL_ENTRIES| ==> INSTALL_ENTRIES[i] in staged.names
    ensures SameEntry(Migrated(before, staged, count), if n in INSTALL_ENTRIES[..count] then staged else before, n)
  {
    hide Replace;
    if count > 0 {
      MigratedMeaning(before, staged, count - 1, n);
      ReplaceMeaning(Migrated(before, staged, count - 1), INSTALL_ENTRIES[count - 1], staged, n);
      assert INSTALL_ENTRIES[..count] == INSTALL_ENTRIES[..count - 1] + [INSTALL_ENTRIES[count - 1]];
    }
  }

  predicate AllSmall(t: Tree) {
    forall k :: k in t.files ==> t.files[k].size <= MAX_FILE
  }

  function Heavy(count: nat): Tree {
    Tree({Data}, map p | 0 <= p < count :: (Data, p) := File(0, MAX_FILE))
  }

  lemma {:induction false} HeavyWeighs(count: nat)
    ensures Weight(Heavy(count).files) == count * MAX_FILE
  {
    hide Weight, Heavy;
    if count == 0 {
      NothingWeighs();
    } else {
      HeavyWeighs(count - 1);
      OneLighter(count);
      WeightWithout(Heavy(count).files, (Data, count - 1));
    }
  }

  lemma NothingWeighs()
    ensures Weight(Heavy(0).files) == 0
  {
    assert Heavy(0).files == map[];
  }

  lemma OneLighter(count: nat)
    requires count > 0
    ensures (Data, count - 1) in Heavy(count).files && Heavy(count).files[(Data, count - 1)].size == MAX_FILE
    ensures Heavy(count).files - {(Data, count - 1)} == Heavy(count - 1).files
  {
    hide Weight;
  }

  /** A tree that is archived without objection, and whose archive is never restored. */
  lemma OversizedTree() returns (t: Tree)
    ensures Proper(t) && AllSmall(t) && Weight(t.files) > MAX_TOTAL
  {
    t := Heavy(65);
    HeavyWeighs(65);
  }

  class DataDirectory {
    // whether planning finds a tree already migrated
    const current: Tree -> bool
    var live: Tree
    var snapshot: Option<seq<Header>>
    // an unfinished snapshot file, which is only ever created anew
    var temporary: bool
    var marker: Option<Marker>
    var stages: map<OperationId, Tree>
    // whether a marker has ever said committed
    ghost var committed: bool

    /** The snapshot under the marker is the archive of `before`. */
    ghost predicate Saved(before: Tree)
      reads this
    {
      && marker.Some? && snapshot == Some(marker.value.digest)
      && Extract(snapshot.value) == Some(before) && Limited(snapshot.value)
    }

    /** Interrupted before its commit: the live tree may hold anything. */
    ghost predicate Interrupted(before: Tree)
      reads this
    {
      Saved(before) && !marker.value.state.Committed?
    }

    ghost predicate Quiet(tree: Tree)
      reads this
    {
      marker.None? && live == tree
    }

    ghost predicate CommittedTo(tree: Tree)
      reads this
    {
      marker.Some? && marker.value.state.Committed? && live == tree
    }

    /** A rename and a sync of the directory: if only the sync fails, an error is returned and the marker is there. */
    method WriteMarker(next: Marker, env: Environment) returns (outcome: Outcome)
      modifies this`marker, this`committed, env
      ensures outcome == Done ==> marker == Some(next)
      ensures || (marker == old(marker) && committed == old(committed))
              || (marker == Some(next) && committed == (old(committed) || next.state.Committed?))
      ensures outcome == Done && next.state.Committed? ==> committed
      ensures outcome != Refused && env.trouble == old(env.trouble) - (if outcome == Done then 0 else 1)
    {
      outcome := env.Step();
      if outcome == Done {
        marker := Some(next);
        committed := committed || next.state.Committed?;
        outcome := env.Step();
      }
    }

    method RemoveMarker(env: Environment) returns (outcome: Outcome)
      modifies this`marker, env
      ensures marker == if outcome == Done then None else old(marker)
      ensures outcome != Refused && env.trouble == old(env.trouble) - (if outcome == Done then 0 else 1)
    {
      outcome := env.Step();
      if outcome == Done {
        marker := None;
      }
    }

    /** RemoveAll on one live entry: a fault leaves any part of it. */
    method RemoveLive(n: Name, env: Environment) returns (outcome: Outcome)
      modifies this`live, env
      ensures outcome == Done ==> live == Remove(old(live), n)
      ensures live.names <= old(live).names && (Proper(old(live)) ==> Proper(live))
      ensures outcome != Refused && env.trouble == old(env.trouble) - (if outcome == Done then 0 else 1)
    {
      outcome := env.Step();
      if outcome == Done {
        live := Remove(live, n);
      } else {
        var gone: set<(Name, Path)> := *;
        live := live.(files := live.files - gone);
      }
    }

    method RemoveStage(id: OperationId, env: Environment) returns (outcome: Outcome)
      modifies this`stages, env
      ensures outcome != Refused && env.trouble == old(env.trouble) - (if outcome == Done then 0 else 1)
    {
      outcome := env.Step();
      if outcome == Done {
        stages := stages - {id};
      }
    }

    // ----------------------------------------------------------------
    // Restoring
    // ----------------------------------------------------------------

    method ClearLive(env: Environment) returns (outcome: Outcome)
      requires Proper(live)
      modifies this`live, env
      ensures outcome == Done ==> live == Tree({}, map[])
      ensures Proper(live)
      ensures outcome != Refused && env.trouble == old(env.trouble) - (if outcome == Done then 0 else 1)
    {
      outcome := Done;
      var index := 0;
      while index < |BACKUP_ENTRIES|
        invariant 0 <= index <= |BACKUP_ENTRIES| && outcome == Done
        invariant forall i :: 0 <= i < index ==> BACKUP_ENTRIES[i] !in live.names
        invariant Proper(live) && env.trouble == old(env.trouble)
      {
        outcome := RemoveLive(BACKUP_ENTRIES[index], env);
        if outcome != Done {
          return;
        }
        index := index + 1;
      }
      forall n: Name ensures n !in live.names {
        BackupIsAll(n);
      }
      assert live.names == {};
      assert live.files == map[];
    }

    /**
     Puts the snapshot back in place of whatever is live. The total size is only looked at
     while extracting, when the live tree is already gone.
     */
    method RestoreSnapshot(archive: seq<Header>, ghost before: Tree, env: Environment) returns (outcome: Outcome)
      requires Proper(live) && Proper(before) && Extract(archive) == Some(before) && Limited(archive)
      modifies this`live, env
      ensures Proper(live)
      ensures outcome == Done ==> live == before && Weight(before.files) <= MAX_TOTAL
      ensures outcome == Refused ==> Weight(before.files) > MAX_TOTAL >= Weight(live.files)
      ensures env.trouble == old(env.trouble) - (if outcome == Failed || outcome == Crashed then 1 else 0)
    {
      TotalIsWeight(archive);
      outcome := ClearLive(env);
      if outcome != Done {
        return;
      }
      var index, total := 0, 0;
      assert archive[..0] == [];
      while index < |archive|
        invariant 0 <= index <= |archive| && outcome == Done
        invariant Extract(archive[..index]) == Some(live) && Proper(live)
        invariant total == Total(archive[..index]) <= MAX_TOTAL
        invariant env.trouble == old(env.trouble)
      {
        var header := archive[index];
        PrefixExtracts(archive, index + 1);
        assert archive[..index + 1][..index] == archive[..index];
        if header.Reg? {
          total := total + header.file.size;
          if header.file.size > MAX_FILE || total > MAX_TOTAL {
            TotalIsWeight(archive[..index]);
            return Refused;
          }
        }
        outcome := env.Step();
        if outcome != Done {
          return;
        }
        live := ExtractOne(live, header).value;
        index := index + 1;
      }
      assert archive[..index] == archive;
      outcome := env.Step();
    }

    ghost predicate Settled(tree: Tree)
      reads this
    {
      Proper(tree) && Proper(live) && (Quiet(tree) || CommittedTo(tree))
    }

    /** The directory stands for `tree`: it holds it, has committed to it, or is to be put back to it. */
    ghost predicate StandsFor(tree: Tree)
      reads this
    {
      Settled(tree) || (Proper(tree) && Proper(live) && Interrupted(tree))
    }

    /** Puts an interrupted migration back, keeps a committed one. What the directory stands for never changes. */
    method RecoverInterrupted(ghost tree: Tree, env: Environment) returns (outcome: Outcome, recovered: bool)
      requires StandsFor(tree)
      modifies this`live, this`marker, this`stages, env
      ensures StandsFor(tree) && (old(Settled(tree)) ==> Settled(tree))
      ensures outcome == Done ==> Quiet(tree) && (recovered <==> old(marker).Some?)
      ensures outcome == Done && !old(Settled(tree)) ==>
              Extract(old(snapshot).value) == Some(tree) && Limited(old(snapshot).value)
      ensures outcome == Done && !old(Settled(tree)) ==> Weight(tree.files) <= MAX_TOTAL
      ensures outcome == Refused ==> !old(Settled(tree)) && Interrupted(tree) && Weight(tree.files) > MAX_TOTAL
      ensures env.trouble + (if outcome == Failed || outcome == Crashed then 1 else 0) <= old(env.trouble)
      ensures old(marker).Some? && marker.Some? ==> marker == old(marker)
      ensures old(marker).None? ==> outcome == Done && live == old(live)
    {
      recovered := false;
      if marker.None? {
        return Done, false;
      }
      var stage := marker.value.operation;
      if !marker.value.state.Committed? {
        if snapshot != Some(marker.value.digest) {
          return Refused, false;
        }
        outcome := RestoreSnapshot(snapshot.value, tree, env);
        if outcome != Done {
          return;
        }
      }
      var removal := RemoveStage(stage, env);
      if removal == Crashed {
        return Crashed, false;
      }
      outcome := RemoveMarker(env);
      recovered := outcome == Done;
    }

    // ----------------------------------------------------------------
    // Migrating
    // ----------------------------------------------------------------

    /** Writes the snapshot under a temporary name that must be free, then renames it. */
    method CreateSnapshot(env: Environment) returns (outcome: Outcome)
      requires Proper(live)
      modifies this`snapshot, this`temporary, env
      ensures outcome == Done ==> snapshot.Some? && Extract(snapshot.value) == Some(live) && Limited(snapshot.value)
      ensures outcome == Done ==> !old(temporary) && AllSmall(live)
      ensures outcome == Refused ==> old(temporary) || !AllSmall(live)
      ensures env.trouble + (if outcome == Failed || outcome == Crashed then 1 else 0) <= old(env.trouble)
    {
      if temporary {
        return Refused;
      }
      outcome := env.Step();
      if outcome != Done {
        return;
      }
      temporary := true;
      var ok, archive := Archive(live);
      outcome := env.Step();
      if outcome == Done && ok {
        snapshot, temporary := Some(archive), false;
        // the directory sync
        outcome := env.Step();
        return;
      }
      if outcome != Crashed {
        var removal := env.Step();
        if removal == Done {
          temporary := false;
        }
        if removal == Crashed {
          outcome := Crashed;
        } else if outcome == Done {
          outcome := Refused;
        }
      }
    }

    /** Copies the tree into a new stage directory and converts it there. */
    method BuildStage(id: OperationId, staged: Tree, env: Environment) returns (outcome: Outcome)
      modifies this`stages, env
      ensures outcome == Done ==> id in stages && stages[id] == staged
      ensures outcome != Refused && env.trouble == old(env.trouble) - (if outcome == Done then 0 else 1)
    {
      outcome := env.Step();
      var built := staged;
      if outcome != Done {
        built := *;
      }
      stages := stages[id := built];
    }

    method InstallEntry(n: Name, id: OperationId, ghost staged: Tree, env: Environment) returns (outcome: Outcome)
      requires Proper(live) && id in stages && n in stages[id].names && SameEntry(stages[id], staged, n)
      modifies this`live, this`stages, env
      ensures Proper(live)
      ensures outcome == Done ==>
              live == Replace(old(live), n, staged) && stages == old(stages)[id := Remove(old(stages)[id], n)]
      ensures outcome != Refused && env.trouble == old(env.trouble) - (if outcome == Done then 0 else 1)
    {
      MovedIn(live, n, stages[id], staged);
      outcome := RemoveLive(n, env);
      if outcome != Done {
        return;
      }
      outcome := env.Step();
      if outcome != Done {
        return;
      }
      live, stages := Replace(live, n, stages[id]), stages[id := Remove(stages[id], n)];
      // the directory sync
      outcome := env.Step();
    }

    method InstallEntries(id: OperationId, ghost staged: Tree, ghost before: Tree, env: Environment)
        returns (outcome: Outcome)
      requires Interrupted(before) && live == before && Proper(before) && id in stages && stages[id] == staged
      requires forall i :: 0 <= i < |INSTALL_ENTRIES| ==> INSTALL_ENTRIES[i] in staged.names
      modifies this`live, this`stages, this`marker, this`committed, env
      ensures Interrupted(before) && Proper(live) && committed == old(committed)
      ensures outcome == Done ==> live == After(before, staged)
      ensures outcome != Refused && env.trouble == old(env.trouble) - (if outcome == Done then 0 else 1)
    {
      outcome := Done;
      var index := 0;
      while index < |INSTALL_ENTRIES|
        invariant 0 <= index <= |INSTALL_ENTRIES| && outcome == Done
        invariant Interrupted(before) && committed == old(committed) && Proper(live) &&
                  live == Migrated(before, staged, index)
        invariant id in stages
        invariant forall i :: index <= i < |INSTALL_ENTRIES| ==> SameEntry(stages[id], staged, INSTALL_ENTRIES[i])
        invariant env.trouble == old(env.trouble)
      {
        var n := INSTALL_ENTRIES[index];
        ghost var stage := stages[id];
        outcome := InstallEntry(n, id, staged, env);
        if outcome != Done {
          return;
        }
        forall i | index < i < |INSTALL_ENTRIES| ensures SameEntry(stages[id], staged, INSTALL_ENTRIES[i]) {
          InstallsDistinct(index, i);
          MovedOut(stage, staged, n, INSTALL_ENTRIES[i]);
        }
        outcome := WriteMarker(marker.value.(installed := marker.value.installed + {n}), env);
        if outcome != Done {
          return;
        }
        index := index + 1;
      }
    }

    /** From the marker over a fresh or reused snapshot to the committed tree. */
    method Migrate(id: OperationId, staged: Tree, ghost before: Tree, env: Environment) returns (outcome: Outcome)
      requires Quiet(before) && Proper(before)
      requires snapshot.Some? && Extract(snapshot.value) == Some(before) && Limited(snapshot.value)
      requires forall i :: 0 <= i < |INSTALL_ENTRIES| ==> INSTALL_ENTRIES[i] in staged.names
      modifies this`live, this`stages, this`marker, this`committed, env
      ensures StandsFor(before) || Settled(After(before, staged))
      ensures !old(committed) ==> if committed then Settled(After(before, staged)) else StandsFor(before)
      ensures outcome == Done ==> Quiet(After(before, staged)) && committed
      ensures outcome != Refused && env.trouble == old(env.trouble) - (if outcome == Done then 0 else 1)
    {
      MigratedProper(before, staged, |INSTALL_ENTRIES|);
      outcome := WriteMarker(Marker(SnapshotReady, id, snapshot.value, {}), env);
      if outcome != Done {
        return;
      }
      outcome := BuildStage(id, staged, env);
      if outcome != Done {
        return;
      }
      outcome := WriteMarker(marker.value.(state := Staged), env);
      if outcome != Done {
        return;
      }
      outcome := WriteMarker(marker.value.(state := Installing), env);
      if outcome != Done {
        return;
      }
      outcome := InstallEntries(id, staged, before, env);
      if outcome != Done {
        return;
      }
      outcome := WriteMarker(marker.value.(state := Committed), env);
      if outcome != Done {
        return;
      }
      outcome := RemoveStage(id, env);
      if outcome != Done {
        return;
      }
      outcome := RemoveMarker(env);
      if outcome == Done {
        // the directory sync
        outcome := env.Step();
      }
    }

    /** Exactly when a migration without faults succeeds, or finds nothing to do. */
    ghost predicate Acceptable(tree: Tree)
      reads this
    {
      if marker.None? then current(tree) || (snapshot.None? && !temporary && AllSmall(tree))
      else marker.value.state.Committed? || Weight(tree.files) <= MAX_TOTAL
    }

    /**
     The whole transaction. Whatever interrupts it, the directory stands for the tree it stood
     for before or for the migrated one.
     */
    method Apply(id: OperationId, staged: Tree, ghost before: Tree, env: Environment)
      returns (outcome: Outcome, applied: bool)
      requires StandsFor(before) && (marker.Some? && marker.value.state.Committed? ==> current(before))
      requires forall i :: 0 <= i < |INSTALL_ENTRIES| ==> INSTALL_ENTRIES[i] in staged.names
      modifies this, env
      ensures StandsFor(before) || Settled(After(before, staged))
      ensures !old(committed) ==> if committed then Settled(After(before, staged)) else StandsFor(before)
      ensures applied ==> committed
      ensures outcome == Done ==> Quiet(if applied then After(before, staged) else before)
      ensures applied <==> outcome == Done && !current(before)
      ensures outcome == Refused ==> !old(Acceptable(before)) && StandsFor(before)
      ensures outcome == Done ==> old(Acceptable(before))
      ensures outcome == Failed || outcome == Crashed ==> env.trouble < old(env.trouble)
    {
      applied := false;
      var recovered;
      outcome, recovered := RecoverInterrupted(before, env);
      if outcome != Done {
        return;
      }
      if current(live) {
        return;
      }
      if !recovered {
        if snapshot.Some? {
          return Refused, false;
        }
        outcome := CreateSnapshot(env);
        if outcome != Done {
          return;
        }
      }
      // the digest file beside the snapshot
      outcome := env.Step();
      if outcome != Done {
        return;
      }
      outcome := Migrate(id, staged, before, env);
      applied := outcome == Done;
    }
  }

  /**
   A migration from a quiet directory, cut anywhere, then recoveries cut anywhere: the tree ends as
   it was or migrated as a whole, and migrated exactly if its marker has ever said committed.
   */
  method ApplyThroughCrashes(d: DataDirectory, id: OperationId, staged: Tree, env: Environment)
    returns (outcome: Outcome, applied: bool)
    requires d.marker.None? && !d.committed && Proper(d.live) && Weight(d.live.files) <= MAX_TOTAL
    requires forall i :: 0 <= i < |INSTALL_ENTRIES| ==> INSTALL_ENTRIES[i] in staged.names
    modifies d, env
    ensures d.Quiet(if d.committed then After(old(d.live), staged) else old(d.live))
    ensures applied <==> outcome == Done && !d.current(old(d.live))
    ensures applied ==> d.committed
  {
    ghost var before := d.live;
    outcome, applied := d.Apply(id, staged, before, env);
    ghost var committed := d.committed;
    ghost var tree := if committed then After(before, staged) else before;
    var recovery, recovered := d.RecoverInterrupted(tree, env);
    while recovery != Done
      invariant d.StandsFor(tree) && (committed ==> d.Settled(tree)) && d.committed == committed
      invariant recovery == Done ==> d.Quiet(tree)
      invariant recovery == Refused ==> d.Interrupted(tree) && Weight(tree.files) > MAX_TOTAL
      decreases env.trouble, recovery != Done
    {
      recovery, recovered := d.RecoverInterrupted(tree, env);
    }
  }
}
