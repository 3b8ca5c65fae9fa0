/**
 First initialization of a data directory: everything is built in a stage directory, moved
 entry by entry into place, and committed, under a marker file that says how far it got.
 A crash while staging is undone, a later one is resumed forward.
 */
module Initialize {
  import opened Results
  import opened Faults
  import opened StateJournal

  // ------------------------------------------------------------------
  // The directory
  // ------------------------------------------------------------------

  datatype Name = Pki | Secrets | Server | Clients | Ccd | Meta

  const ENTRIES := [Pki, Secrets, Server, Clients, Ccd, Meta]

  /** A directory tree, told apart by its content alone. */
  type Tree = nat

  datatype MarkerState = Staging | Prepared | Installing | FilesInstalled | Committed

  datatype Marker = Marker(state: MarkerState, moved: set<Name>)

  lemma EntriesAreAll(n: Name)
    ensures n in ENTRIES
  {
    match n {
      case Pki => assert ENTRIES[0] == n;
      case Secrets => assert ENTRIES[1] == n;
      case Server => assert ENTRIES[2] == n;
      case Clients => assert ENTRIES[3] == n;
      case Ccd => assert ENTRIES[4] == n;
      case Meta => assert ENTRIES[5] == n;
    }
  }

  /** Each entry is in exactly one of the stage and its final place, with the content that was built. */
  ghost predicate Split(staged: map<Name, Tree>, installed: map<Name, Tree>, built: map<Name, Tree>) {
    forall n: Name :: n in built
                      && (n in staged <==> n !in installed)
                      && (n in staged ==> staged[n] == built[n])
                      && (n in installed ==> installed[n] == built[n])
  }

  /** From the prepared marker on: what the directory holds, and what the marker and the SQL operation then say. */
  ghost predicate Underway(staged: map<Name, Tree>, installed: map<Name, Tree>, marker: Marker,
      operation: Option<JournalState>,
                           built: map<Name, Tree>) {
    && Split(staged, installed, built)
    && !marker.state.Staging?
    && marker.moved <= installed.Keys
    && (operation == Some(JPrepared) || operation == Some(JFilesInstalled) || operation == Some(JCommitted))
    && (marker.state.FilesInstalled? || marker.state.Committed? || operation != Some(JPrepared) ==> staged == map[])
    && (marker.state.FilesInstalled? ==> operation != Some(JPrepared))
    && (marker.state.Committed? ==> operation == Some(JCommitted))
  }

  predicate NoneMissing(staged: map<Name, Tree>, installed: map<Name, Tree>) {
    forall n: Name :: n in staged || n in installed
  }

  lemma MoveOne(staged: map<Name, Tree>, installed: map<Name, Tree>, built: map<Name, Tree>, n: Name)
    requires Split(staged, installed, built) && n in staged
    ensures Split(staged - {n}, installed[n := staged[n]], built)
  {
  }

  lemma AllMoved(staged: map<Name, Tree>, installed: map<Name, Tree>, built: map<Name, Tree>)
    requires Split(staged, installed, built)
    requires forall k :: 0 <= k < |ENTRIES| ==> ENTRIES[k] in installed
    ensures staged == map[] && installed == built
  {
    forall n: Name ensures n in installed {
      EntriesAreAll(n);
    }
  }

  /** What the two calls of a deferred clean-up returned; `kept` tells whether every entry is still staged. */
  datatype Abandoned = Abandoned(stage: Outcome, kept: bool, marker: Outcome)

  /** The marker went and the stage did not. */
  predicate LeftStage(abandoned: Option<Abandoned>) {
    abandoned.Some? && abandoned.value.stage == Failed && abandoned.value.marker == Done
  }

  /** The marker stayed and entries of the stage went. */
  predicate LostEntries(abandoned: Option<Abandoned>) {
    abandoned.Some? && !abandoned.value.kept && abandoned.value.marker != Done
  }

  class DataDirectory {
    // what the instance validation says of a set of trees; the state of the operation does not enter it
    const validates: map<Name, Tree> -> bool
    var marker: Option<Marker>
    var stage: Option<map<Name, Tree>>
    var installed: map<Name, Tree>
    // the initialization's row in the instance database, which is part of the Meta tree
    var operation: Option<JournalState>
    // the file a marker is written to before it is renamed into place
    var temporary: bool
    // anything else in the directory
    var foreign: bool
    // whether the marker has ever said prepared
    ghost var prepared: bool

    function Staged(): map<Name, Tree>
      reads this`stage
    {
      if stage.Some? then stage.value else map[]
    }

    predicate Bare()
      reads this
    {
      marker.None? && stage.None? && installed == map[] && !foreign
    }

    predicate Empty()
      reads this
    {
      Bare() && !temporary
    }

    /**
     All that is left is the temporary file of a marker, which nobody removes, so the directory counts as in
     use for ever.
     */
    predicate Littered()
      reads this
    {
      Bare() && temporary
    }

    ghost predicate StagingOk()
      reads this
    {
      marker.Some? && marker.value.state.Staging? && installed == map[] && !foreign
    }

    ghost predicate InstallingOk(built: map<Name, Tree>)
      reads this
    {
      marker.Some? && Underway(Staged(), installed, marker.value, operation, built) && validates(built) && !foreign
    }

    predicate Finished(built: map<Name, Tree>)
      reads this
    {
      marker.None? && stage.None? && installed == built && operation == Some(JCommitted) && !foreign && !temporary
    }

    /** The marker is gone but the stage is not, so the directory counts as in use for ever. */
    predicate Stranded()
      reads this
    {
      marker.None? && stage.Some? && installed == map[] && !foreign
    }

    /** The marker says that everything has been built, but an entry is nowhere: recovery gives up on it for ever. */
    predicate Ambiguous()
      reads this`marker, this`stage, this`installed
    {
      marker.Some? && !marker.value.state.Staging? && !NoneMissing(Staged(), installed)
    }

    // ----------------------------------------------------------------
    // Durable steps
    // ----------------------------------------------------------------

    /**
     The marker is written to a temporary file, which is renamed into place, and the directory is synced. If
     only the sync fails, an error is returned and the marker is there; if it does not come to the rename, a
     crash, or an error whose clean-up fails unnoticed, leaves the temporary file.
     */
    method WriteMarker(next: Marker, env: Environment) returns (outcome: Outcome)
      modifies this`marker, this`temporary, this`prepared, env
      ensures outcome == Done ==> marker == Some(next)
      ensures || (marker == old(marker) && prepared == old(prepared))
              || (marker == Some(next) && !temporary && prepared == (old(prepared) || next.state.Prepared?))
      ensures outcome == Done && next.state.Prepared? ==> prepared
      ensures outcome == Done ==> !temporary
      ensures temporary && !old(temporary) ==> outcome == Crashed || env.trouble + 2 <= old(env.trouble)
      ensures outcome != Refused && (outcome == Done ==> env.trouble == old(env.trouble))
      ensures outcome != Done ==> env.trouble < old(env.trouble)
    {
      // the temporary file of an earlier attempt
      outcome := env.Step();
      if outcome != Done {
        return;
      }
      temporary := false;
      outcome := env.Step();
      if outcome != Done {
        return;
      }
      temporary := true;
      // its content, sync and close
      outcome := env.Step();
      if outcome == Done {
        outcome := env.Step();
        if outcome == Done {
          marker, temporary := Some(next), false;
          prepared := prepared || next.state.Prepared?;
          // the directory sync
          outcome := env.Step();
          return;
        }
      }
      if outcome == Failed {
        var removal := env.Step();
        if removal == Done {
          temporary := false;
        } else if removal == Crashed {
          outcome := Crashed;
        }
      }
    }

    method RemoveMarker(env: Environment) returns (outcome: Outcome)
      modifies this`marker, env
      ensures marker == if outcome == Done then None else old(marker)
      ensures outcome != Refused && env.trouble == old(env.trouble) - (if outcome == Done then 0 else 1)
    {
      outcome := env.Step();
      if outcome == Done {
        marker := None;
      }
    }

    /** RemoveAll: a fault leaves any part of the stage behind. */
    method RemoveStage(env: Environment) returns (outcome: Outcome)
      modifies this`stage, env
      ensures stage.None? <==> outcome == Done
      ensures Staged().Keys <= old(Staged()).Keys && (forall n :: n in Staged() ==> Staged()[n] == old(Staged())[n])
      ensures outcome != Refused && env.trouble == old(env.trouble) - (if outcome == Done then 0 else 1)
    {
      if stage.None? {
        return Done;
      }
      outcome := env.Step();
      if outcome == Done {
        stage := None;
      } else {
        var left: set<Name> := *;
        stage := Some(map n | n in stage.value && n in left :: stage.value[n]);
      }
    }

    method Advance(next: JournalState, env: Environment) returns (outcome: Outcome)
      requires Meta in installed
      modifies this`operation, env
      ensures outcome == Refused ==> operation.None? || !AllowedTransition(operation.value, next)
      ensures outcome == Done ==> old(operation).Some? && AllowedTransition(old(operation).value, next)
      ensures operation == if outcome == Done then Some(next) else old(operation)
      ensures env.trouble + (if outcome == Failed || outcome == Crashed then 1 else 0) <= old(env.trouble)
    {
      outcome := env.Step();
      if outcome != Done {
        return;
      }
      if operation.None? || !AllowedTransition(operation.value, next) {
        return Refused;
      }
      operation := Some(next);
    }

    // ----------------------------------------------------------------
    // Installing
    // ----------------------------------------------------------------

    /** Moves one entry if it is staged, recognizes it if it is in place, refuses it if it is nowhere or in both. */
    method InstallEntry(n: Name, ghost built: map<Name, Tree>, env: Environment) returns (outcome: Outcome)
      modifies this`stage, this`installed, env
      ensures old(Split(Staged(), installed, built)) ==> Split(Staged(), installed, built)
      ensures outcome == Done ==> n in installed
      ensures outcome == Refused <==> (n in old(Staged()) <==> n in old(installed))
      ensures outcome == Refused ==> stage == old(stage) && installed == old(installed)
      ensures NoneMissing(Staged(), installed) <==> old(NoneMissing(Staged(), installed))
      ensures old(installed).Keys <= installed.Keys && (stage.Some? <==> old(stage).Some?)
      ensures old(Staged()) == map[] ==> stage == old(stage) && installed == old(installed)
      ensures env.trouble + (if outcome == Failed || outcome == Crashed then 1 else 0) <= old(env.trouble)
    {
      if n in Staged() && n !in installed {
        outcome := env.Step();
        if outcome == Done {
          if Split(Staged(), installed, built) {
            MoveOne(Staged(), installed, built, n);
          }
          installed := installed[n := Staged()[n]];
          stage := Some(stage.value - {n});
          assert forall k: Name :: k in Staged() || k in installed <==> k in old(Staged()) || k in old(installed);
          // the two directory syncs
          outcome := env.Step();
        }
      } else if n !in Staged() && n in installed {
        outcome := Done;
      } else {
        // an ambiguous entry
        outcome := Refused;
      }
    }

    /** The loop over the entries; every move is followed by a marker that records it. */
    method InstallEntries(ghost built: map<Name, Tree>, env: Environment) returns (outcome: Outcome, moved: set<Name>)
      requires (InstallingOk(built) || Ambiguous()) && marker.value.state.Installing?
      modifies this`stage, this`installed, this`marker, this`temporary, this`prepared, env
      ensures marker.Some? && marker.value.state.Installing? && prepared == old(prepared)
      ensures if old(InstallingOk(built)) then InstallingOk(built) && outcome != Refused
              else Ambiguous() && outcome != Done
      ensures outcome == Done ==> Staged() == map[] && installed == built && moved <= installed.Keys
      ensures env.trouble + (if outcome == Failed || outcome == Crashed then 1 else 0) <= old(env.trouble)
    {
      ghost var complete := InstallingOk(built);
      moved := marker.value.moved;
      outcome := Done;
      var index := 0;
      while index < |ENTRIES|
        invariant 0 <= index <= |ENTRIES| && outcome == Done
        invariant marker.Some? && marker.value.state.Installing? && prepared == old(prepared)
        invariant if complete then InstallingOk(built) && moved <= installed.Keys else Ambiguous()
        invariant forall k :: 0 <= k < index ==> ENTRIES[k] in installed
        invariant env.trouble <= old(env.trouble)
      {
        outcome := InstallEntry(ENTRIES[index], built, env);
        if outcome != Done {
          return;
        }
        moved := moved + {ENTRIES[index]};
        outcome := WriteMarker(Marker(Installing, moved), env);
        if outcome != Done {
          return;
        }
        index := index + 1;
      }
      if complete {
        AllMoved(Staged(), installed, built);
      } else {
        forall n: Name ensures n in installed {
          EntriesAreAll(n);
        }
      }
    }

    /** Advances the SQL operation and the marker to files-installed, then to committed. */
    method CommitInstalled(moved: set<Name>, ghost built: map<Name, Tree>, env: Environment) returns (outcome: Outcome)
      requires InstallingOk(built) && marker.value.state.Installing? && Staged() == map[] && installed == built
      requires moved <= installed.Keys
      modifies this`operation, this`marker, this`temporary, this`prepared, env
      ensures InstallingOk(built) && prepared == old(prepared)
      ensures outcome == Done ==> marker.value.state.Committed? && !temporary
      ensures outcome != Refused && env.trouble + (if outcome == Done then 0 else 1) <= old(env.trouble)
    {
      if operation == Some(JPrepared) {
        outcome := Advance(JFilesInstalled, env);
        if outcome != Done {
          return;
        }
      }
      outcome := WriteMarker(Marker(FilesInstalled, moved), env);
      if outcome != Done {
        return;
      }
      if operation == Some(JFilesInstalled) {
        outcome := Advance(JCommitted, env);
        if outcome != Done {
          return;
        }
      }
      if operation != Some(JCommitted) {
        return Refused;
      }
      outcome := WriteMarker(Marker(Committed, moved), env);
    }

    /** Forward to the installed tree from wherever it was interrupted, but never past an entry that is nowhere. */
    method InstallPrepared(ghost built: map<Name, Tree>, env: Environment) returns (outcome: Outcome)
      requires InstallingOk(built) || Ambiguous()
      modifies this, env
      ensures old(InstallingOk(built)) ==> InstallingOk(built) || Finished(built)
      ensures old(InstallingOk(built)) && outcome == Done ==> Finished(built)
      ensures old(Ambiguous()) ==> Ambiguous() && outcome != Done
      ensures outcome == Refused ==> old(Ambiguous())
      ensures prepared == old(prepared)
      ensures env.trouble + (if outcome == Failed || outcome == Crashed then 1 else 0) <= old(env.trouble)
    {
      outcome := WriteMarker(marker.value.(state := Installing), env);
      if outcome != Done {
        return;
      }
      var moved;
      outcome, moved := InstallEntries(built, env);
      if outcome != Done {
        return;
      }
      outcome := env.Step();
      if outcome != Done {
        return;
      }
      if !validates(installed) {
        return Refused;
      }
      outcome := CommitInstalled(moved, built, env);
      if outcome != Done {
        return;
      }
      outcome := RemoveStage(env);
      if outcome != Done {
        return;
      }
      outcome := RemoveMarker(env);
      if outcome == Done {
        outcome := env.Step();
      }
    }

    // ----------------------------------------------------------------
    // Initialize and Recover
    // ----------------------------------------------------------------

    /**
     The states in which an initialization of `built` may be interrupted; the temporary file may be there in
     all but the last.
     */
    ghost predicate Recoverable(built: map<Name, Tree>)
      reads this
    {
      Bare() || StagingOk() || InstallingOk(built) || Finished(built)
    }

    /** Undoes an initialization that crashed while staging, resumes one that got further. */
    method Recover(ghost built: map<Name, Tree>, env: Environment) returns (outcome: Outcome)
      requires Recoverable(built) || Stranded() || Ambiguous()
      modifies this, env
      ensures old(Recoverable(built)) ==> Recoverable(built)
      ensures old(Ambiguous()) ==> Ambiguous() && outcome != Done
      ensures outcome == Refused ==> old(Ambiguous())
      ensures prepared == old(prepared)
      ensures outcome == Done ==>
              old(marker).None? || (old(marker).value.state.Staging? && Bare()) ||
              (!old(marker).value.state.Staging? && Finished(built))
      ensures old(marker).None? ==> unchanged(this)
      ensures old(InstallingOk(built)) ==> InstallingOk(built) || Finished(built)
      ensures old(StagingOk()) ==> (StagingOk() || Bare()) && temporary == old(temporary)
      ensures env.trouble + (if outcome == Failed || outcome == Crashed then 1 else 0) <= old(env.trouble)
    {
      if marker.None? {
        return Done;
      }
      if marker.value.state.Staging? {
        outcome := RemoveStage(env);
        if outcome == Done {
          outcome := RemoveMarker(env);
        }
        return;
      }
      outcome := InstallPrepared(built, env);
    }

    /** Builds the stage bit by bit and prepares the operation in its database. */
    method BuildStage(trees: map<Name, Tree>, env: Environment) returns (outcome: Outcome)
      requires stage.None? && forall n: Name :: n in trees
      modifies this`stage, this`operation, env
      ensures outcome == Done ==> stage == Some(trees) && operation == Some(JPrepared) && validates(trees)
      ensures outcome == Refused ==> !validates(trees)
      ensures env.trouble + (if outcome == Failed || outcome == Crashed then 1 else 0) <= old(env.trouble)
    {
      outcome := env.Step();
      if outcome != Done {
        return;
      }
      stage := Some(map[]);
      operation := None;
      var index := 0;
      while index < |ENTRIES|
        invariant 0 <= index <= |ENTRIES| && outcome == Done
        invariant stage.Some? && stage.value.Keys == set k | 0 <= k < index :: ENTRIES[k]
        invariant forall n :: n in stage.value ==> stage.value[n] == trees[n]
        invariant env.trouble <= old(env.trouble)
      {
        outcome := env.Step();
        if outcome != Done {
          return;
        }
        stage := Some(stage.value[ENTRIES[index] := trees[ENTRIES[index]]]);
        index := index + 1;
      }
      forall n: Name ensures n in stage.value {
        EntriesAreAll(n);
      }
      assert stage.value == trees;
      outcome := env.Step();
      if outcome != Done {
        return;
      }
      operation := Some(JPrepared);
      if !validates(trees) {
        return Refused;
      }
      outcome := env.Step();
    }

    /**
     The deferred clean-up of a failed staging, whose own errors go unnoticed. Two ways it spoils the
     directory: the marker goes although the stage did not, or, if the prepared marker is there
     although writing it failed, the marker stays and entries of the stage do not.
     */
    method AbandonStage(ghost built: map<Name, Tree>, env: Environment) returns (abandoned: Abandoned)
      requires StagingOk() || (InstallingOk(built) && installed == map[])
      modifies this`stage, this`marker, env
      ensures Bare() <==> abandoned.stage == Done && abandoned.marker == Done
      ensures Stranded() <==> abandoned.stage == Failed && abandoned.marker == Done
      ensures Ambiguous() <==> !old(marker).value.state.Staging? && !abandoned.kept && abandoned.marker != Done
      ensures marker == if abandoned.marker == Done then None else old(marker)
      ensures abandoned.marker != Done && old(StagingOk()) ==> StagingOk()
      ensures abandoned.marker != Done && !old(StagingOk()) && abandoned.kept ==> InstallingOk(built)
      ensures abandoned.stage == Crashed ==> abandoned.marker == Crashed
      ensures abandoned.stage != Refused && abandoned.marker != Refused
      ensures env.trouble + (if abandoned.stage != Done || abandoned.marker != Done then 1 else 0) <= old(env.trouble)
    {
      var removal := RemoveStage(env);
      var kept := NoneMissing(Staged(), map[]);
      if removal == Crashed {
        return Abandoned(Crashed, kept, Crashed);
      }
      var last := RemoveMarker(env);
      abandoned := Abandoned(removal, kept, last);
    }

    /** A first run goes forward exactly if its marker has said prepared and was not removed again. */
    ghost predicate Follows(built: map<Name, Tree>, abandoned: Option<Abandoned>)
      reads this
    {
      && (Ambiguous() <==> LostEntries(abandoned) && prepared)
      && if prepared && !(abandoned.Some? && abandoned.value.marker == Done)
         then InstallingOk(built) || Finished(built) || Ambiguous() else Bare() || StagingOk() || Stranded()
    }

    /**
     Builds and installs an instance. When it does not finish, what it leaves can be recovered, except
     exactly if its clean-up has spoilt the directory. No later initialization accepts such a directory,
     nor one that is bare but for the temporary file of a marker.
     */
    method Initialize(trees: map<Name, Tree>, ghost interrupted: map<Name, Tree>, env: Environment)
      returns (outcome: Outcome, recovered: bool, ghost built: map<Name, Tree>, abandoned: Option<Abandoned>)
      requires Recoverable(interrupted) || Stranded() || Ambiguous()
      requires forall n: Name :: n in trees
      modifies this, env
      ensures old(Stranded() || Littered()) ==> outcome == Refused && unchanged(this) && abandoned.None?
      ensures old(Ambiguous()) ==> outcome != Done && Ambiguous() && abandoned.None?
      ensures built == if recovered then interrupted else trees
      ensures recovered ==> !old(Empty()) && abandoned.None? && prepared == old(prepared)
      ensures outcome == Done ==> Finished(built) && (recovered || prepared)
      ensures Recoverable(built) || Stranded() || Ambiguous()
      ensures !old(Stranded()) ==> (Stranded() <==> LeftStage(abandoned))
      ensures !old(Ambiguous()) ==>
              (Ambiguous() <==> LostEntries(abandoned) && marker.Some? && marker.value.state.Prepared?)
      ensures abandoned.Some? ==> outcome != Done
      ensures !recovered && !old(prepared) ==> Follows(built, abandoned)
      ensures outcome == Refused ==> unchanged(this) || !validates(trees) || old(Ambiguous()) || Littered()
      ensures outcome == Failed || outcome == Crashed ==> env.trouble < old(env.trouble)
      ensures env.trouble <= old(env.trouble)
    {
      recovered, built, abandoned := true, interrupted, None;
      if marker.Some? {
        var staging := marker.value.state.Staging?;
        outcome := Recover(interrupted, env);
        if outcome != Done || !staging {
          return;
        }
      }
      if !Empty() {
        return Refused, true, built, None;
      }
      recovered, built := false, trees;
      outcome := WriteMarker(Marker(Staging, {}), env);
      if outcome != Done {
        return;
      }
      outcome := BuildStage(trees, env);
      if outcome == Done {
        assert Split(Staged(), installed, trees);
        outcome := WriteMarker(Marker(Prepared, {}), env);
      }
      if outcome == Crashed {
        return;
      }
      if outcome != Done {
        var cleanup := AbandonStage(trees, env);
        abandoned := Some(cleanup);
        if cleanup.marker == Crashed {
          outcome := Crashed;
        }
        return;
      }
      outcome := InstallPrepared(trees, env);
    }
  }

  /**
   An initialization and any number of recoveries after it, whatever crashes strike. Unless its
   clean-up has spoilt the directory, it ends complete or bare: complete exactly if the marker has
   said prepared, and the clean-up did not take that back. A bare one is as empty as before exactly if
   no interrupted marker has left its temporary file.
   */
  method InitializeThroughCrashes(d: DataDirectory, trees: map<Name, Tree>, env: Environment)
    returns (outcome: Outcome, abandoned: Option<Abandoned>)
    requires d.Empty() && !d.prepared && forall n: Name :: n in trees
    modifies d, env
    ensures d.Stranded() <==> LeftStage(abandoned)
    ensures d.Ambiguous() <==> LostEntries(abandoned) && d.prepared
    ensures !d.Stranded() && !d.Ambiguous() ==>
              if d.prepared && !(abandoned.Some? && abandoned.value.marker == Done) then d.Finished(trees)
                else d.Bare()
    ensures !d.Stranded() && !d.Ambiguous() ==> (d.Littered() <==> d.temporary)
    ensures outcome == Done ==> d.Finished(trees) && d.prepared && abandoned.None?
    ensures abandoned.Some? ==> outcome != Done
  {
    var recovered;
    ghost var built;
    outcome, recovered, built, abandoned := d.Initialize(trees, map[], env);
    if d.Stranded() || d.Ambiguous() {
      return;
    }
    ghost var prepared, forward := d.prepared, d.InstallingOk(built) || d.Finished(built);
    var recovery := d.Recover(built, env);
    while recovery != Done
      invariant d.Recoverable(built) && recovery != Refused && d.prepared == prepared
      invariant recovery == Done ==> d.marker.None?
      invariant if forward then d.InstallingOk(built) || d.Finished(built) else d.StagingOk() || d.Bare()
      decreases env.trouble, recovery != Done
    {
      recovery := d.Recover(built, env);
    }
  }
}
