/**
 The SQL side of an operation: its journal row and the artifact metadata that the
 commit transaction changes together with it. A transaction takes effect as one
 durable step or not at all.
 */
module StateJournal {
  import opened Results
  import opened Faults
  import ArtifactJournal

  type Key = ArtifactJournal.Key
  type Id = ArtifactJournal.Id

  datatype JournalState = JPrepared | JFilesInstalled | JCommitted | JRolledBack | JFailed

  datatype Owner = Instance | Client(id: Id)

  datatype ArtifactKind =
    | CACert | CAKey | ServerCert | ServerKey | CRL | TLSCrypt | ServerConfig
    | ClientCert | ClientKey | Profile | CCD

  datatype Row = Row(owner: Owner, kind: ArtifactKind, digest: ArtifactJournal.Digest)

  datatype Metadata = Metadata(key: Key, row: Row)

  datatype Deletion = Deletion(key: Key, owner: Owner)

  predicate ClientOwned(kind: ArtifactKind) {
    kind.ClientCert? || kind.ClientKey? || kind.Profile? || kind.CCD?
  }

  predicate AllowedTransition(current: JournalState, next: JournalState) {
    match current
    case JPrepared => next.JFilesInstalled? || next.JRolledBack? || next.JFailed?
    case JFilesInstalled => next.JCommitted? || next.JRolledBack? || next.JFailed?
    case _ => false
  }

  predicate IsPending(s: JournalState) {
    s.JPrepared? || s.JFilesInstalled?
  }

  /** A settled operation stays as it is; an open one moves on, and is committed only after its files are installed. */
  predicate MovesForward(current: JournalState, next: JournalState) {
    && IsPending(current) && next != JPrepared
    && (next == JFilesInstalled ==> current == JPrepared)
    && (next == JCommitted ==> current == JFilesInstalled)
  }

  predicate KindAllowed(row: Row) {
    row.owner.Client? <==> ClientOwned(row.kind)
  }

  predicate Known(clients: set<Id>, owner: Owner) {
    owner.Client? ==> owner.id in clients
  }

  /** An upsert may only replace a row of the same owner and kind. */
  predicate Replaces(rows: map<Key, Row>, m: Metadata) {
    m.key in rows ==> rows[m.key].owner == m.row.owner && rows[m.key].kind == m.row.kind
  }

  predicate ActiveAcceptable(clients: set<Id>, rows: map<Key, Row>, active: seq<Metadata>) {
    && (forall i :: 0 <= i < |active| ==>
          && KindAllowed(active[i].row)
          && Known(clients, active[i].row.owner) && Replaces(rows, active[i]))
    && (forall i, j :: 0 <= i < j < |active| ==> active[i].key != active[j].key)
  }

  predicate DeletedAcceptable(clients: set<Id>, active: seq<Metadata>, deleted: seq<Deletion>) {
    && (forall i :: 0 <= i < |deleted| ==> Known(clients, deleted[i].owner))
    && (forall i, j :: 0 <= i < j < |deleted| ==> deleted[i] != deleted[j])
    && (forall i, j :: 0 <= i < |deleted| && 0 <= j < |active| ==>
          deleted[i] != Deletion(active[j].key, active[j].row.owner))
  }

  /** Exactly the metadata changes one transaction can commit. */
  predicate Acceptable(clients: set<Id>, rows: map<Key, Row>, active: seq<Metadata>, deleted: seq<Deletion>) {
    && (active != [] || deleted != [])
    && ActiveAcceptable(clients, rows, active)
    && DeletedAcceptable(clients, active, deleted)
  }

  function Upserted(rows: map<Key, Row>, active: seq<Metadata>): map<Key, Row> {
    if active == [] then rows
    else Upserted(rows, active[..|active| - 1])[active[|active| - 1].key := active[|active| - 1].row]
  }

  function Retired(rows: map<Key, Row>, deleted: seq<Deletion>): map<Key, Row> {
    if deleted == [] then rows
    else Retire(Retired(rows, deleted[..|deleted| - 1]), deleted[|deleted| - 1])
  }

  function Retire(rows: map<Key, Row>, d: Deletion): map<Key, Row> {
    if d.key in rows && rows[d.key].owner == d.owner then rows - {d.key} else rows
  }

  function Applied(rows: map<Key, Row>, active: seq<Metadata>, deleted: seq<Deletion>): map<Key, Row> {
    Retired(Upserted(rows, active), deleted)
  }

  lemma {:induction false} UpsertedMeaning(rows: map<Key, Row>, active: seq<Metadata>)
    requires forall i, j :: 0 <= i < j < |active| ==> active[i].key != active[j].key
    ensures forall i :: 0 <= i < |active| ==> Lookup(Upserted(rows, active), active[i].key) == Some(active[i].row)
    ensures forall k :: (forall i :: 0 <= i < |active| ==> active[i].key != k) ==>
                          Lookup(Upserted(rows, active), k) == Lookup(rows, k)
  {
    if active != [] {
      UpsertedMeaning(rows, active[..|active| - 1]);
    }
  }

  lemma {:induction false} RetiredMeaning(rows: map<Key, Row>, deleted: seq<Deletion>)
    ensures forall k :: Lookup(Retired(rows, deleted), k) ==
                        if k in rows && Deletion(k, rows[k].owner) in deleted then None else Lookup(rows, k)
  {
    if deleted != [] {
      var prefix := deleted[..|deleted| - 1];
      assert deleted == prefix + [deleted[|deleted| - 1]];
      RetiredMeaning(rows, prefix);
    }
  }

  /** What a commit makes of the rows: the rows it names are written or removed, and all others stay. */
  ghost predicate RowsFollow(rows: map<Key, Row>, rows': map<Key, Row>, active: seq<Metadata>, deleted: seq<Deletion>) {
    && (forall i :: 0 <= i < |active| ==> Lookup(rows', active[i].key) == Some(active[i].row))
    && (forall k :: (forall i :: 0 <= i < |active| ==> active[i].key != k) ==>
          Lookup(rows', k) == if k in rows && Deletion(k, rows[k].owner) in deleted then None else Lookup(rows, k))
  }

  /** Rows of known owners, of kinds those may have. */
  ghost predicate Owned(clients: set<Id>, rows: map<Key, Row>) {
    forall k :: k in rows ==>
      && (rows[k].owner.Client? ==> rows[k].owner.id in clients)
      && (rows[k].owner.Client? <==> ClientOwned(rows[k].kind))
  }

  /** No key changes hands or kind. */
  ghost predicate SameHands(rows: map<Key, Row>, rows': map<Key, Row>) {
    forall k :: k in rows && k in rows' ==> rows'[k].owner == rows[k].owner && rows'[k].kind == rows[k].kind
  }

  lemma AppliedIs(rows: map<Key, Row>, active: seq<Metadata>, deleted: seq<Deletion>)
    ensures Applied(rows, active, deleted) == Retired(Upserted(rows, active), deleted)
  {
  }

  lemma AppliedMeaning(clients: set<Id>, rows: map<Key, Row>, active: seq<Metadata>, deleted: seq<Deletion>)
    requires Acceptable(clients, rows, active, deleted)
    ensures RowsFollow(rows, Applied(rows, active, deleted), active, deleted)
  {
    hide KindAllowed, Known, Replaces, Retire;
    var upserted, rows' := Upserted(rows, active), Applied(rows, active, deleted);
    UpsertedMeaning(rows, active);
    RetiredMeaning(upserted, deleted);
    forall i | 0 <= i < |active| ensures Lookup(rows', active[i].key) == Some(active[i].row) {
      assert Lookup(upserted, active[i].key) == Some(active[i].row);
      assert Deletion(active[i].key, active[i].row.owner) !in deleted;
    }
    forall k | forall i :: 0 <= i < |active| ==> active[i].key != k
      ensures Lookup(rows', k) == if k in rows && Deletion(k, rows[k].owner) in deleted then None else Lookup(rows, k)
    {
      assert Lookup(upserted, k) == Lookup(rows, k);
    }
  }

  lemma FollowingKeepsOwners(clients: set<Id>, rows: map<Key, Row>, rows': map<Key, Row>,
                             active: seq<Metadata>, deleted: seq<Deletion>)
    requires ActiveAcceptable(clients, rows, active) && RowsFollow(rows, rows', active, deleted)
    ensures Owned(clients, rows) ==> Owned(clients, rows')
    ensures SameHands(rows, rows')
  {
    forall k | k in rows' ensures
      || (exists i :: 0 <= i < |active| && active[i].key == k && rows'[k] == active[i].row)
      || (k in rows && rows'[k] == rows[k])
    {
      if i :| 0 <= i < |active| && active[i].key == k {
        assert Lookup(rows', active[i].key) == Some(active[i].row);
      } else {
        assert Lookup(rows', k) == Lookup(rows, k);
      }
    }
    hide RowsFollow;
  }

  predicate Admits(clients: set<Id>, rows: map<Key, Row>, prefix: seq<Metadata>, item: Metadata) {
    && KindAllowed(item.row) && Known(clients, item.row.owner)
    && (forall i :: 0 <= i < |prefix| ==> (prefix[i].row.owner, prefix[i].key) != (item.row.owner, item.key))
    && Replaces(Upserted(rows, prefix), item)
  }

  /**
   Checking owner-and-key repetition and the row found so far, one upsert at a time, is
   checking that all keys differ and that every pre-existing row matches.
   */
  lemma AdmitsOne(clients: set<Id>, rows: map<Key, Row>, prefix: seq<Metadata>, item: Metadata)
    requires ActiveAcceptable(clients, rows, prefix)
    ensures Admits(clients, rows, prefix, item) <==> ActiveAcceptable(clients, rows, prefix + [item])
    ensures Upserted(rows, prefix + [item]) == Upserted(rows, prefix)[item.key := item.row]
  {
    assert (prefix + [item])[..|prefix|] == prefix;
    UpsertedMeaning(rows, prefix);
    AcceptableGrows(clients, rows, prefix, item);
    AdmitsMeaning(clients, rows, prefix, item);
    hide ActiveAcceptable, Admits;
  }

  /** A batch grows acceptably by an item that is acceptable itself and has a new key. */
  lemma AcceptableGrows(clients: set<Id>, rows: map<Key, Row>, prefix: seq<Metadata>, item: Metadata)
    requires ActiveAcceptable(clients, rows, prefix)
    ensures ActiveAcceptable(clients, rows, prefix + [item]) <==>
              KindAllowed(item.row) && Known(clients, item.row.owner) && Replaces(rows, item)
              && forall i :: 0 <= i < |prefix| ==> prefix[i].key != item.key
  {
    hide KindAllowed, Known, Replaces;
    var longer := prefix + [item];
    assert longer[|prefix|] == item;
    assert forall i :: 0 <= i < |prefix| ==> longer[i] == prefix[i];
    if ActiveAcceptable(clients, rows, longer) {
      assert forall i :: 0 <= i < |prefix| ==> longer[i].key != longer[|prefix|].key;
    }
  }

  /** Against the rows changed so far, an item is admitted just as against the old rows, but for a new key. */
  lemma AdmitsMeaning(clients: set<Id>, rows: map<Key, Row>, prefix: seq<Metadata>, item: Metadata)
    requires ActiveAcceptable(clients, rows, prefix)
    ensures Admits(clients, rows, prefix, item) <==>
              KindAllowed(item.row) && Known(clients, item.row.owner) && Replaces(rows, item)
              && forall i :: 0 <= i < |prefix| ==> prefix[i].key != item.key
  {
    hide KindAllowed, Known, Upserted;
    UpsertedMeaning(rows, prefix);
    if i :| 0 <= i < |prefix| && prefix[i].key == item.key {
      assert Lookup(Upserted(rows, prefix), item.key) == Some(prefix[i].row);
    } else {
      assert Lookup(Upserted(rows, prefix), item.key) == Lookup(rows, item.key);
    }
  }

  class StateStore {
    var journal: map<Id, JournalState>
    var metadata: map<Key, Row>
    var clients: set<Id>

    method PrepareOperation(id: Id, env: Environment) returns (outcome: Outcome)
      modifies this`journal, env
      ensures env.trouble + (if outcome == Failed || outcome == Crashed then 1 else 0) <= old(env.trouble)
      ensures outcome == Refused ==> id in old(journal)
      ensures journal == if outcome == Done then old(journal)[id := JPrepared] else old(journal)
      ensures outcome == Done ==> id !in old(journal)
    {
      outcome := env.Step();
      if outcome != Done {
        return;
      }
      if id in journal {
        return Refused;
      }
      journal := journal[id := JPrepared];
    }

    method AdvanceOperation(id: Id, next: JournalState, env: Environment) returns (outcome: Outcome)
      modifies this`journal, env
      ensures env.trouble + (if outcome == Failed || outcome == Crashed then 1 else 0) <= old(env.trouble)
      ensures outcome == Refused ==> !(id in old(journal) && AllowedTransition(old(journal)[id], next))
      ensures journal == if outcome == Done then old(journal)[id := next] else old(journal)
      ensures outcome == Done ==> id in old(journal) && AllowedTransition(old(journal)[id], next)
      ensures outcome == Done || outcome == Refused ==>
                (outcome == Done <==> id in old(journal) && MovesForward(old(journal)[id], next))
    {
      outcome := env.Step();
      if outcome != Done {
        return;
      }
      if id !in journal || !AllowedTransition(journal[id], next) {
        return Refused;
      }
      journal := journal[id := next];
    }

    /** The upserts of one transaction, on the rows it has changed so far. */
    method UpsertAll(active: seq<Metadata>) returns (ok: bool, rows: map<Key, Row>)
      ensures ok <==> ActiveAcceptable(clients, metadata, active)
      ensures ok ==> rows == Upserted(metadata, active)
    {
      ok, rows := true, metadata;
      var seen: set<(Owner, Key)> := {};
      var index := 0;
      while index < |active|
        invariant 0 <= index <= |active|
        invariant ActiveAcceptable(clients, metadata, active[..index])
        invariant rows == Upserted(metadata, active[..index])
        invariant seen == set i | 0 <= i < index :: (active[i].row.owner, active[i].key)
      {
        var item := active[index];
        AdmitsOne(clients, metadata, active[..index], item);
        assert active[..index] + [item] == active[..index + 1];
        if !KindAllowed(item.row) || !Known(clients, item.row.owner)
           || (item.row.owner, item.key) in seen || !Replaces(rows, item) {
          return false, metadata;
        }
        seen := seen + {(item.row.owner, item.key)};
        rows := rows[item.key := item.row];
        index := index + 1;
      }
      assert active[..index] == active;
    }

    method RetireAll(active: seq<Metadata>, deleted: seq<Deletion>, start: map<Key, Row>)
        returns (ok: bool, rows: map<Key, Row>)
      ensures ok <==> DeletedAcceptable(clients, active, deleted)
      ensures ok ==> rows == Retired(start, deleted)
    {
      ok, rows := true, start;
      var seen := set i | 0 <= i < |active| :: Deletion(active[i].key, active[i].row.owner);
      var index := 0;
      assert deleted[..0] == [];
      while index < |deleted|
        invariant 0 <= index <= |deleted|
        invariant DeletedAcceptable(clients, active, deleted[..index])
        invariant rows == Retired(start, deleted[..index])
        invariant forall d ::
                  d in seen <==> (exists i :: 0 <= i < |active| && d == Deletion(active[i].key, active[i].row.owner))
                                             || (exists i :: 0 <= i < index && d == deleted[i])
      {
        var item := deleted[index];
        if !Known(clients, item.owner) || item in seen {
          return false, start;
        }
        seen := seen + {item};
        rows := Retire(rows, item);
        assert deleted[..index + 1][..index] == deleted[..index];
        index := index + 1;
      }
      assert deleted[..index] == deleted;
    }

    /** The single SQL commit point: metadata and journal row change together or not at all. */
    method CommitArtifactOperation(id: Id, active: seq<Metadata>, deleted: seq<Deletion>, env: Environment)
      returns (outcome: Outcome)
      modifies this`journal, this`metadata, env
      ensures env.trouble + (if outcome == Failed || outcome == Crashed then 1 else 0) <= old(env.trouble)
      ensures outcome == Refused ==>
              !(Lookup(old(journal), id) == Some(JFilesInstalled) &&
              Acceptable(clients, old(metadata), active, deleted))
      ensures outcome == Done ==>
              Lookup(old(journal), id) == Some(JFilesInstalled) && Acceptable(clients, old(metadata), active, deleted)
      ensures journal == if outcome == Done then old(journal)[id := JCommitted] else old(journal)
      ensures metadata == if outcome == Done then Applied(old(metadata), active, deleted) else old(metadata)
      ensures outcome == Done ==> RowsFollow(old(metadata), metadata, active, deleted)
      ensures outcome == Done ==> SameHands(old(metadata), metadata)
      ensures Owned(clients, old(metadata)) ==> Owned(clients, metadata)
    {
      hide RowsFollow, SameHands, Owned, Applied, Retired, Upserted;
      if active == [] && deleted == [] {
        return Refused;
      }
      if id !in journal || journal[id] != JFilesInstalled {
        return Refused;
      }
      var ok, rows := UpsertAll(active);
      if !ok {
        return Refused;
      }
      ok, rows := RetireAll(active, deleted, rows);
      if !ok {
        return Refused;
      }
      outcome := env.Step();
      if outcome != Done {
        return;
      }
      AppliedMeaning(clients, metadata, active, deleted);
      AppliedIs(metadata, active, deleted);
      FollowingKeepsOwners(clients, metadata, rows, active, deleted);
      journal, metadata := journal[id := JCommitted], rows;
    }
  }
}
