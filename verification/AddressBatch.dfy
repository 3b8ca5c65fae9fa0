/**
 Setting, editing and releasing the addresses of one or more clients: every selection
 is resolved against the addresses of the unselected clients and of the selections
 before it, and the whole batch is committed in one transaction that releases all
 selected rows before inserting any.
 */
module AddressBatch {
  import opened Results
  import opened Ipam
  import opened Clients
  import Order

  // ------------------------------------------------------------------
  // Resolving selections
  // ------------------------------------------------------------------

  function AddressesOf(choices: seq<Choice>): set<Word> {
    set i | 0 <= i < |choices| && choices[i].address.Some? :: choices[i].address.value
  }

  /** The choices for a batch, each made after the ones before it. */
  function Planned(layout: Layout, used: set<Word>, selections: seq<Selection>): Result<seq<Choice>, PlanError> {
    if selections == [] then Ok([])
    else
      var n := |selections| - 1;
      match Planned(layout, used, selections[..n])
      case Err(e) => Err(e)
      case Ok(choices) =>
        match Choose(layout, used + AddressesOf(choices), selections[n])
        case Err(e) => Err(e)
        case Ok(choice) => Ok(choices + [choice])
  }

  ghost predicate ChoicesFit(layout: Layout, used: set<Word>, choices: seq<Choice>) {
    && (forall i :: 0 <= i < |choices| ==>
          && (choices[i].kind == Static <==> choices[i].address.Some?)
          && (choices[i].address.Some? ==>
            Contains(layout.statics, choices[i].address.value) && choices[i].address.value !in used)
          && (choices[i].kind == Dynamic ==> layout.dynamics.capacity != 0))
    && (forall i, j :: 0 <= i < j < |choices| && choices[i].address.Some? ==> choices[i].address != choices[j].address)
  }

  lemma AddressesAppend(choices: seq<Choice>, choice: Choice)
    ensures AddressesOf(choices + [choice])
            == AddressesOf(choices) + (if choice.address.Some? then {choice.address.value} else {})
  {
    var longer := choices + [choice];
    forall a | a in AddressesOf(choices) ensures a in AddressesOf(longer) {
      var i :| 0 <= i < |choices| && choices[i].address.Some? && choices[i].address.value == a;
      assert longer[i].address.value == a;
    }
    if choice.address.Some? {
      assert longer[|choices|].address.value in AddressesOf(longer);
    }
  }

  /** A resolved batch gives every client an admissible address that nobody else has. */
  lemma {:induction false} PlannedFits(layout: Layout, used: set<Word>, selections: seq<Selection>)
    ensures Planned(layout, used, selections).Ok? ==>
              && |Planned(layout, used, selections).value| == |selections|
              && ChoicesFit(layout, used, Planned(layout, used, selections).value)
  {
    if selections != [] {
      var n := |selections| - 1;
      PlannedFits(layout, used, selections[..n]);
      if Planned(layout, used, selections).Ok? {
        var choices := Planned(layout, used, selections[..n]).value;
        LeastFreeMeaning(layout.statics, used + AddressesOf(choices));
        forall i | 0 <= i < n && choices[i].address.Some? ensures choices[i].address.value in AddressesOf(choices) {}
      }
    }
  }

  /** A later selection does not change what earlier ones got. */
  lemma {:induction false} PlannedPrefix(layout: Layout, used: set<Word>, selections: seq<Selection>, n: nat)
    requires n <= |selections| && Planned(layout, used, selections).Ok?
    ensures Planned(layout, used, selections[..n]).Ok?
    ensures |Planned(layout, used, selections).value| == |selections|
    ensures Planned(layout, used, selections[..n]).value == Planned(layout, used, selections).value[..n]
    decreases |selections|
  {
    PlannedFits(layout, used, selections);
    if n < |selections| {
      var m := |selections| - 1;
      PlannedFits(layout, used, selections[..m]);
      PlannedPrefix(layout, used, selections[..m], n);
      assert selections[..m][..n] == selections[..n];
    } else {
      assert selections[..n] == selections;
    }
  }

  /**
   In an all-automatic batch the clients, in order, receive the lowest free addresses:
   each takes the least one still free, so the addresses ascend and skip none.
   */
  lemma AutoBatchAscends(layout: Layout, used: set<Word>, selections: seq<Selection>, i: nat, j: nat)
    requires i < j < |selections| && selections[i].Auto? && selections[j].Auto?
    requires Planned(layout, used, selections).Ok?
    ensures var choices := Planned(layout, used, selections).value;
            && |choices| == |selections|
            && choices[i].address.Some? && choices[j].address.Some?
            && choices[i].address.value < choices[j].address.value
            && IsLeastFree(layout.statics, used + AddressesOf(choices[..i]), choices[i].address.value)
  {
    var choices := Planned(layout, used, selections).value;
    AutoTakesLeast(layout, used, selections, i);
    AutoTakesLeast(layout, used, selections, j);
    AddressesMonotone(choices, i, j);
    assert choices[..j][i] == choices[i];
    assert choices[i].address.value in AddressesOf(choices[..j]);
  }

  lemma AddressesMonotone(choices: seq<Choice>, i: nat, j: nat)
    requires i <= j <= |choices|
    ensures AddressesOf(choices[..i]) <= AddressesOf(choices[..j])
  {
    forall a | a in AddressesOf(choices[..i]) ensures a in AddressesOf(choices[..j]) {
      var k :| 0 <= k < i && choices[..i][k].address.Some? && choices[..i][k].address.value == a;
      assert choices[..j][k].address.value == a;
    }
  }

  lemma AutoTakesLeast(layout: Layout, used: set<Word>, selections: seq<Selection>, i: nat)
    requires i < |selections| && selections[i].Auto? && Planned(layout, used, selections).Ok?
    ensures var choices := Planned(layout, used, selections).value;
            && |choices| == |selections| && choices[i].address.Some?
            && IsLeastFree(layout.statics, used + AddressesOf(choices[..i]), choices[i].address.value)
  {
    var choices := Planned(layout, used, selections).value;
    PlannedPrefix(layout, used, selections, i);
    PlannedPrefix(layout, used, selections, i + 1);
    assert selections[..i + 1][..i] == selections[..i];
    LeastFreeMeaning(layout.statics, used + AddressesOf(choices[..i]));
    assert choices[..i + 1][i] == choices[i];
  }

  // ------------------------------------------------------------------
  // The transaction
  // ------------------------------------------------------------------

  datatype Change = Change(client: Id, name: string, status: ClientStatus, assignment: Option<Assignment>)

  function ClientsOf(changes: seq<Change>): set<Id> {
    set i | 0 <= i < |changes| :: changes[i].client
  }

  /** The row that is inserted: active for active clients, retained for revoked ones. */
  function Inserted(change: Change): Assignment
    requires change.assignment.Some?
  {
    change.assignment.value.(retained := change.status != Active)
  }

  /** What the transaction checks before it touches a row. */
  ghost predicate Checked(t: Tables, changes: seq<Change>, release: bool) {
    && changes != []
    && (forall i :: 0 <= i < |changes| ==> CheckedOne(t, changes[i], release))
    && (forall i, j :: 0 <= i < j < |changes| ==> changes[i].client != changes[j].client)
  }

  predicate CheckedOne(t: Tables, change: Change, release: bool) {
    && Live(t, change.client)
    && t.clients[change.client].name == change.name && t.clients[change.client].status == change.status
    && (release ==> change.status == Revoked)
    && (release <==> change.assignment.None?)
    && (change.assignment.Some? ==> (change.assignment.value.kind == Static <==> change.assignment.value.address.Some?))
  }

  /** The rows after releasing every selected client and inserting the first `n` replacements. */
  function Overlay(current: map<Id, Assignment>, changes: seq<Change>, n: nat): map<Id, Assignment>
    requires n <= |changes|
  {
    if n == 0 then current - ClientsOf(changes)
    else
      var before := Overlay(current, changes, n - 1);
      if changes[n - 1].assignment.None? then before
      else before[changes[n - 1].client := Inserted(changes[n - 1])]
  }

  function OverlayIds(ids: set<Id>, changes: seq<Change>, n: nat): set<Id>
    requires n <= |changes|
  {
    ids + set i | 0 <= i < n && changes[i].assignment.Some? :: changes[i].assignment.value.id
  }

  lemma {:induction false} OverlayMeaning(current: map<Id, Assignment>, changes: seq<Change>, n: nat)
    requires n <= |changes|
    requires forall i, j :: 0 <= i < j < |changes| ==> changes[i].client != changes[j].client
    ensures Overlay(current, changes, n) - ClientsOf(changes) == current - ClientsOf(changes)
    ensures forall i :: 0 <= i < |changes| ==>
              Lookup(Overlay(current, changes, n), changes[i].client) ==
              if i < n && changes[i].assignment.Some? then Some(Inserted(changes[i])) else None
  {
    if n > 0 {
      OverlayMeaning(current, changes, n - 1);
      assert changes[n - 1].client in ClientsOf(changes);
    }
    forall i | 0 <= i < |changes| ensures changes[i].client in ClientsOf(changes) {}
  }

  /** The final assignment has no address twice, stays in the region, and uses fresh row ids. */
  ghost predicate Placeable(layout: Layout, t: Tables, changes: seq<Change>) {
    && (forall i :: 0 <= i < |changes| && changes[i].assignment.Some? ==>
          && changes[i].assignment.value.id !in t.ids
          && (changes[i].assignment.value.address.Some? ==>
                && Contains(layout.statics, changes[i].assignment.value.address.value)
                && changes[i].assignment.value.address.value !in UsedAddresses(t, ClientsOf(changes))))
    && (forall i, j :: 0 <= i < j < |changes| && changes[i].assignment.Some? && changes[j].assignment.Some? ==>
          && changes[i].assignment.value.id != changes[j].assignment.value.id
          && (changes[i].assignment.value.address.Some? ==>
            changes[i].assignment.value.address != changes[j].assignment.value.address))
  }

  /** Whether the insert of replacement `n` goes through, given the inserts before it. */
  ghost predicate Insertable(layout: Layout, t: Tables, changes: seq<Change>, n: nat)
    requires n < |changes| && changes[n].assignment.Some?
  {
    var a := changes[n].assignment.value;
    && (a.address.Some? ==> Contains(layout.statics, a.address.value))
    && a.id !in OverlayIds(t.ids, changes, n)
    && changes[n].client !in Overlay(t.current, changes, n)
    && (a.address.Some? ==>
      forall c :: c in Overlay(t.current, changes, n) ==> Overlay(t.current, changes, n)[c].address != a.address)
  }

  /**
   Because every selected row is released first, the inserts of a batch meet the unique
   indexes one by one exactly when the final assignment is unique, even if the batch
   permutes addresses among its clients.
   */
  lemma BatchInsertable(layout: Layout, t: Tables, changes: seq<Change>)
    requires forall i, j :: 0 <= i < j < |changes| ==> changes[i].client != changes[j].client
    ensures Placeable(layout, t, changes) <==>
            forall n :: 0 <= n < |changes| && changes[n].assignment.Some? ==> Insertable(layout, t, changes, n)
  {
    if Placeable(layout, t, changes) {
      forall n | 0 <= n < |changes| && changes[n].assignment.Some? ensures Insertable(layout, t, changes, n) {
        PlaceableInserts(layout, t, changes, n);
      }
    }
    if forall n :: 0 <= n < |changes| && changes[n].assignment.Some? ==> Insertable(layout, t, changes, n) {
      forall n | 0 <= n < |changes| && changes[n].assignment.Some?
        ensures PlacedAfter(layout, t, changes, n)
      {
        InsertsPlaceable(layout, t, changes, n);
      }
    }
  }

  /** Replacement `n` fits with the unselected clients and with every earlier replacement. */
  ghost predicate PlacedAfter(layout: Layout, t: Tables, changes: seq<Change>, n: nat)
    requires n < |changes| && changes[n].assignment.Some?
  {
    var a := changes[n].assignment.value;
    && a.id !in t.ids
    && (a.address.Some? ==>
      Contains(layout.statics, a.address.value) && a.address.value !in UsedAddresses(t, ClientsOf(changes)))
    && (forall i :: 0 <= i < n && changes[i].assignment.Some? ==>
          && changes[i].assignment.value.id != a.id
          && (a.address.Some? ==> changes[i].assignment.value.address != a.address))
  }

  lemma PlaceableInserts(layout: Layout, t: Tables, changes: seq<Change>, n: nat)
    requires forall i, j :: 0 <= i < j < |changes| ==> changes[i].client != changes[j].client
    requires n < |changes| && changes[n].assignment.Some? && PlacedAfter(layout, t, changes, n)
    ensures Insertable(layout, t, changes, n)
  {
    var a := changes[n].assignment.value;
    OverlayMeaning(t.current, changes, n);
    assert Lookup(Overlay(t.current, changes, n), changes[n].client) == None;
    forall c | c in Overlay(t.current, changes, n) && a.address.Some?
      ensures Overlay(t.current, changes, n)[c].address != a.address
    {
      OverlayOrigin(t.current, changes, n, c);
      if c !in ClientsOf(changes) && t.current[c].address.Some? {
        assert t.current[c].address.value in UsedAddresses(t, ClientsOf(changes));
      }
    }
  }

  lemma InsertsPlaceable(layout: Layout, t: Tables, changes: seq<Change>, n: nat)
    requires forall i, j :: 0 <= i < j < |changes| ==> changes[i].client != changes[j].client
    requires n < |changes| && changes[n].assignment.Some? && Insertable(layout, t, changes, n)
    ensures PlacedAfter(layout, t, changes, n)
  {
    var a, overlay := changes[n].assignment.value, Overlay(t.current, changes, n);
    OverlayMeaning(t.current, changes, n);
    forall i | 0 <= i < n && changes[i].assignment.Some?
      ensures changes[i].assignment.value.id != a.id
      ensures a.address.Some? ==> changes[i].assignment.value.address != a.address
    {
      assert changes[i].assignment.value.id in OverlayIds(t.ids, changes, n);
      assert Lookup(overlay, changes[i].client) == Some(Inserted(changes[i]));
    }
    forall c | c in t.current && c !in ClientsOf(changes) ensures c in overlay && overlay[c] == t.current[c] {
      assert c in t.current - ClientsOf(changes);
      assert (t.current - ClientsOf(changes))[c] == (overlay - ClientsOf(changes))[c];
    }
  }

  /** A row of the overlay is an unselected client's own row or one of the inserts. */
  lemma OverlayOrigin(current: map<Id, Assignment>, changes: seq<Change>, n: nat, c: Id)
    requires forall i, j :: 0 <= i < j < |changes| ==> changes[i].client != changes[j].client
    requires n <= |changes| && c in Overlay(current, changes, n)
    ensures c !in ClientsOf(changes) ==> c in current && Overlay(current, changes, n)[c] == current[c]
    ensures c in ClientsOf(changes) ==>
              exists i :: 0 <= i < n && changes[i].client == c && changes[i].assignment.Some? &&
                Overlay(current, changes, n)[c] == Inserted(changes[i])
  {
    OverlayMeaning(current, changes, n);
    if c in ClientsOf(changes) {
      var i :| 0 <= i < |changes| && changes[i].client == c;
      assert Lookup(Overlay(current, changes, n), changes[i].client).Some?;
    } else {
      assert c in Overlay(current, changes, n) - ClientsOf(changes);
      assert (current - ClientsOf(changes))[c] == (Overlay(current, changes, n) - ClientsOf(changes))[c];
    }
  }

  /** A CCD is wanted for an active client with a fixed address. */
  predicate NeedsCcd(change: Change) {
    change.status == Active && change.assignment.Some? && change.assignment.value.kind == Static
  }

  function RetiredCcds(artifacts: map<ArtifactKey, Id>, changes: seq<Change>, n: nat): map<ArtifactKey, Id>
    requires n <= |changes|
  {
    if n == 0 then artifacts
    else
      var before := RetiredCcds(artifacts, changes, n - 1);
      if NeedsCcd(changes[n - 1]) then before else before - {Ccd(changes[n - 1].client)}
  }

  function UpsertedCcds(artifacts: map<ArtifactKey, Id>, changes: seq<Change>, n: nat): map<ArtifactKey, Id>
    requires n <= |changes|
  {
    if n == 0 then artifacts
    else
      var before := UpsertedCcds(artifacts, changes, n - 1);
      if NeedsCcd(changes[n - 1]) then before[Ccd(changes[n - 1].client) := changes[n - 1].client] else before
  }

  lemma {:induction false} RetiredMeaning(artifacts: map<ArtifactKey, Id>, changes: seq<Change>, n: nat)
    requires n <= |changes|
    ensures forall k :: Lookup(RetiredCcds(artifacts, changes, n), k) ==
              if exists i ::
                0 <= i < n && !NeedsCcd(changes[i]) && k == Ccd(changes[i].client) then None else Lookup(artifacts, k)
  {
    if n > 0 {
      RetiredMeaning(artifacts, changes, n - 1);
      var before, after, last := RetiredCcds(artifacts, changes, n - 1), RetiredCcds(artifacts, changes, n),
        Ccd(changes[n - 1].client);
      forall k ensures Lookup(after, k) == if !NeedsCcd(changes[n - 1]) && k == last then None else Lookup(before, k) {}
    }
  }

  lemma {:induction false} UpsertedMeaning(artifacts: map<ArtifactKey, Id>, changes: seq<Change>, n: nat)
    requires n <= |changes|
    ensures forall k :: Lookup(UpsertedCcds(artifacts, changes, n), k) ==
              if exists i ::
                0 <= i < n && NeedsCcd(changes[i]) && k == Ccd(changes[i].client) then Some(k.client)
                else Lookup(artifacts, k)
  {
    if n > 0 {
      UpsertedMeaning(artifacts, changes, n - 1);
      var before, after, last := UpsertedCcds(artifacts, changes, n - 1), UpsertedCcds(artifacts, changes, n),
        Ccd(changes[n - 1].client);
      forall k ensures Lookup(after, k) == if NeedsCcd(changes[n - 1]) && k == last then Some(last.client)
        else Lookup(before, k) {}
    }
  }

  /** The tables after a committed batch. */
  function BatchTables(t: Tables, changes: seq<Change>): Tables {
    Tables(
      t.clients, Overlay(t.current, changes, |changes|), OverlayIds(t.ids, changes, |changes|),
      t.leases - ClientsOf(changes),
      UpsertedCcds(RetiredCcds(t.artifacts, changes, |changes|), changes, |changes|))
  }

  lemma BatchCcd(layout: Layout, t: Tables, changes: seq<Change>, release: bool, k: ArtifactKey)
    requires Consistent(layout, t) && Checked(t, changes, release)
    ensures !(k.Ccd? && k.client in ClientsOf(changes)) ==>
            Lookup(BatchTables(t, changes).artifacts, k) == Lookup(t.artifacts, k)
    ensures forall i :: 0 <= i < |changes| && k == Ccd(changes[i].client) ==>
              Lookup(BatchTables(t, changes).artifacts, k) == if NeedsCcd(changes[i]) then Some(changes[i].client)
                else None
  {
    hide Consistent, NeedsCcd;
    RetiredMeaning(t.artifacts, changes, |changes|);
    UpsertedMeaning(RetiredCcds(t.artifacts, changes, |changes|), changes, |changes|);
    forall i | 0 <= i < |changes| ensures changes[i].client in ClientsOf(changes) {}
  }

  lemma BatchLocal(layout: Layout, t: Tables, changes: seq<Change>, release: bool, i: nat)
    requires Consistent(layout, t) && Checked(t, changes, release) && Placeable(layout, t, changes) && i < |changes|
    requires changes[i].assignment.Some? && changes[i].assignment.value.kind == Dynamic ==>
             layout.dynamics.capacity != 0
    ensures LocalOk(layout, BatchTables(t, changes), changes[i].client)
  {
    hide Consistent;
    LocalOf(layout, t, changes[i].client);
    OverlayMeaning(t.current, changes, |changes|);
    var row := Lookup(Overlay(t.current, changes, |changes|), changes[i].client);
    if changes[i].assignment.Some? {
      assert row == Some(Inserted(changes[i]));
      assert changes[i].assignment.value.id in OverlayIds(t.ids, changes, |changes|);
    }
  }

  lemma BatchNoClash(layout: Layout, t: Tables, changes: seq<Change>, release: bool)
    requires Consistent(layout, t) && Checked(t, changes, release) && Placeable(layout, t, changes)
    ensures NoClash(BatchTables(t, changes), ClientsOf(changes))
  {
    var t', s := BatchTables(t, changes), ClientsOf(changes);
    forall a, b | a in s && Live(t', a) && Live(t', b) && t'.clients[a].name == t'.clients[b].name ensures a == b {
      assert Live(t, a) && Live(t, b);
    }
    forall a, b | a in s && SameAddress(t', a, b) ensures a == b {
      BatchAddresses(t, changes, a, b);
    }
  }

  lemma BatchAddresses(t: Tables, changes: seq<Change>, a: Id, b: Id)
    requires forall i, j :: 0 <= i < j < |changes| ==> changes[i].client != changes[j].client
    requires forall i :: 0 <= i < |changes| && changes[i].assignment.Some? ==> PlacedNear(t, changes, i)
    requires a in ClientsOf(changes) && SameAddress(BatchTables(t, changes), a, b)
    ensures a == b
  {
    var overlay := Overlay(t.current, changes, |changes|);
    OverlayOrigin(t.current, changes, |changes|, a);
    OverlayOrigin(t.current, changes, |changes|, b);
    var i :| 0 <= i < |changes| && changes[i].client == a && changes[i].assignment.Some? &&
      overlay[a] == Inserted(changes[i]);
    assert PlacedNear(t, changes, i);
    forall c | c in t.current && c !in ClientsOf(changes) && t.current[c].address.Some?
      ensures t.current[c].address.value in UsedAddresses(t, ClientsOf(changes))
    {
    }
    if b in ClientsOf(changes) {
      var j :| 0 <= j < |changes| && changes[j].client == b && changes[j].assignment.Some? &&
        overlay[b] == Inserted(changes[j]);
      assert i == j;
    }
  }

  /** The address of replacement `i` is used neither outside the batch nor elsewhere in it. */
  ghost predicate PlacedNear(t: Tables, changes: seq<Change>, i: nat)
    requires i < |changes| && changes[i].assignment.Some?
  {
    var address := changes[i].assignment.value.address;
    address.Some? ==>
      && address.value !in UsedAddresses(t, ClientsOf(changes))
      && forall j ::
        0 <= j < |changes| && j != i && changes[j].assignment.Some? ==> changes[j].assignment.value.address != address
  }

  lemma BatchArtifacts(layout: Layout, t: Tables, changes: seq<Change>, release: bool)
    requires Consistent(layout, t) && Checked(t, changes, release)
    ensures OthersKept(t, BatchTables(t, changes), ClientsOf(changes))
    ensures ArtifactsFollow(BatchTables(t, changes), ClientsOf(changes))
  {
    var t', s := BatchTables(t, changes), ClientsOf(changes);
    OverlayMeaning(t.current, changes, |changes|);
    forall k | k in t.artifacts || k in t'.artifacts
      ensures (k in t.artifacts && t.artifacts[k] !in s) ==> k in t'.artifacts && t'.artifacts[k] == t.artifacts[k]
      ensures (k in t'.artifacts && t'.artifacts[k] !in s) ==> k in t.artifacts && t.artifacts[k] == t'.artifacts[k]
      ensures k in t'.artifacts && t'.artifacts[k] in s ==> Wanted(t', k, t'.artifacts[k])
    {
      BatchKey(layout, t, changes, release, k);
    }
    forall c | c in s
      ensures c in t'.clients && t'.clients[c].status != Deleted ==>
              Profile(t'.clients[c].status == Active, t'.clients[c].name) in t'.artifacts
      ensures c in t'.current && t'.current[c].kind == Static && IsActive(t', c) ==> Ccd(c) in t'.artifacts
    {
      BatchOwnKeys(layout, t, changes, release, c);
    }
  }

  lemma BatchKey(layout: Layout, t: Tables, changes: seq<Change>, release: bool, k: ArtifactKey)
    requires Consistent(layout, t) && Checked(t, changes, release)
    requires k in t.artifacts || k in BatchTables(t, changes).artifacts
    ensures var t', s := BatchTables(t, changes), ClientsOf(changes);
            && ((k in t.artifacts && t.artifacts[k] !in s) ==> k in t'.artifacts && t'.artifacts[k] == t.artifacts[k])
            && ((k in t'.artifacts && t'.artifacts[k] !in s) ==> k in t.artifacts && t.artifacts[k] == t'.artifacts[k])
            && (k in t'.artifacts && t'.artifacts[k] in s ==> Wanted(t', k, t'.artifacts[k]))
  {
    hide Consistent;
    var t', s := BatchTables(t, changes), ClientsOf(changes);
    BatchCcd(layout, t, changes, release, k);
    if k in t.artifacts {
      KeysOfOwner(layout, t, k);
    }
    if k.Ccd? && k.client in s {
      var i :| 0 <= i < |changes| && changes[i].client == k.client;
      OverlayMeaning(t.current, changes, |changes|);
      assert Lookup(t'.artifacts, k) == if NeedsCcd(changes[i]) then Some(changes[i].client) else None;
      assert Lookup(Overlay(t.current, changes, |changes|), changes[i].client) ==
             if changes[i].assignment.Some? then Some(Inserted(changes[i])) else None;
    } else {
      assert Lookup(t'.artifacts, k) == Lookup(t.artifacts, k);
    }
  }

  lemma BatchOwnKeys(layout: Layout, t: Tables, changes: seq<Change>, release: bool, c: Id)
    requires Consistent(layout, t) && Checked(t, changes, release) && c in ClientsOf(changes)
    ensures var t' := BatchTables(t, changes);
            && (c in t'.clients && t'.clients[c].status != Deleted ==>
              Profile(t'.clients[c].status == Active, t'.clients[c].name) in t'.artifacts)
            && (c in t'.current && t'.current[c].kind == Static && IsActive(t', c) ==> Ccd(c) in t'.artifacts)
  {
    hide Consistent;
    var i :| 0 <= i < |changes| && changes[i].client == c;
    ProfileOwner(layout, t, c);
    BatchCcd(layout, t, changes, release, Profile(t.clients[c].status == Active, t.clients[c].name));
    BatchCcd(layout, t, changes, release, Ccd(c));
    OverlayMeaning(t.current, changes, |changes|);
    assert Lookup(Overlay(t.current, changes, |changes|), changes[i].client) ==
           if changes[i].assignment.Some? then Some(Inserted(changes[i])) else None;
  }

  lemma BatchConsistent(layout: Layout, t: Tables, changes: seq<Change>, release: bool)
    requires Consistent(layout, t) && Checked(t, changes, release) && Placeable(layout, t, changes)
    requires forall i ::
             0 <= i < |changes| && changes[i].assignment.Some? && changes[i].assignment.value.kind == Dynamic ==>
             layout.dynamics.capacity != 0
    ensures Consistent(layout, BatchTables(t, changes))
  {
    hide Consistent;
    BatchArtifacts(layout, t, changes, release);
    BatchNoClash(layout, t, changes, release);
    forall c | c in ClientsOf(changes) ensures LocalOk(layout, BatchTables(t, changes), c) {
      var i :| 0 <= i < |changes| && changes[i].client == c;
      BatchLocal(layout, t, changes, release, i);
    }
    ChangeKeepsConsistent(layout, t, BatchTables(t, changes), ClientsOf(changes));
  }

  /** Each client of the batch has the row its change asks for, and no lease; nobody else's rows have changed. */
  ghost predicate RowsFollow(t: Tables, t': Tables, changes: seq<Change>) {
    && t'.clients == t.clients
    && (forall i :: 0 <= i < |changes| ==>
          && changes[i].client !in t'.leases
          && Lookup(t'.current, changes[i].client) == match changes[i].assignment
             case None => None
             case Some(a) => Some(Assignment(a.id, a.kind, a.address, changes[i].status != Active)))
    && (forall c :: (forall i :: 0 <= i < |changes| ==> changes[i].client != c) ==>
          Lookup(t'.current, c) == Lookup(t.current, c) && Lookup(t'.leases, c) == Lookup(t.leases, c))
    && (forall a :: a in t'.ids <==>
          || a in t.ids
          || exists i :: 0 <= i < |changes| && changes[i].assignment.Some? && changes[i].assignment.value.id == a)
  }

  lemma BatchRows(t: Tables, changes: seq<Change>)
    requires forall i, j :: 0 <= i < j < |changes| ==> changes[i].client != changes[j].client
    ensures RowsFollow(t, BatchTables(t, changes), changes)
  {
    var t' := BatchTables(t, changes);
    OverlayMeaning(t.current, changes, |changes|);
    forall i | 0 <= i < |changes| ensures changes[i].client !in t'.leases {
      assert changes[i].client in ClientsOf(changes);
    }
    forall c | forall i :: 0 <= i < |changes| ==> changes[i].client != c
      ensures Lookup(t'.current, c) == Lookup(t.current, c) && Lookup(t'.leases, c) == Lookup(t.leases, c)
    {
      assert c !in ClientsOf(changes);
      assert Lookup(t'.current, c) == Lookup(t'.current - ClientsOf(changes), c);
      assert Lookup(t.current, c) == Lookup(t.current - ClientsOf(changes), c);
    }
  }

  method CheckChanges(t: Tables, changes: seq<Change>, release: bool) returns (ok: bool)
    ensures ok <==> Checked(t, changes, release)
  {
    if changes == [] {
      return false;
    }
    var seen: set<Id> := {};
    var index := 0;
    while index < |changes|
      invariant 0 <= index <= |changes|
      invariant forall i :: 0 <= i < index ==> CheckedOne(t, changes[i], release)
      invariant forall i, j :: 0 <= i < j < index ==> changes[i].client != changes[j].client
      invariant seen == set i | 0 <= i < index :: changes[i].client
    {
      if changes[index].client in seen || !CheckedOne(t, changes[index], release) {
        return false;
      }
      seen := seen + {changes[index].client};
      index := index + 1;
    }
    return true;
  }

  /** The tables after releasing every selected row and `n` inserts. */
  function AfterInserts(t: Tables, changes: seq<Change>, n: nat): Tables
    requires n <= |changes|
  {
    t.(current := Overlay(t.current, changes, n), ids := OverlayIds(t.ids, changes, n))
  }

  lemma InsertStep(layout: Layout, t: Tables, changes: seq<Change>, n: nat)
    requires n < |changes| && changes[n].assignment.Some?
    ensures var inserted := InsertAssignment(layout, AfterInserts(t, changes, n), changes[n].client,
            Inserted(changes[n]));
            && (inserted.Some? <==> Insertable(layout, t, changes, n))
            && (inserted.Some? ==> inserted.value == AfterInserts(t, changes, n + 1))
  {
    assert OverlayIds(t.ids, changes, n + 1) == OverlayIds(t.ids, changes, n) + {changes[n].assignment.value.id};
  }

  lemma SkipStep(t: Tables, changes: seq<Change>, n: nat)
    requires n < |changes| && changes[n].assignment.None?
    ensures AfterInserts(t, changes, n + 1) == AfterInserts(t, changes, n)
  {
    assert OverlayIds(t.ids, changes, n + 1) == OverlayIds(t.ids, changes, n);
  }

  /** The inserts, after every selected row has been released. */
  method InsertAll(layout: Layout, t: Tables, changes: seq<Change>) returns (result: Option<Tables>)
    requires forall i, j :: 0 <= i < j < |changes| ==> changes[i].client != changes[j].client
    ensures result.Some? <==> Placeable(layout, t, changes)
    ensures result.Some? ==> result.value == AfterInserts(t, changes, |changes|)
  {
    hide Placeable, Insertable, InsertAssignment, Overlay, OverlayIds;
    BatchInsertable(layout, t, changes);
    var next := t.(current := t.current - ClientsOf(changes));
    NoInserts(t, changes);
    var index := 0;
    while index < |changes|
      invariant 0 <= index <= |changes|
      invariant next == AfterInserts(t, changes, index)
      invariant forall n :: 0 <= n < index && changes[n].assignment.Some? ==> Insertable(layout, t, changes, n)
    {
      if changes[index].assignment.Some? {
        InsertStep(layout, t, changes, index);
        var inserted := InsertAssignment(layout, next, changes[index].client, Inserted(changes[index]));
        if inserted.None? {
          return None;
        }
        next := inserted.value;
      } else {
        SkipStep(t, changes, index);
      }
      index := index + 1;
    }
    return Some(next);
  }

  lemma NoInserts(t: Tables, changes: seq<Change>)
    ensures AfterInserts(t, changes, 0) == t.(current := t.current - ClientsOf(changes))
  {
    assert OverlayIds(t.ids, changes, 0) == t.ids;
  }

  /** The CCD metadata of the batch: retire what is no longer wanted, then activate what is. */
  method SwapCcds(artifacts: map<ArtifactKey, Id>, changes: seq<Change>) returns (result: map<ArtifactKey, Id>)
    ensures result == UpsertedCcds(RetiredCcds(artifacts, changes, |changes|), changes, |changes|)
  {
    result := artifacts;
    var index := 0;
    while index < |changes|
      invariant 0 <= index <= |changes| && result == RetiredCcds(artifacts, changes, index)
    {
      if !NeedsCcd(changes[index]) {
        result := result - {Ccd(changes[index].client)};
      }
      index := index + 1;
    }
    index := 0;
    while index < |changes|
      invariant 0 <= index <= |changes|
      invariant result == UpsertedCcds(RetiredCcds(artifacts, changes, |changes|), changes, index)
    {
      if NeedsCcd(changes[index]) {
        result := result[Ccd(changes[index].client) := changes[index].client];
      }
      index := index + 1;
    }
  }

  /** One transaction for the whole batch; it goes through exactly when the final assignment is unique. */
  method CommitClientAddresses(store: ClientStore, changes: seq<Change>, release: bool) returns (ok: bool)
    requires store.Valid()
    requires forall i ::
             0 <= i < |changes| && changes[i].assignment.Some? && changes[i].assignment.value.kind == Dynamic ==>
                           store.layout.dynamics.capacity != 0
    modifies store
    ensures store.Valid()
    ensures ok <==> Checked(old(store.tables), changes, release) && Placeable(store.layout, old(store.tables), changes)
    ensures store.tables == if ok then BatchTables(old(store.tables), changes) else old(store.tables)
    ensures ok ==> RowsFollow(old(store.tables), store.tables, changes)
  {
    hide Consistent, RowsFollow;
    var checked := CheckChanges(store.tables, changes, release);
    if !checked {
      return false;
    }
    var t := store.tables;
    var inserted := InsertAll(store.layout, t, changes);
    if inserted.None? {
      return false;
    }
    var artifacts := SwapCcds(t.artifacts, changes);
    BatchConsistent(store.layout, t, changes, release);
    BatchRows(t, changes);
    store.tables := inserted.value.(leases := t.leases - ClientsOf(changes), artifacts := artifacts);
    return true;
  }

  // ------------------------------------------------------------------
  // The operations
  // ------------------------------------------------------------------

  datatype Target = Target(client: Id, name: string, assignmentId: Id, selection: Selection)

  function TargetKey(target: Target): Order.SortKey {
    Order.SortKey(target.name, target.client)
  }

  function SelectionsOf(targets: seq<Target>): seq<Selection> {
    seq(|targets|, i requires 0 <= i < |targets| => targets[i].selection)
  }

  function Selected(targets: seq<Target>): set<Id> {
    set i | 0 <= i < |targets| :: targets[i].client
  }

  /** Distinct current clients, each with a fresh identifier for its next assignment row. */
  ghost predicate Selectable(t: Tables, targets: seq<Target>) {
    && targets != []
    && (forall i :: 0 <= i < |targets| ==>
          Live(t, targets[i].client) && t.clients[targets[i].client].name == targets[i].name &&
            targets[i].assignmentId !in t.ids)
    && (forall i, j :: 0 <= i < j < |targets| ==>
          targets[i].client != targets[j].client && targets[i].assignmentId != targets[j].assignmentId)
  }

  function ChangesFor(t: Tables, targets: seq<Target>, choices: seq<Choice>): seq<Change>
    requires |choices| == |targets| && forall i :: 0 <= i < |targets| ==> targets[i].client in t.clients
  {
    seq(|targets|, i requires 0 <= i < |targets| =>
      Change(targets[i].client, targets[i].name, t.clients[targets[i].client].status,
             Some(Assignment(targets[i].assignmentId, choices[i].kind, choices[i].address, false))))
  }

  /** Resolves the selections one after the other, growing the list of used addresses. */
  method PlanBatch(layout: Layout, taken: seq<Word>, selections: seq<Selection>)
      returns (result: Result<seq<Choice>, PlanError>)
    requires ValidStaticSet(layout.statics, taken)
    ensures result == Planned(layout, ElementsOf(taken), selections)
  {
    var used := taken;
    var choices: seq<Choice> := [];
    var index := 0;
    assert ElementsOf(taken) + AddressesOf(choices) == ElementsOf(taken);
    while index < |selections|
      invariant 0 <= index <= |selections|
      invariant Planned(layout, ElementsOf(taken), selections[..index]) == Ok(choices)
      invariant ValidStaticSet(layout.statics, used)
      invariant ElementsOf(used) == ElementsOf(taken) + AddressesOf(choices)
    {
      assert selections[..index + 1][..index] == selections[..index];
      var choice := Resolve(layout, used, selections[index]);
      if choice.Err? {
        PlannedStops(layout, ElementsOf(taken), selections, index + 1);
        return Err(choice.error);
      }
      AddressesAppend(choices, choice.value);
      if choice.value.address.Some? {
        UsedAppend(layout.statics, used, choice.value.address.value);
        used := used + [choice.value.address.value];
      }
      choices := choices + [choice.value];
      index := index + 1;
    }
    assert selections[..index] == selections;
    return Ok(choices);
  }

  lemma UsedAppend(r: Range, used: seq<Word>, a: Word)
    requires ValidStaticSet(r, used) && Contains(r, a) && a !in ElementsOf(used)
    ensures ValidStaticSet(r, used + [a]) && ElementsOf(used + [a]) == ElementsOf(used) + {a}
  {
    ElementsAppend(used, a);
    forall i | 0 <= i < |used| ensures used[i] != a {
      assert used[i] in ElementsOf(used);
    }
  }

  lemma {:induction false} PlannedStops(layout: Layout, used: set<Word>, selections: seq<Selection>, n: nat)
    requires n <= |selections| && Planned(layout, used, selections[..n]).Err?
    ensures Planned(layout, used, selections) == Planned(layout, used, selections[..n])
    decreases |selections|
  {
    if n < |selections| {
      var m := |selections| - 1;
      assert selections[..m][..n] == selections[..n];
      PlannedStops(layout, used, selections[..m], n);
    } else {
      assert selections[..n] == selections;
    }
  }

  /** One selection against the used addresses. */
  method Resolve(layout: Layout, used: seq<Word>, selection: Selection) returns (choice: Result<Choice, PlanError>)
    requires ValidStaticSet(layout.statics, used)
    ensures choice == Choose(layout, ElementsOf(used), selection)
    ensures choice.Ok? && choice.value.address.Some? ==>
              Contains(layout.statics, choice.value.address.value) && choice.value.address.value !in ElementsOf(used)
  {
    LeastFreeMeaning(layout.statics, ElementsOf(used));
    match selection {
      case FromPool =>
        if layout.dynamics.capacity == 0 {
          return Err(InvalidRequest);
        }
        return Ok(Choice(Dynamic, None));
      case Auto =>
        var next := NextStatic(layout.statics, used);
        if next.Err? {
          return Err(Conflict);
        }
        return Ok(Choice(Static, Some(next.value)));
      case Fixed(address) =>
        if address.None? || !Contains(layout.statics, address.value) {
          return Err(InvalidRequest);
        }
        var index := 0;
        while index < |used|
          invariant 0 <= index <= |used|
          invariant forall i :: 0 <= i < index ==> used[i] != address.value
        {
          if used[index] == address.value {
            return Err(Conflict);
          }
          index := index + 1;
        }
        return Ok(Choice(Static, address));
    }
  }

  lemma BatchPlaceable(layout: Layout, t: Tables, targets: seq<Target>)
    requires Selectable(t, targets)
    requires Planned(layout, UsedAddresses(t, Selected(targets)), SelectionsOf(targets)).Ok?
    ensures var choices := Planned(layout, UsedAddresses(t, Selected(targets)), SelectionsOf(targets)).value;
            && |choices| == |targets|
            && Checked(t, ChangesFor(t, targets, choices), false)
            && Placeable(layout, t, ChangesFor(t, targets, choices))
            && (forall i :: 0 <= i < |choices| && choices[i].kind == Dynamic ==> layout.dynamics.capacity != 0)
  {
    var used := UsedAddresses(t, Selected(targets));
    PlannedFits(layout, used, SelectionsOf(targets));
    var choices := Planned(layout, used, SelectionsOf(targets)).value;
    var changes := ChangesFor(t, targets, choices);
    SameClients(t, targets, choices);
  }

  /** The addresses free beside the unselected clients once these choices have been made. */
  ghost function FreeAfter(t: Tables, except: set<Id>, choices: seq<Choice>): iset<Word> {
    iset a | a in FreeBeside(t, except) && forall i :: 0 <= i < |choices| ==> choices[i].address != Some(a)
  }

  /** The first selections come to these choices, each made when the ones before it were. */
  ghost predicate Resolves(layout: Layout, t: Tables, ordered: seq<Target>, choices: seq<Choice>) {
    && |choices| <= |ordered|
    && forall i :: 0 <= i < |choices| ==> ResolvesOne(layout, t, ordered, choices, i)
  }

  ghost predicate ResolvesOne(layout: Layout, t: Tables, ordered: seq<Target>, choices: seq<Choice>, i: nat)
    requires i < |choices| <= |ordered|
  {
    Grants(layout, FreeAfter(t, Selected(ordered), choices[..i]), ordered[i].selection, choices[i])
  }

  /** Some selection comes to nothing once the ones before it have been made. */
  ghost predicate Stuck(layout: Layout, t: Tables, ordered: seq<Target>) {
    exists choices :: Resolves(layout, t, ordered, choices) && |choices| < |ordered|
      && !Grantable(layout, FreeAfter(t, Selected(ordered), choices), ordered[|choices|].selection)
  }

  /** Every target's row is its own new one, with the choice its selection comes to; all other rows are as before. */
  ghost predicate Resolved(layout: Layout, t: Tables, t': Tables, ordered: seq<Target>) {
    && (exists choices :: Resolves(layout, t, ordered, choices) && RowsAre(t, t', ordered, choices))
    && (forall c :: c !in Selected(ordered) ==> Lookup(t'.current, c) == Lookup(t.current, c))
    && (forall c :: Lookup(t'.leases, c) == if c in Selected(ordered) then None else Lookup(t.leases, c))
    && t'.clients == t.clients
    && (forall a :: a in t'.ids <==> a in t.ids || exists i :: 0 <= i < |ordered| && ordered[i].assignmentId == a)
  }

  ghost predicate RowsAre(t: Tables, t': Tables, ordered: seq<Target>, choices: seq<Choice>) {
    && |choices| == |ordered|
    && forall i :: 0 <= i < |ordered| ==>
         && ordered[i].client in t.clients
         && Lookup(t'.current, ordered[i].client) == Some(Assignment(
              ordered[i].assignmentId, choices[i].kind, choices[i].address,
              t.clients[ordered[i].client].status != Active))
  }

  lemma FreeAfterUnused(t: Tables, except: set<Id>, choices: seq<Choice>)
    ensures forall a: Word ::
            a in UsedAddresses(t, except) + AddressesOf(choices) <==> a !in FreeAfter(t, except, choices)
  {
    FreeIsUnused(t, except);
    hide UsedAddresses, FreeBeside;
  }

  /** What the plan says of each selection in turn. */
  lemma {:induction false} PlannedResolves(layout: Layout, t: Tables, ordered: seq<Target>, n: nat)
    requires n <= |ordered|
    ensures match Planned(layout, UsedAddresses(t, Selected(ordered)), SelectionsOf(ordered)[..n])
            case Ok(choices) => |choices| == n && Resolves(layout, t, ordered, choices)
            case Err(_) => Stuck(layout, t, ordered)
  {
    hide Grants, Grantable, FreeAfter, UsedAddresses, Choose, ResolvesOne;
    var selections, used := SelectionsOf(ordered), UsedAddresses(t, Selected(ordered));
    if n > 0 {
      PlannedResolves(layout, t, ordered, n - 1);
      assert selections[..n][..n - 1] == selections[..n - 1];
      if Planned(layout, used, selections[..n - 1]).Ok? {
        var choices := Planned(layout, used, selections[..n - 1]).value;
        FreeAfterUnused(t, Selected(ordered), choices);
        ChooseGrants(layout, used + AddressesOf(choices), FreeAfter(t, Selected(ordered), choices), selections[n - 1]);
        var choice := Choose(layout, used + AddressesOf(choices), selections[n - 1]);
        if choice.Ok? {
          ResolvesAppend(layout, t, ordered, choices, choice.value);
        }
      }
    }
  }

  lemma ResolvesAppend(layout: Layout, t: Tables, ordered: seq<Target>, choices: seq<Choice>, choice: Choice)
    requires Resolves(layout, t, ordered, choices) && |choices| < |ordered|
    requires Grants(layout, FreeAfter(t, Selected(ordered), choices), ordered[|choices|].selection, choice)
    ensures Resolves(layout, t, ordered, choices + [choice])
  {
    hide Grants, FreeAfter;
    forall i | 0 <= i < |choices| + 1 ensures ResolvesOne(layout, t, ordered, choices + [choice], i) {
      assert (choices + [choice])[..i] == choices[..i];
      if i < |choices| {
        assert ResolvesOne(layout, t, ordered, choices, i);
      } else {
        assert choices[..i] == choices;
      }
    }
  }

  /** The committed tables hold each choice under its own client and identifier. */
  lemma CommittedRows(layout: Layout, t: Tables, ordered: seq<Target>, choices: seq<Choice>)
    requires Selectable(t, ordered) && |choices| == |ordered| && Resolves(layout, t, ordered, choices)
    ensures Resolved(layout, t, BatchTables(t, ChangesFor(t, ordered, choices)), ordered)
  {
    hide Resolves, Placeable, BatchTables;
    var changes := ChangesFor(t, ordered, choices);
    var t' := BatchTables(t, changes);
    BatchRows(t, changes);
    forall i | 0 <= i < |ordered|
      ensures Lookup(t'.current, ordered[i].client) == Some(Assignment(
                ordered[i].assignmentId, choices[i].kind, choices[i].address,
                t.clients[ordered[i].client].status != Active))
      ensures ordered[i].client !in t'.leases && changes[i].assignment.value.id == ordered[i].assignmentId
    {
      assert changes[i].client == ordered[i].client;
    }
    assert RowsAre(t, t', ordered, choices);
    forall c | c !in Selected(ordered)
      ensures Lookup(t'.current, c) == Lookup(t.current, c) && Lookup(t'.leases, c) == Lookup(t.leases, c)
    {
      forall i | 0 <= i < |changes| ensures changes[i].client != c {
        assert ordered[i].client in Selected(ordered);
      }
    }
  }

  lemma SameClients(t: Tables, ordered: seq<Target>, choices: seq<Choice>)
    requires |choices| == |ordered| && forall i :: 0 <= i < |ordered| ==> ordered[i].client in t.clients
    ensures ClientsOf(ChangesFor(t, ordered, choices)) == Selected(ordered)
  {
    var changes := ChangesFor(t, ordered, choices);
    forall c | c in Selected(ordered) ensures c in ClientsOf(changes) {
      var i :| 0 <= i < |ordered| && ordered[i].client == c;
      assert changes[i].client == c;
    }
  }

  /**
   Setting or editing the addresses of a batch of clients. It succeeds exactly when every
   selection can be resolved in name order, and then commits those choices.
   */
  method ApplyAddresses(store: ClientStore, targets: seq<Target>) returns (ok: bool, ordered: seq<Target>)
    requires store.Valid() && Selectable(store.tables, targets)
    modifies store
    ensures store.Valid()
    ensures multiset(ordered) == multiset(targets) && Order.Sorted(ordered, TargetKey)
    ensures Selectable(old(store.tables), ordered)
    ensures ok <==>
            Planned(store.layout, UsedAddresses(old(store.tables), Selected(ordered)), SelectionsOf(ordered)).Ok?
    ensures !ok ==> store.tables == old(store.tables)
    ensures ok ==> Committed(store.layout, old(store.tables), store.tables, ordered)
    ensures if ok then Resolved(store.layout, old(store.tables), store.tables, ordered)
            else Stuck(store.layout, old(store.tables), ordered)
  {
    hide Consistent, Resolved, Stuck, Resolves;
    var t := store.tables;
    ordered := Order.Sort(targets, TargetKey);
    PermutedSelectable(t, targets, ordered);
    var taken := Listed(UsedAddresses(t, Selected(ordered)));
    TakenValid(store.layout, t, Selected(ordered), taken);
    PlannedResolves(store.layout, t, ordered, |ordered|);
    assert SelectionsOf(ordered)[..|ordered|] == SelectionsOf(ordered);
    var planned := PlanBatch(store.layout, taken, SelectionsOf(ordered));
    if planned.Err? {
      return false, ordered;
    }
    BatchPlaceable(store.layout, t, ordered);
    CommittedRows(store.layout, t, ordered, planned.value);
    ok := CommitClientAddresses(store, ChangesFor(t, ordered, planned.value), false);
  }

  ghost predicate Committed(layout: Layout, t: Tables, t': Tables, ordered: seq<Target>) {
    exists choices :: |choices| == |ordered| && (forall i :: 0 <= i < |ordered| ==> ordered[i].client in t.clients)
      && Planned(layout, UsedAddresses(t, Selected(ordered)), SelectionsOf(ordered)) == Ok(choices)
      && t' == BatchTables(t, ChangesFor(t, ordered, choices))
  }

  lemma TakenValid(layout: Layout, t: Tables, except: set<Id>, taken: seq<Word>)
    requires Consistent(layout, t) && ElementsOf(taken) == UsedAddresses(t, except)
    requires forall i, j :: 0 <= i < j < |taken| ==> taken[i] != taken[j]
    ensures ValidStaticSet(layout.statics, taken)
  {
    forall i | 0 <= i < |taken| ensures Contains(layout.statics, taken[i]) {
      assert taken[i] in ElementsOf(taken);
    }
  }

  lemma PermutedSelectable(t: Tables, targets: seq<Target>, ordered: seq<Target>)
    requires Selectable(t, targets) && multiset(ordered) == multiset(targets)
    ensures Selectable(t, ordered)
  {
    assert |ordered| == |multiset(ordered)| == |targets|;
    forall i | 0 <= i < |ordered| ensures ordered[i] in targets {
      assert ordered[i] in multiset(targets);
    }
    forall i, j | 0 <= i < j < |ordered|
      ensures ordered[i].client != ordered[j].client && ordered[i].assignmentId != ordered[j].assignmentId
    {
      PairInTargets(targets, ordered, i, j);
    }
  }

  /** Two positions of a permutation come from two positions of the original. */
  lemma PairInTargets(targets: seq<Target>, ordered: seq<Target>, i: nat, j: nat)
    requires i < j < |ordered| && multiset(ordered) == multiset(targets)
    ensures exists a, b ::
            0 <= a < |targets| && 0 <= b < |targets| && a != b && targets[a] == ordered[i] && targets[b] == ordered[j]
  {
    assert ordered[i] in multiset(targets) && ordered[j] in multiset(targets);
    if ordered[i] != ordered[j] {
      var a :| 0 <= a < |targets| && targets[a] == ordered[i];
      var b :| 0 <= b < |targets| && targets[b] == ordered[j];
      assert a != b;
    } else {
      assert ordered == ordered[..j] + [ordered[j]] + ordered[j + 1..];
      assert ordered[i] in multiset(ordered[..j]);
      assert multiset(ordered)[ordered[i]] >= 2;
      TwicePresent(targets, ordered[i]);
    }
  }

  lemma {:induction false} TwicePresent(targets: seq<Target>, x: Target)
    requires multiset(targets)[x] >= 2
    ensures exists a, b :: 0 <= a < b < |targets| && targets[a] == x && targets[b] == x
  {
    var n := |targets| - 1;
    assert targets == targets[..n] + [targets[n]];
    if targets[n] == x {
      assert x in multiset(targets[..n]);
      var a :| 0 <= a < n && targets[..n][a] == x;
      assert targets[a] == x;
    } else {
      TwicePresent(targets[..n], x);
      var a, b :| 0 <= a < b < n && targets[..n][a] == x && targets[..n][b] == x;
      assert targets[a] == x && targets[b] == x;
    }
  }

  function Released(t: Tables, c: Id): Tables {
    t.(current := t.current - {c}, leases := t.leases - {c})
  }

  /** The batch that releases one address takes away that and the lease, and nothing else. */
  lemma ReleasedTables(layout: Layout, t: Tables, change: Change)
    requires Consistent(layout, t) && change.client in t.clients && t.clients[change.client].status == Revoked
    requires change.assignment.None? && !NeedsCcd(change)
    ensures BatchTables(t, [change]) == Released(t, change.client)
  {
    var changes, c := [change], change.client;
    assert Ccd(c) !in t.artifacts by {
      if Ccd(c) in t.artifacts {
        KeysOfOwner(layout, t, Ccd(c));
      }
    }
    hide Consistent;
    assert changes[0].client == c && ClientsOf(changes) == {c};
    assert Overlay(t.current, changes, 1) == Overlay(t.current, changes, 0) == t.current - {c};
    assert OverlayIds(t.ids, changes, 1) == OverlayIds(t.ids, changes, 0) == t.ids;
    assert RetiredCcds(t.artifacts, changes, 1) == RetiredCcds(t.artifacts, changes, 0) - {Ccd(c)} == t.artifacts;
    assert UpsertedCcds(t.artifacts, changes, 1) == UpsertedCcds(t.artifacts, changes, 0) == t.artifacts;
  }

  /** Only a revoked client that still retains an address may release it; that and any lease is all that goes. */
  method ReleaseAddress(store: ClientStore, c: Id) returns (ok: bool)
    requires store.Valid()
    modifies store
    ensures store.Valid()
    ensures ok <==>
            c in old(store.tables).clients && old(store.tables).clients[c].status == Revoked &&
            c in old(store.tables).current
    ensures store.tables == if ok then Released(old(store.tables), c) else old(store.tables)
    ensures ok ==>
            c !in store.tables.current && c !in store.tables.leases && OnlyTouches(old(store.tables), store.tables, c)
    ensures store.tables.clients == old(store.tables).clients && store.tables.ids == old(store.tables).ids
  {
    hide Consistent;
    if c !in store.tables.clients || store.tables.clients[c].status != Revoked || c !in store.tables.current {
      return false;
    }
    var changes := [Change(c, store.tables.clients[c].name, Revoked, None)];
    ReleasedTables(store.layout, store.tables, changes[0]);
    ok := CommitClientAddresses(store, changes, true);
  }
}
