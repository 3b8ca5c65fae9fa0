/**
 The client tables of the SQL store on one fixed tunnel network, the operations that
 change a client's lifecycle and address, and the invariant all of them keep. A
 transaction works on a copy of the tables and takes effect by replacing them.
 */
module Clients {
  import opened Results
  import opened Ipam

  type Id = string

  datatype ClientStatus = Active | Revoked | Deleted

  datatype ClientRow = ClientRow(name: string, status: ClientStatus, revokedAt: bool, deletedAt: bool)

  /** A row of the current assignments, those that are active or retained. */
  datatype Assignment = Assignment(id: Id, kind: Kind, address: Option<Word>, retained: bool)

  datatype ArtifactKey = Profile(active: bool, name: string) | Ccd(client: Id)

  /**
   Clients by id; current assignments by client, which is what their unique index on the
   client allows; every assignment id ever used; leases by client; owners of current
   artifact keys.
   */
  datatype Tables = Tables(
    clients: map<Id, ClientRow>, current: map<Id, Assignment>, ids: set<Id>,
    leases: map<Id, Word>, artifacts: map<ArtifactKey, Id>)

  predicate Live(t: Tables, c: Id) {
    c in t.clients && t.clients[c].status != Deleted
  }

  predicate IsActive(t: Tables, c: Id) {
    c in t.clients && t.clients[c].status == Active
  }

  predicate HasStatic(t: Tables, c: Id) {
    c in t.current && t.current[c].kind == Static
  }

  // ------------------------------------------------------------------
  // The invariant
  // ------------------------------------------------------------------

  /** Row-level timestamp rules of each status. */
  ghost predicate Timestamps(t: Tables) {
    forall c :: c in t.clients ==>
      match t.clients[c].status
      case Active => !t.clients[c].revokedAt && !t.clients[c].deletedAt
      case Revoked => t.clients[c].revokedAt && !t.clients[c].deletedAt
      case Deleted => t.clients[c].deletedAt
  }

  ghost predicate NamesUnique(t: Tables) {
    forall a, b :: Live(t, a) && Live(t, b) && t.clients[a].name == t.clients[b].name ==> a == b
  }

  /** Active clients have one active assignment, revoked ones at most one retained, deleted ones none. */
  ghost predicate AssignmentsMatch(t: Tables) {
    && (forall c :: c in t.current ==> Live(t, c) && t.current[c].id in t.ids)
    && (forall c :: c in t.current ==> (t.current[c].retained <==> !IsActive(t, c)))
    && (forall c :: c in t.clients && t.clients[c].status == Active ==> c in t.current)
  }

  ghost predicate AddressesOk(layout: Layout, t: Tables) {
    && (forall c :: c in t.current ==> (t.current[c].kind == Static <==> t.current[c].address.Some?))
    && (forall c ::
      c in t.current && t.current[c].address.Some? ==> Contains(layout.statics, t.current[c].address.value))
    && (forall a, b :: SameAddress(t, a, b) ==> a == b)
    && (layout.dynamics.capacity == 0 ==> forall c :: c in t.current ==> t.current[c].kind == Static)
  }

  ghost predicate LeasesOk(layout: Layout, t: Tables) {
    && (forall c :: c in t.leases ==> c in t.current && t.current[c].kind == Dynamic)
    && (forall c :: c in t.leases ==> Contains(layout.dynamics, t.leases[c]))
    && (forall a, b :: a in t.leases && b in t.leases && t.leases[a] == t.leases[b] ==> a == b)
  }

  /** A key is current exactly when it is the one its owner's state calls for. */
  ghost predicate Wanted(t: Tables, k: ArtifactKey, c: Id) {
    match k
    case Profile(active, name) => Live(t, c) && t.clients[c].name == name && (active <==> t.clients[c].status == Active)
    case Ccd(client) => client == c && IsActive(t, c) && HasStatic(t, c)
  }

  ghost predicate ArtifactsMatch(t: Tables) {
    && (forall k :: k in t.artifacts ==> Wanted(t, k, t.artifacts[k]))
    && (forall c :: c in t.clients && t.clients[c].status != Deleted ==>
          Profile(t.clients[c].status == Active, t.clients[c].name) in t.artifacts)
    && (forall c :: c in t.current && t.current[c].kind == Static && IsActive(t, c) ==> Ccd(c) in t.artifacts)
  }

  ghost predicate Consistent(layout: Layout, t: Tables) {
    && Timestamps(t) && NamesUnique(t) && AssignmentsMatch(t)
    && AddressesOk(layout, t) && LeasesOk(layout, t) && ArtifactsMatch(t)
  }

  /** The kinds of artifacts a client may own. */
  datatype ArtifactKind = ClientCert | ClientKey | ProfileFile | CcdFile

  function KindOf(k: ArtifactKey): ArtifactKind {
    if k.Profile? then ProfileFile else CcdFile
  }

  /** The key as it is stored, segment by segment. */
  function PathOf(k: ArtifactKey): seq<string> {
    match k
    case Profile(active, name) => ["clients", if active then "active" else "revoked", name + ".ovpn"]
    case Ccd(client) => ["ccd", client]
  }

  predicate Segment(s: string) {
    s != "" && s != "." && s != ".." && '/' !in s && '\\' !in s
  }

  /** A relative path that cleaning does not change. */
  predicate CanonicalPath(path: seq<string>) {
    path != [] && forall i :: 0 <= i < |path| ==> Segment(path[i])
  }

  lemma KeysHaveOwnPaths(a: ArtifactKey, b: ArtifactKey)
    requires PathOf(a) == PathOf(b)
    ensures a == b
  {
    if a.Profile? && b.Profile? {
      var x, y := PathOf(a), PathOf(b);
      assert x[1] == y[1] && "active"[0] != "revoked"[0];
      assert x[2][..|x[2]| - 5] == a.name && y[2][..|y[2]| - 5] == b.name;
    } else {
      assert |PathOf(a)| == |PathOf(b)|;
      assert PathOf(a)[1] == PathOf(b)[1];
    }
  }

  lemma PathsAreCanonical(k: ArtifactKey)
    requires if k.Profile? then '/' !in k.name && '\\' !in k.name else Segment(k.client)
    ensures CanonicalPath(PathOf(k))
  {
    if k.Profile? {
      var file := k.name + ".ovpn";
      assert |file| >= 5 && file[|file| - 1] == 'n';
      assert forall i :: 0 <= i < |file| ==> file[i] == if i < |k.name| then k.name[i] else ".ovpn"[i - |k.name|];
    }
  }

  /** The checks on the artifacts a client owns: canonical keys, those its state calls for and of kinds a client has. */
  ghost predicate ValidArtifacts(t: Tables, c: Id)
    requires c in t.clients
  {
    var row := t.clients[c];
    forall k :: k in t.artifacts && t.artifacts[k] == c ==>
      && (KindOf(k) == ProfileFile ==>
        PathOf(k) == PathOf(Profile(row.status == Active, row.name)) && row.status != Deleted)
      && (KindOf(k) == CcdFile ==> PathOf(k) == ["ccd", c] && IsActive(t, c) && HasStatic(t, c))
      && (Segment(c) && '/' !in row.name && '\\' !in row.name ==> CanonicalPath(PathOf(k)))
  }

  /** The checks made when a client aggregate is loaded. */
  ghost predicate ValidClientState(layout: Layout, t: Tables, c: Id)
    requires c in t.clients
  {
    var row := t.clients[c];
    && (row.status == Active ==> !row.revokedAt && !row.deletedAt)
    && (row.status == Revoked ==> row.revokedAt && !row.deletedAt)
    && (row.status == Deleted ==> row.deletedAt)
    && (c in t.current ==>
      if t.current[c].kind == Static then t.current[c].address.Some? else t.current[c].address.None?)
    && (c in t.current && t.current[c].address.Some? ==> Contains(layout.statics, t.current[c].address.value))
    && (c in t.leases ==> c in t.current && t.current[c].kind == Dynamic && Contains(layout.dynamics, t.leases[c]))
    && ValidArtifacts(t, c)
  }

  lemma ConsistentLoads(layout: Layout, t: Tables, c: Id)
    requires Consistent(layout, t) && c in t.clients
    ensures ValidClientState(layout, t, c)
  {
    if c in t.current {
      assert t.current[c].kind == Static <==> t.current[c].address.Some?;
    }
    ArtifactsLoad(t, c);
  }

  lemma ArtifactsLoad(t: Tables, c: Id)
    requires ArtifactsMatch(t) && c in t.clients
    ensures ValidArtifacts(t, c)
  {
    hide PathOf, CanonicalPath, Segment;
    forall k | k in t.artifacts && t.artifacts[k] == c
      ensures k.Profile? ==> k == Profile(t.clients[c].status == Active, t.clients[c].name) && Live(t, c)
      ensures k.Ccd? ==> k == Ccd(c) && IsActive(t, c) && HasStatic(t, c)
      ensures Segment(c) && '/' !in t.clients[c].name && '\\' !in t.clients[c].name ==> CanonicalPath(PathOf(k))
    {
      assert Wanted(t, k, t.artifacts[k]);
      if Segment(c) && '/' !in t.clients[c].name && '\\' !in t.clients[c].name {
        PathsAreCanonical(k);
      }
    }
    CcdPath(c);
  }

  lemma CcdPath(c: Id)
    ensures PathOf(Ccd(c)) == ["ccd", c]
  {
  }

  /** Who uses an address: the network itself, the server, a client, a lease. */
  datatype Holder = NetworkAddress | ServerAddress | BroadcastAddress | AssignedTo(client: Id) | LeasedBy(client: Id)

  function AddressHeld(layout: Layout, t: Tables, h: Holder): Option<nat>
    requires layout.network.prefix <= 32
  {
    match h
    case NetworkAddress => Some(layout.network.address)
    case ServerAddress => Some(layout.server)
    case BroadcastAddress => Some(Broadcast(layout.network))
    case AssignedTo(c) => if c in t.current && t.current[c].address.Some? then Some(t.current[c].address.value)
      else None
    case LeasedBy(c) => if c in t.leases then Some(t.leases[c]) else None
  }

  /** What region a holder's address comes from. */
  ghost predicate InRegion(layout: Layout, h: Holder, address: nat)
    requires layout.network.prefix <= 32
  {
    match h
    case NetworkAddress => address == layout.network.address
    case ServerAddress => address == layout.server
    case BroadcastAddress => address == Broadcast(layout.network)
    case AssignedTo(_) => address < WORD && address in Members(layout.statics)
    case LeasedBy(_) => address < WORD && address in Members(layout.dynamics)
  }

  lemma HolderRegion(layout: Layout, t: Tables, h: Holder)
    requires layout.network.prefix <= 32 && Consistent(layout, t) && AddressHeld(layout, t, h).Some?
    ensures InRegion(layout, h, AddressHeld(layout, t, h).value)
  {
  }

  lemma RegionsApart(n: Network, dynamicPoolSize: nat, a: Holder, b: Holder, address: nat)
    requires Canonical(n) && NewIPv4Layout(n, dynamicPoolSize).Ok?
    requires InRegion(NewIPv4Layout(n, dynamicPoolSize).value, a, address)
    requires InRegion(NewIPv4Layout(n, dynamicPoolSize).value, b, address)
    ensures a == b || (a.AssignedTo? && b.AssignedTo?) || (a.LeasedBy? && b.LeasedBy?)
  {
    LayoutPartition(n, dynamicPoolSize);
    var layout := NewIPv4Layout(n, dynamicPoolSize).value;
    if address < WORD {
      assert address in Members(layout.clients) <==>
             address in Members(layout.statics) || address in Members(layout.dynamics);
    }
  }

  /** No two holders on the tunnel network ever share an address. */
  lemma GlobalDistinctness(n: Network, dynamicPoolSize: nat, t: Tables, a: Holder, b: Holder)
    requires Canonical(n) && NewIPv4Layout(n, dynamicPoolSize).Ok?
    requires Consistent(NewIPv4Layout(n, dynamicPoolSize).value, t)
    requires a != b && AddressHeld(NewIPv4Layout(n, dynamicPoolSize).value, t, a).Some?
    ensures AddressHeld(NewIPv4Layout(n, dynamicPoolSize).value, t, a)
            != AddressHeld(NewIPv4Layout(n, dynamicPoolSize).value, t, b)
  {
    var layout := NewIPv4Layout(n, dynamicPoolSize).value;
    if (a.AssignedTo? && b.AssignedTo?) || (a.LeasedBy? && b.LeasedBy?) {
      SameKindApart(layout, t, a, b);
    } else if AddressHeld(layout, t, a) == AddressHeld(layout, t, b) {
      HolderRegion(layout, t, a);
      HolderRegion(layout, t, b);
      RegionsApart(n, dynamicPoolSize, a, b, AddressHeld(layout, t, a).value);
    }
  }

  /** Two clients' assignments, or two clients' leases. */
  lemma SameKindApart(layout: Layout, t: Tables, a: Holder, b: Holder)
    requires layout.network.prefix <= 32 && Consistent(layout, t)
    requires a != b && AddressHeld(layout, t, a).Some?
    requires (a.AssignedTo? && b.AssignedTo?) || (a.LeasedBy? && b.LeasedBy?)
    ensures AddressHeld(layout, t, a) != AddressHeld(layout, t, b)
  {
    if a.AssignedTo? && b.AssignedTo? {
      assert SameAddress(t, a.client, b.client) <==> AddressHeld(layout, t, a) == AddressHeld(layout, t, b);
    }
  }

  // ------------------------------------------------------------------
  // Statements of a transaction
  // ------------------------------------------------------------------

  predicate AddressFree(t: Tables, address: Option<Word>) {
    address.Some? ==> forall c :: c in t.current ==> t.current[c].address != address
  }

  /** Inserts a current assignment, or violates a range check, a key or a unique index. */
  function InsertAssignment(layout: Layout, t: Tables, c: Id, a: Assignment): Option<Tables> {
    if a.address.Some? && !Contains(layout.statics, a.address.value) then None
    else if a.id in t.ids || c in t.current || !AddressFree(t, a.address) then None
    else Some(t.(current := t.current[c := a], ids := t.ids + {a.id}))
  }

  /** Releases the client's current assignment, if it has one. */
  function ReleaseAssignment(t: Tables, c: Id): Tables {
    t.(current := t.current - {c})
  }

  function ClearLease(t: Tables, c: Id): Tables {
    t.(leases := t.leases - {c})
  }

  function RetireArtifact(t: Tables, k: ArtifactKey, c: Id): Tables {
    if k in t.artifacts && t.artifacts[k] == c then t.(artifacts := t.artifacts - {k}) else t
  }

  function UpsertArtifact(t: Tables, k: ArtifactKey, c: Id): Option<Tables> {
    if k in t.artifacts && t.artifacts[k] != c then None
    else Some(t.(artifacts := t.artifacts[k := c]))
  }

  function SetStatus(t: Tables, c: Id, status: ClientStatus, revokedAt: bool, deletedAt: bool): Tables
    requires c in t.clients
  {
    t.(clients := t.clients[c := ClientRow(t.clients[c].name, status, revokedAt, deletedAt)])
  }

  // ------------------------------------------------------------------
  // Choosing an address
  // ------------------------------------------------------------------

  datatype Selection = Auto | FromPool | Fixed(address: Option<Word>)

  datatype PlanError = InvalidRequest | Conflict

  datatype Choice = Choice(kind: Kind, address: Option<Word>)

  /** What a selection means for a client when these addresses are taken. */
  function Choose(layout: Layout, used: set<Word>, selection: Selection): Result<Choice, PlanError> {
    match selection
    case FromPool => if layout.dynamics.capacity == 0 then Err(InvalidRequest) else Ok(Choice(Dynamic, None))
    case Auto =>
      (match LeastFree(layout.statics, used)
       case None => Err(Conflict)
       case Some(a) => Ok(Choice(Static, Some(a))))
    case Fixed(None) => Err(InvalidRequest)
    case Fixed(Some(a)) =>
      if !Contains(layout.statics, a) then Err(InvalidRequest)
      else if a in used then Err(Conflict)
      else Ok(Choice(Static, Some(a)))
  }

  /** The addresses assigned to clients other than `except`. */
  function UsedAddresses(t: Tables, except: set<Id>): set<Word> {
    set c | c in t.current && c !in except && t.current[c].address.Some? :: t.current[c].address.value
  }

  ghost predicate ChoiceFits(layout: Layout, t: Tables, except: set<Id>, choice: Choice) {
    && (choice.kind == Static <==> choice.address.Some?)
    && (choice.address.Some? ==>
      Contains(layout.statics, choice.address.value) && choice.address.value !in UsedAddresses(t, except))
    && (choice.kind == Dynamic ==> layout.dynamics.capacity != 0)
  }

  /** A choice made against the tables is admissible, and an automatic one is the lowest free address. */
  lemma ChooseFits(layout: Layout, t: Tables, except: set<Id>, selection: Selection)
    ensures var choice := Choose(layout, UsedAddresses(t, except), selection);
            && (choice.Ok? ==> ChoiceFits(layout, t, except, choice.value))
            && (selection.Auto? && choice.Ok? ==>
              IsLeastFree(layout.statics, UsedAddresses(t, except), choice.value.address.value))
            && (selection.Auto? && choice.Err? ==> Full(layout.statics, UsedAddresses(t, except)))
  {
    LeastFreeMeaning(layout.statics, UsedAddresses(t, except));
  }

  /** The addresses that no client outside `except` has been assigned. */
  ghost function FreeBeside(t: Tables, except: set<Id>): iset<Word> {
    iset a: Word | forall c :: c in t.current && c !in except ==> t.current[c].address != Some(a)
  }

  /** What a selection comes to: a place in the pool, the address asked for, or the least free one. */
  ghost predicate Grants(layout: Layout, free: iset<Word>, selection: Selection, choice: Choice) {
    match selection
    case FromPool => choice == Choice(Dynamic, None) && layout.dynamics.capacity > 0
    case Fixed(wanted) =>
      && choice == Choice(Static, wanted) && wanted.Some?
      && Contains(layout.statics, wanted.value) && wanted.value in free
    case Auto =>
      && choice.kind == Static && choice.address.Some?
      && Contains(layout.statics, choice.address.value) && choice.address.value in free
      && forall a: Word :: Contains(layout.statics, a) && a in free ==> choice.address.value <= a
  }

  /** Whether there is anything to grant. */
  ghost predicate Grantable(layout: Layout, free: iset<Word>, selection: Selection) {
    match selection
    case FromPool => layout.dynamics.capacity > 0
    case Fixed(wanted) => wanted.Some? && Contains(layout.statics, wanted.value) && wanted.value in free
    case Auto => exists a: Word :: Contains(layout.statics, a) && a in free
  }

  /** A selection no tables could grant is invalid; any other refusal is a conflict with what is in use. */
  predicate Refuses(layout: Layout, selection: Selection, e: PlanError) {
    e == match selection
         case FromPool => InvalidRequest
         case Fixed(wanted) =>
           if wanted.Some? && Contains(layout.statics, wanted.value) then Conflict else InvalidRequest
         case Auto => Conflict
  }

  /** The choice is what the selection grants, and there is one exactly if it grants anything. */
  lemma ChooseGrants(layout: Layout, used: set<Word>, free: iset<Word>, selection: Selection)
    requires forall a: Word :: a in used <==> a !in free
    ensures match Choose(layout, used, selection)
            case Ok(choice) => Grants(layout, free, selection, choice) && Grantable(layout, free, selection)
            case Err(e) => Refuses(layout, selection, e) && !Grantable(layout, free, selection)
  {
    LeastFreeMeaning(layout.statics, used);
  }

  lemma FreeIsUnused(t: Tables, except: set<Id>)
    ensures forall a: Word :: a in UsedAddresses(t, except) <==> a !in FreeBeside(t, except)
  {
  }

  /** Nothing is told of clients other than `c` but what was told before. */
  ghost predicate OnlyTouches(t: Tables, t': Tables, c: Id) {
    && SameBut(t.clients, t'.clients, c) && SameBut(t.current, t'.current, c) && SameBut(t.leases, t'.leases, c)
    && OthersKeep(t.artifacts, t'.artifacts, c)
  }

  ghost predicate SameBut<V(!new)>(m: map<Id, V>, m': map<Id, V>, c: Id) {
    forall other :: other != c ==> Lookup(m', other) == Lookup(m, other)
  }

  /** The keys that others own, and those nobody owns, are the same but for what `c` gains and loses. */
  ghost predicate OthersKeep(artifacts: map<ArtifactKey, Id>, artifacts': map<ArtifactKey, Id>, c: Id) {
    && (forall k :: k in artifacts && artifacts[k] != c ==> k in artifacts' && artifacts'[k] == artifacts[k])
    && (forall k :: k in artifacts' && artifacts'[k] != c ==> k in artifacts && artifacts[k] == artifacts'[k])
  }

  class ClientStore {
    const layout: Layout
    var tables: Tables

    ghost predicate Valid()
      reads this
    {
      Consistent(layout, tables)
    }

    constructor (layout: Layout)
      ensures Valid() && this.layout == layout && tables.clients == map[]
    {
      this.layout := layout;
      tables := Tables(map[], map[], {}, map[], map[]);
    }

    /** Scans the other clients for addresses in use, then applies the selection. */
    method PlanAssignment(except: Id, selection: Selection) returns (choice: Result<Choice, PlanError>)
      requires Valid()
      ensures choice == Choose(layout, UsedAddresses(tables, {except}), selection)
      ensures choice.Ok? ==> ChoiceFits(layout, tables, {except}, choice.value)
      ensures match choice
              case Ok(granted) =>
                && Grants(layout, FreeBeside(tables, {except}), selection, granted)
                && Grantable(layout, FreeBeside(tables, {except}), selection)
              case Err(e) =>
                Refuses(layout, selection, e) && !Grantable(layout, FreeBeside(tables, {except}), selection)
    {
      ChooseFits(layout, tables, {except}, selection);
      FreeIsUnused(tables, {except});
      ChooseGrants(layout, UsedAddresses(tables, {except}), FreeBeside(tables, {except}), selection);
      hide Grants, Grantable, FreeBeside;
      match selection {
        case Auto =>
          var used := Listed(UsedAddresses(tables, {except}));
          forall i | 0 <= i < |used| ensures Contains(layout.statics, used[i]) {
            assert used[i] in ElementsOf(used);
          }
          var next := NextStatic(layout.statics, used);
          if next.Err? {
            return Err(Conflict);
          }
          return Ok(Choice(Static, Some(next.value)));
        case FromPool =>
          if layout.dynamics.capacity == 0 {
            return Err(InvalidRequest);
          }
          return Ok(Choice(Dynamic, None));
        case Fixed(address) =>
          if address.None? || !Contains(layout.statics, address.value) {
            return Err(InvalidRequest);
          }
          var others := tables.current.Keys - {except};
          while others != {}
            invariant others <= tables.current.Keys - {except}
            invariant forall c ::
                      c in tables.current && c != except && c !in others ==> tables.current[c].address != address
            decreases others
          {
            var c :| c in others;
            if tables.current[c].address == address {
              return Err(Conflict);
            }
            others := others - {c};
          }
          return Ok(Choice(Static, address));
      }
    }

    /** A new active client with its assignment, profile and, for a fixed address, CCD. */
    method Create(id: Id, assignmentId: Id, name: string, selection: Selection) returns (ok: bool)
      requires Valid() && id !in tables.clients && assignmentId !in tables.ids
      modifies this
      ensures Valid()
      ensures ok <==> NameFree(old(tables), name) && Choose(layout, UsedAddresses(old(tables), {id}), selection).Ok?
      ensures tables == if ok
              then Created(old(tables), id, assignmentId, name,
                           Choose(layout, UsedAddresses(old(tables), {id}), selection).value)
              else old(tables)
      ensures ok <==> NameFree(old(tables), name) && Grantable(layout, FreeBeside(old(tables), {id}), selection)
      ensures ok ==>
                && OnlyTouches(old(tables), tables, id)
                && id in tables.clients && tables.clients[id] == ClientRow(name, Active, false, false)
                && id in tables.current && tables.current[id].id == assignmentId
                && Grants(layout, FreeBeside(old(tables), {id}), selection,
                     Choice(tables.current[id].kind, tables.current[id].address))
                && tables.ids == old(tables).ids + {assignmentId} && id !in tables.leases
    {
      hide Consistent, Choose, ChoiceFits, UsedAddresses, Grants, Grantable, FreeBeside, OnlyTouches;
      if exists c :: c in tables.clients && Live(tables, c) && tables.clients[c].name == name {
        return false;
      }
      var choice := PlanAssignment(id, selection);
      if choice.Err? {
        return false;
      }
      CreatedConsistent(layout, tables, id, assignmentId, name, choice.value);
      CreatedTouches(layout, tables, id, assignmentId, name, choice.value);
      var t := tables.(clients := tables.clients[id := ClientRow(name, Active, false, false)]);
      var next := InsertAssignment(layout, t, id,
        Assignment(assignmentId, choice.value.kind, choice.value.address, false));
      if next.None? {
        return false;
      }
      next := UpsertArtifact(next.value, Profile(true, name), id);
      if next.None? {
        return false;
      }
      if choice.value.kind == Static {
        next := UpsertArtifact(next.value, Ccd(id), id);
        if next.None? {
          return false;
        }
      }
      tables := next.value;
      return true;
    }

    /** A new name for a current client; its profile moves with it. */
    method Rename(c: Id, name: string) returns (ok: bool)
      requires Valid()
      modifies this
      ensures Valid()
      ensures ok <==> Live(old(tables), c) && (old(tables).clients[c].name == name || NameFree(old(tables), name))
      ensures tables == if ok && old(tables).clients[c].name != name then Renamed(old(tables), c, name) else old(tables)
      ensures ok ==>
                && OnlyTouches(old(tables), tables, c)
                && c in tables.clients && tables.clients[c] == old(tables).clients[c].(name := name)
                && tables.current == old(tables).current && tables.ids == old(tables).ids
                && tables.leases == old(tables).leases
    {
      hide OnlyTouches;
      SameTouches(tables, c);
      if !Live(tables, c) {
        return false;
      }
      if tables.clients[c].name == name {
        return true;
      }
      if exists other :: other in tables.clients && Live(tables, other) && tables.clients[other].name == name {
        return false;
      }
      RenamedConsistent(layout, tables, c, name);
      RenamedTouches(layout, tables, c, name);
      var row := tables.clients[c];
      var t := tables.(clients := tables.clients[c := row.(name := name)]);
      t := RetireArtifact(t, Profile(row.status == Active, row.name), c);
      var next := UpsertArtifact(t, Profile(row.status == Active, name), c);
      if next.None? {
        return false;
      }
      tables := next.value;
      return true;
    }

    /** An active client is revoked; its address is retained or released. */
    method Revoke(c: Id, release: bool) returns (ok: bool)
      requires Valid()
      modifies this
      ensures Valid()
      ensures ok <==> IsActive(old(tables), c)
      ensures tables == if ok then RevokedTables(old(tables), c, release) else old(tables)
      ensures ok ==>
                && OnlyTouches(old(tables), tables, c)
                && c in tables.clients && c in old(tables).current
                && tables.clients[c] == ClientRow(old(tables).clients[c].name, Revoked, true, false)
                && Lookup(tables.current, c) ==
                     (if release then None else Some(old(tables).current[c].(retained := true)))
                && tables.ids == old(tables).ids && c !in tables.leases
    {
      hide Consistent, OnlyTouches;
      if !IsActive(tables, c) {
        return false;
      }
      RevokedConsistent(layout, tables, c, release);
      RevokedTouches(layout, tables, c, release);
      var name := tables.clients[c].name;
      var t := SetStatus(tables, c, Revoked, true, false);
      if release {
        t := ReleaseAssignment(t, c);
      } else if c in t.current {
        t := t.(current := t.current[c := t.current[c].(retained := true)]);
      }
      t := ClearLease(t, c);
      RetireMeaning(t, Profile(true, name), c);
      t := RetireArtifact(t, Profile(true, name), c);
      RetireMeaning(t, Ccd(c), c);
      if Ccd(c) in tables.artifacts {
        t := RetireArtifact(t, Ccd(c), c);
      }
      assert t.artifacts == tables.artifacts - {Profile(true, name), Ccd(c)};
      var next := UpsertArtifact(t, Profile(false, name), c);
      if next.None? {
        return false;
      }
      tables := next.value;
      return true;
    }

    /** Keeps the current assignment, or plans a new one against the other clients. */
    method PlanReissue(c: Id, assignmentId: Id, selection: Option<Selection>) returns (assignment: Option<Assignment>)
      requires Valid()
      ensures assignment == ReissueAssignment(layout, tables, c, assignmentId, selection)
      ensures selection.None? && c in tables.current ==> assignment == Some(tables.current[c].(retained := false))
      ensures !(selection.None? && c in tables.current) ==>
                PlansNew(layout, FreeBeside(tables, {c}), assignmentId, selection, assignment)
    {
      hide Grants, Grantable, FreeBeside;
      if selection.None? && c in tables.current {
        return Some(tables.current[c].(retained := false));
      }
      var choice := PlanAssignment(c, if selection.None? then Auto else selection.value);
      if choice.Err? {
        return None;
      }
      return Some(Assignment(assignmentId, choice.value.kind, choice.value.address, false));
    }

    /** A current client becomes active with new credentials and the selected address. */
    method Reissue(c: Id, assignmentId: Id, selection: Option<Selection>) returns (ok: bool)
      requires Valid() && assignmentId !in tables.ids
      modifies this
      ensures Valid()
      ensures ok <==> Live(old(tables), c) && ReissueAssignment(layout, old(tables), c, assignmentId, selection).Some?
      ensures tables == if ok
              then Reissued(old(tables), c, ReissueAssignment(layout, old(tables), c, assignmentId, selection).value)
              else old(tables)
      ensures ok ==>
                && OnlyTouches(old(tables), tables, c)
                && c in tables.clients
                && tables.clients[c] == ClientRow(old(tables).clients[c].name, Active, false, false)
                && c in tables.current && c !in tables.leases
      ensures selection.None? && c in old(tables).current ==> ok == Live(old(tables), c)
      ensures ok && selection.None? && c in old(tables).current ==>
                && tables.current[c] == old(tables).current[c].(retained := false)
                && tables.ids == old(tables).ids
      ensures Live(old(tables), c) && !(selection.None? && c in old(tables).current) ==>
                && PlansNew(layout, FreeBeside(old(tables), {c}), assignmentId, selection,
                     if ok then Lookup(tables.current, c) else None)
                && tables.ids == if ok then old(tables).ids + {assignmentId} else old(tables).ids
    {
      hide OnlyTouches, Grants, Grantable, FreeBeside, Choose, Reissued, AssignmentFits, UsedAddresses, Consistent;
      if !Live(tables, c) {
        return false;
      }
      var planned := PlanReissue(c, assignmentId, selection);
      if planned.None? {
        return false;
      }
      var assignment := planned.value;
      LocalOf(layout, tables, c);
      assert c in tables.current ==> tables.ids + {tables.current[c].id} == tables.ids;
      ReissueFits(layout, tables, c, assignmentId, selection);
      ReissuedConsistent(layout, tables, c, assignment);
      var reissued := CommitReissue(c, assignment);
      if reissued.None? {
        return false;
      }
      tables := reissued.value;
      return true;
    }

    /** The reissue transaction: reactivate or replace the assignment, then swap the artifacts. */
    method CommitReissue(c: Id, assignment: Assignment) returns (result: Option<Tables>)
      requires Valid() && Live(tables, c) && AssignmentFits(layout, tables, c, assignment)
      requires assignment.id !in tables.ids ||
               (c in tables.current && assignment == tables.current[c].(retained := false))
      ensures result == Some(Reissued(tables, c, assignment))
      ensures var t := result.value;
              && OnlyTouches(tables, t, c)
              && c in t.clients && t.clients[c] == ClientRow(tables.clients[c].name, Active, false, false)
              && c in t.current && t.current[c] == assignment && t.ids == tables.ids + {assignment.id}
              && c !in t.leases
    {
      hide Consistent, OnlyTouches;
      ReissuedTouches(layout, tables, c, assignment);
      KeysOfClient(layout, tables, c);
      LocalOf(layout, tables, c);
      var row := tables.clients[c];
      var t := SetStatus(tables, c, Active, false, false);
      if c in t.current && t.current[c].id == assignment.id {
        t := t.(current := t.current[c := t.current[c].(retained := false)]);
        assert t.ids == t.ids + {assignment.id};
      } else {
        t := ReleaseAssignment(t, c);
        var inserted := InsertAssignment(layout, t, c, assignment);
        if inserted.None? {
          return None;
        }
        t := inserted.value;
        assert t.current == tables.current[c := assignment];
      }
      t := ClearLease(t, c);
      SwapMeaning(tables, t, c, assignment.kind);
      return SwapReissueArtifacts(tables, t, c, assignment.kind);
    }

    /** A current client becomes a tombstone whose name may be used again. */
    method Delete(c: Id) returns (ok: bool)
      requires Valid()
      modifies this
      ensures Valid()
      ensures ok <==> Live(old(tables), c)
      ensures tables == if ok then DeletedTables(old(tables), c) else old(tables)
      ensures ok ==>
                && OnlyTouches(old(tables), tables, c)
                && c in tables.clients
                && tables.clients[c] == ClientRow(old(tables).clients[c].name, Deleted, true, true)
                && c !in tables.current && tables.ids == old(tables).ids && c !in tables.leases
    {
      hide Consistent, OnlyTouches;
      if !Live(tables, c) {
        return false;
      }
      DeletedConsistent(layout, tables, c);
      DeletedTouches(layout, tables, c);
      var row := tables.clients[c];
      var t := SetStatus(tables, c, Deleted, true, true);
      t := ReleaseAssignment(t, c);
      t := ClearLease(t, c);
      RetireMeaning(t, Profile(row.status == Active, row.name), c);
      t := RetireArtifact(t, Profile(row.status == Active, row.name), c);
      RetireMeaning(t, Ccd(c), c);
      t := RetireArtifact(t, Ccd(c), c);
      assert t.artifacts == tables.artifacts - {Profile(row.status == Active, row.name), Ccd(c)};
      tables := t;
      return true;
    }

    /** Records a lease of a dynamic client, taking the address over from whoever held it. */
    method RecordLease(c: Id, address: Word) returns (ok: bool)
      requires Valid()
      modifies this
      ensures Valid()
      ensures ok <==>
              c in old(tables).current && old(tables).current[c].kind == Dynamic && Contains(layout.dynamics, address)
      ensures tables == if ok then Leased(old(tables), c, address) else old(tables)
      ensures ok ==>
              tables == old(tables).(leases := tables.leases) && c in tables.leases && tables.leases[c] == address
      ensures ok ==> forall other :: other != c ==>
                Lookup(tables.leases, other) ==
                if Lookup(old(tables).leases, other) == Some(address) then None else Lookup(old(tables).leases, other)
    {
      hide Consistent;
      if c !in tables.current || tables.current[c].kind != Dynamic || !Contains(layout.dynamics, address) {
        return false;
      }
      LeasedConsistent(layout, tables, c, address);
      var stale := set other | other in tables.leases && tables.leases[other] == address && other != c;
      assert (tables.leases - stale)[c := address] == Leased(tables, c, address).leases;
      tables := tables.(leases := (tables.leases - stale)[c := address]);
      return true;
    }
  }

  // ------------------------------------------------------------------
  // The tables after each operation
  // ------------------------------------------------------------------

  predicate NameFree(t: Tables, name: string) {
    forall c :: c in t.clients && Live(t, c) ==> t.clients[c].name != name
  }

  function Created(t: Tables, id: Id, assignmentId: Id, name: string, choice: Choice): Tables {
    Tables(
      t.clients[id := ClientRow(name, Active, false, false)],
      t.current[id := Assignment(assignmentId, choice.kind, choice.address, false)],
      t.ids + {assignmentId}, t.leases,
      if choice.kind == Static then t.artifacts[Profile(true, name) := id][Ccd(id) := id]
        else t.artifacts[Profile(true, name) := id])
  }

  function Renamed(t: Tables, c: Id, name: string): Tables
    requires c in t.clients
  {
    var row := t.clients[c];
    t.(clients := t.clients[c := row.(name := name)],
       artifacts := (t.artifacts - {Profile(row.status == Active, row.name)})[Profile(row.status == Active, name) := c])
  }

  function RevokedTables(t: Tables, c: Id, release: bool): Tables
    requires c in t.clients && c in t.current
  {
    var name := t.clients[c].name;
    Tables(
      t.clients[c := ClientRow(name, Revoked, true, false)],
      if release then t.current - {c} else t.current[c := t.current[c].(retained := true)],
      t.ids, t.leases - {c},
      (t.artifacts - {Profile(true, name), Ccd(c)})[Profile(false, name) := c])
  }

  function ReissueAssignment(layout: Layout, t: Tables, c: Id, assignmentId: Id,
      selection: Option<Selection>): Option<Assignment>
  {
    if selection.None? && c in t.current then Some(t.current[c].(retained := false))
    else
      match Choose(layout, UsedAddresses(t, {c}), if selection.None? then Auto else selection.value)
      case Err(_) => None
      case Ok(choice) => Some(Assignment(assignmentId, choice.kind, choice.address, false))
  }

  /** A new assignment row: what the selection grants beside the other clients, automatic by default. */
  ghost predicate PlansNew(layout: Layout, free: iset<Word>, assignmentId: Id, selection: Option<Selection>,
      assignment: Option<Assignment>)
  {
    var selected := if selection.None? then Auto else selection.value;
    if Grantable(layout, free, selected)
    then
      && assignment.Some?
      && assignment.value.id == assignmentId && !assignment.value.retained
      && Grants(layout, free, selected, Choice(assignment.value.kind, assignment.value.address))
    else assignment.None?
  }

  function Reissued(t: Tables, c: Id, a: Assignment): Tables
    requires c in t.clients
  {
    Tables(
      t.clients[c := ClientRow(t.clients[c].name, Active, false, false)],
      t.current[c := a], t.ids + {a.id}, t.leases - {c},
      ReissueArtifacts(t.artifacts, t.clients[c].name, c, a.kind))
  }

  function ReissueArtifacts(artifacts: map<ArtifactKey, Id>, name: string, c: Id, kind: Kind): map<ArtifactKey, Id> {
    var kept := artifacts - {Profile(false, name), Ccd(c)};
    if kind == Static then kept[Profile(true, name) := c][Ccd(c) := c] else kept[Profile(true, name) := c]
  }

  /** The artifact statements of a reissue. */
  function SwapReissueArtifacts(before: Tables, t: Tables, c: Id, kind: Kind): (result: Option<Tables>)
    requires c in before.clients
  {
    var row := before.clients[c];
    var t1 := if row.status == Revoked then RetireArtifact(t, Profile(false, row.name), c) else t;
    var t2 := if kind != Static && Ccd(c) in t1.artifacts then RetireArtifact(t1, Ccd(c), c) else t1;
    match UpsertArtifact(t2, Profile(true, row.name), c)
    case None => None
    case Some(t3) => if kind == Static then UpsertArtifact(t3, Ccd(c), c) else Some(t3)
  }

  lemma RetireMeaning(t: Tables, k: ArtifactKey, c: Id)
    requires k in t.artifacts ==> t.artifacts[k] == c
    ensures RetireArtifact(t, k, c) == t.(artifacts := t.artifacts - {k})
  {
    if k !in t.artifacts {
      assert t.artifacts == t.artifacts - {k};
    }
  }

  lemma SwapMeaning(before: Tables, t: Tables, c: Id, kind: Kind)
    requires c in before.clients && before.clients[c].status != Deleted && t.artifacts == before.artifacts
    requires forall active :: Profile(active, before.clients[c].name) in t.artifacts ==>
               t.artifacts[Profile(active, before.clients[c].name)] == c &&
                 (active <==> before.clients[c].status == Active)
    requires Ccd(c) in t.artifacts ==> t.artifacts[Ccd(c)] == c
    ensures SwapReissueArtifacts(before, t, c, kind) ==
            Some(t.(artifacts := ReissueArtifacts(before.artifacts, before.clients[c].name, c, kind)))
  {
    var row := before.clients[c];
    var t1 := if row.status == Revoked then RetireArtifact(t, Profile(false, row.name), c) else t;
    RetireMeaning(t, Profile(false, row.name), c);
    assert t1.artifacts == t.artifacts - {Profile(false, row.name)};
    RetireMeaning(t1, Ccd(c), c);
    var t2 := if kind != Static && Ccd(c) in t1.artifacts then RetireArtifact(t1, Ccd(c), c) else t1;
    assert kind != Static ==> t2.artifacts == t.artifacts - {Profile(false, row.name), Ccd(c)};
    if kind == Static {
      assert t2.artifacts[Profile(true, row.name) := c][Ccd(c) := c]
          == (t.artifacts - {Profile(false, row.name), Ccd(c)})[Profile(true, row.name) := c][Ccd(c) := c];
    }
  }

  function DeletedTables(t: Tables, c: Id): Tables
    requires c in t.clients
  {
    var name := t.clients[c].name;
    Tables(
      t.clients[c := ClientRow(name, Deleted, true, true)],
      t.current - {c}, t.ids, t.leases - {c},
      t.artifacts - {Profile(t.clients[c].status == Active, name), Ccd(c)})
  }

  function Leased(t: Tables, c: Id, address: Word): Tables {
    t.(leases := (map other | other in t.leases && (t.leases[other] != address || other == c) ::
      t.leases[other])[c := address])
  }

  // ------------------------------------------------------------------
  // Keeping the invariant, for every operation at once
  // ------------------------------------------------------------------

  /** The rows of one client fit each other. */
  ghost predicate LocalOk(layout: Layout, t: Tables, c: Id) {
    && c in t.clients
    && (match t.clients[c].status
        case Active => !t.clients[c].revokedAt && !t.clients[c].deletedAt && c in t.current && !t.current[c].retained
        case Revoked => t.clients[c].revokedAt && !t.clients[c].deletedAt && (c in t.current ==> t.current[c].retained)
        case Deleted => t.clients[c].deletedAt && c !in t.current)
    && (c in t.current ==>
          && t.current[c].id in t.ids
          && (t.current[c].kind == Static <==> t.current[c].address.Some?)
          && (t.current[c].address.Some? ==> Contains(layout.statics, t.current[c].address.value))
          && (t.current[c].kind == Dynamic ==> layout.dynamics.capacity != 0))
  }

  /** Nothing about clients outside `s` has changed. */
  ghost predicate OthersKept(t: Tables, t': Tables, s: set<Id>) {
    && t'.clients - s == t.clients - s
    && t'.current - s == t.current - s
    && t.ids <= t'.ids
    && (forall k :: k in t.artifacts && t.artifacts[k] !in s ==> k in t'.artifacts && t'.artifacts[k] == t.artifacts[k])
    && (forall k ::
      k in t'.artifacts && t'.artifacts[k] !in s ==> k in t.artifacts && t.artifacts[k] == t'.artifacts[k])
  }

  ghost predicate SameAddress(t: Tables, a: Id, b: Id) {
    a in t.current && b in t.current && t.current[a].address.Some? && t.current[a].address == t.current[b].address
  }

  /** The changed clients share no name and no address with anyone. */
  ghost predicate NoClash(t': Tables, s: set<Id>) {
    && (forall a, b :: a in s && Live(t', a) && Live(t', b) && t'.clients[a].name == t'.clients[b].name ==> a == b)
    && (forall a, b :: a in s && SameAddress(t', a, b) ==> a == b)
  }

  /** Leases only disappear, and remain only with a client that is still dynamic. */
  ghost predicate LeasesShrink(t: Tables, t': Tables, s: set<Id>) {
    && (forall c :: c in t'.leases ==> c in t.leases && t'.leases[c] == t.leases[c])
    && (forall c :: c in s && c in t'.leases ==> c in t'.current && t'.current[c].kind == Dynamic)
  }

  ghost predicate ArtifactsFollow(t': Tables, s: set<Id>) {
    && (forall k :: k in t'.artifacts && t'.artifacts[k] in s ==> Wanted(t', k, t'.artifacts[k]))
    && (forall c :: c in s && c in t'.clients && t'.clients[c].status != Deleted ==>
          Profile(t'.clients[c].status == Active, t'.clients[c].name) in t'.artifacts)
    && (forall c ::
      c in s && c in t'.current && t'.current[c].kind == Static && IsActive(t', c) ==> Ccd(c) in t'.artifacts)
  }

  lemma RowsKept(t: Tables, t': Tables, s: set<Id>, c: Id)
    requires OthersKept(t, t', s) && c !in s
    ensures c in t.clients <==> c in t'.clients
    ensures c in t.clients ==> t.clients[c] == t'.clients[c]
    ensures c in t.current <==> c in t'.current
    ensures c in t.current ==> t.current[c] == t'.current[c]
  {
    assert c in t.clients <==> c in t.clients - s;
    assert c in t'.clients <==> c in t'.clients - s;
    assert c in t.current <==> c in t.current - s;
    assert c in t'.current <==> c in t'.current - s;
    if c in t.clients { assert t.clients[c] == (t.clients - s)[c] == (t'.clients - s)[c]; }
    if c in t.current { assert t.current[c] == (t.current - s)[c] == (t'.current - s)[c]; }
  }

  /**
   Any operation that leaves other clients alone, fits the changed clients' own rows
   together, and clashes with nobody keeps the whole invariant.
   */
  lemma ChangeKeepsConsistent(layout: Layout, t: Tables, t': Tables, s: set<Id>)
    requires Consistent(layout, t)
    requires OthersKept(t, t', s) && NoClash(t', s) && LeasesShrink(t, t', s) && ArtifactsFollow(t', s)
    requires forall c :: c in s ==> LocalOk(layout, t', c)
    ensures Consistent(layout, t')
  {
    ChangeKeepsRows(layout, t, t', s);
    ChangeKeepsUniqueness(layout, t, t', s);
    ChangeKeepsLeases(layout, t, t', s);
    ChangeKeepsArtifacts(layout, t, t', s);
  }

  lemma ChangeKeepsRows(layout: Layout, t: Tables, t': Tables, s: set<Id>)
    requires Consistent(layout, t) && OthersKept(t, t', s)
    requires forall c :: c in s ==> LocalOk(layout, t', c)
    ensures Timestamps(t') && AssignmentsMatch(t')
  {
    forall c | c in t'.clients
      ensures match t'.clients[c].status
              case Active => !t'.clients[c].revokedAt && !t'.clients[c].deletedAt && c in t'.current
              case Revoked => t'.clients[c].revokedAt && !t'.clients[c].deletedAt
              case Deleted => t'.clients[c].deletedAt
    {
      if c !in s {
        RowsKept(t, t', s, c);
      }
    }
    forall c | c in t'.current
      ensures Live(t', c) && t'.current[c].id in t'.ids && (t'.current[c].retained <==> !IsActive(t', c))
    {
      if c !in s {
        RowsKept(t, t', s, c);
      }
    }
  }

  lemma ChangeKeepsUniqueness(layout: Layout, t: Tables, t': Tables, s: set<Id>)
    requires Consistent(layout, t) && OthersKept(t, t', s) && NoClash(t', s)
    requires forall c :: c in s ==> LocalOk(layout, t', c)
    ensures NamesUnique(t') && AddressesOk(layout, t')
  {
    forall a, b | Live(t', a) && Live(t', b) && t'.clients[a].name == t'.clients[b].name
      ensures a == b
    {
      if a !in s && b !in s {
        RowsKept(t, t', s, a);
        RowsKept(t, t', s, b);
      }
    }
    forall a, b | SameAddress(t', a, b)
      ensures a == b
    {
      if a !in s && b !in s {
        RowsKept(t, t', s, a);
        RowsKept(t, t', s, b);
        assert SameAddress(t, a, b);
      } else if b in s {
        assert SameAddress(t', b, a);
      }
    }
    forall c | c in t'.current
      ensures t'.current[c].kind == Static <==> t'.current[c].address.Some?
      ensures t'.current[c].address.Some? ==> Contains(layout.statics, t'.current[c].address.value)
      ensures layout.dynamics.capacity == 0 ==> t'.current[c].kind == Static
    {
      if c !in s {
        RowsKept(t, t', s, c);
      }
    }
  }

  lemma ChangeKeepsLeases(layout: Layout, t: Tables, t': Tables, s: set<Id>)
    requires Consistent(layout, t) && OthersKept(t, t', s) && LeasesShrink(t, t', s)
    ensures LeasesOk(layout, t')
  {
    forall c | c in t'.leases ensures c in t'.current && t'.current[c].kind == Dynamic {
      if c !in s {
        RowsKept(t, t', s, c);
      }
    }
  }

  lemma ChangeKeepsArtifacts(layout: Layout, t: Tables, t': Tables, s: set<Id>)
    requires Consistent(layout, t) && OthersKept(t, t', s) && ArtifactsFollow(t', s)
    ensures ArtifactsMatch(t')
  {
    forall k | k in t'.artifacts ensures Wanted(t', k, t'.artifacts[k]) {
      var owner := t'.artifacts[k];
      if owner !in s {
        assert Wanted(t, k, owner);
        RowsKept(t, t', s, owner);
      }
    }
    forall c | c in t'.clients && t'.clients[c].status != Deleted
      ensures Profile(t'.clients[c].status == Active, t'.clients[c].name) in t'.artifacts
    {
      if c !in s {
        RowsKept(t, t', s, c);
        ProfileOwner(layout, t, c);
      }
    }
    forall c | c in t'.current && t'.current[c].kind == Static && IsActive(t', c)
      ensures Ccd(c) in t'.artifacts
    {
      if c !in s {
        RowsKept(t, t', s, c);
        assert Ccd(c) in t.artifacts && Wanted(t, Ccd(c), t.artifacts[Ccd(c)]);
      }
    }
  }

  lemma ProfileOwner(layout: Layout, t: Tables, c: Id)
    requires Consistent(layout, t) && Live(t, c)
    ensures var k := Profile(t.clients[c].status == Active, t.clients[c].name); k in t.artifacts && t.artifacts[k] == c
  {
    var k := Profile(t.clients[c].status == Active, t.clients[c].name);
    assert Wanted(t, k, t.artifacts[k]);
  }

  /** A key the client's state does not call for belongs to nobody else either, if names are free. */
  lemma KeysOfOwner(layout: Layout, t: Tables, k: ArtifactKey)
    requires Consistent(layout, t) && k in t.artifacts
    ensures Wanted(t, k, t.artifacts[k])
  {
  }

  lemma FreeAddress(t: Tables, id: Id, address: Option<Word>)
    requires address.Some? ==> address.value !in UsedAddresses(t, {id})
    ensures forall c :: c in t.current && c != id && address.Some? ==> t.current[c].address != address
  {
  }

  /** Before creation, nobody owns the keys of the new client and it owns none. */
  lemma NewKeysFree(layout: Layout, t: Tables, id: Id, name: string)
    requires Consistent(layout, t) && id !in t.clients && NameFree(t, name)
    ensures Profile(true, name) !in t.artifacts && Ccd(id) !in t.artifacts
    ensures forall k :: k in t.artifacts ==> t.artifacts[k] != id
    ensures id !in t.current && id !in t.leases
  {
    forall k | k in t.artifacts ensures t.artifacts[k] != id && k != Profile(true, name) && k != Ccd(id) {
      KeysOfOwner(layout, t, k);
    }
  }

  lemma CreatedOthers(t: Tables, id: Id, assignmentId: Id, name: string, choice: Choice)
    requires id !in t.clients && id !in t.current
    requires Profile(true, name) !in t.artifacts && Ccd(id) !in t.artifacts
    requires forall k :: k in t.artifacts ==> t.artifacts[k] != id
    ensures OthersKept(t, Created(t, id, assignmentId, name, choice), {id})
    ensures ArtifactsFollow(Created(t, id, assignmentId, name, choice), {id})
  {
    var t' := Created(t, id, assignmentId, name, choice);
    assert t'.clients - {id} == t.clients - {id};
    assert t'.current - {id} == t.current - {id};
  }

  lemma CreatedNoClash(t: Tables, id: Id, assignmentId: Id, name: string, choice: Choice)
    requires NameFree(t, name) && forall c ::
             c in t.current && c != id && choice.address.Some? ==> t.current[c].address != choice.address
    ensures NoClash(Created(t, id, assignmentId, name, choice), {id})
  {
    var t' := Created(t, id, assignmentId, name, choice);
    forall b | Live(t', b) && t'.clients[b].name == name ensures b == id {
      if b != id {
        assert Live(t, b);
      }
    }
  }

  lemma CreatedLocal(layout: Layout, t: Tables, id: Id, assignmentId: Id, name: string, choice: Choice)
    requires id !in t.leases && ChoiceFits(layout, t, {id}, choice)
    ensures LocalOk(layout, Created(t, id, assignmentId, name, choice), id)
    ensures LeasesShrink(t, Created(t, id, assignmentId, name, choice), {id})
  {
  }

  lemma CreatedConsistent(layout: Layout, t: Tables, id: Id, assignmentId: Id, name: string, choice: Choice)
    requires Consistent(layout, t) && id !in t.clients && assignmentId !in t.ids
    requires NameFree(t, name) && ChoiceFits(layout, t, {id}, choice)
    ensures Consistent(layout, Created(t, id, assignmentId, name, choice))
    ensures id !in t.current && AddressFree(t, choice.address)
    ensures choice.address.Some? ==> Contains(layout.statics, choice.address.value)
    ensures Profile(true, name) !in t.artifacts && Ccd(id) !in t.artifacts
  {
    NewKeysFree(layout, t, id, name);
    FreeAddress(t, id, choice.address);
    CreatedOthers(t, id, assignmentId, name, choice);
    CreatedNoClash(t, id, assignmentId, name, choice);
    CreatedLocal(layout, t, id, assignmentId, name, choice);
    hide Consistent, OthersKept, ArtifactsFollow, NoClash, LeasesShrink, LocalOk, NameFree, ChoiceFits, Created;
    ChangeKeepsConsistent(layout, t, Created(t, id, assignmentId, name, choice), {id});
  }

  /** The keys around one current client: who may own them. */
  lemma KeysOfClient(layout: Layout, t: Tables, c: Id)
    requires Consistent(layout, t) && Live(t, c)
    ensures forall active ::
            Profile(active, t.clients[c].name) in t.artifacts <==> (active <==> t.clients[c].status == Active)
    ensures forall k ::
            k in t.artifacts && t.artifacts[k] == c ==>
            k == Ccd(c) || k == Profile(t.clients[c].status == Active, t.clients[c].name)
    ensures t.artifacts[Profile(t.clients[c].status == Active, t.clients[c].name)] == c
    ensures Ccd(c) in t.artifacts <==> IsActive(t, c) && HasStatic(t, c)
    ensures Ccd(c) in t.artifacts ==> t.artifacts[Ccd(c)] == c
  {
    ProfileOwner(layout, t, c);
    forall k | k in t.artifacts ensures Wanted(t, k, t.artifacts[k]) {
      KeysOfOwner(layout, t, k);
    }
  }

  lemma LocalOf(layout: Layout, t: Tables, c: Id)
    requires Consistent(layout, t) && c in t.clients
    ensures LocalOk(layout, t, c)
    ensures c in t.leases ==> c in t.current && t.current[c].kind == Dynamic
  {
  }

  /** Profile keys of a name nobody uses are free. */
  lemma KeysOfFreeName(layout: Layout, t: Tables, name: string, active: bool)
    requires Consistent(layout, t) && NameFree(t, name)
    ensures Profile(active, name) !in t.artifacts
  {
    if Profile(active, name) in t.artifacts {
      KeysOfOwner(layout, t, Profile(active, name));
    }
  }

  lemma RenamedConsistent(layout: Layout, t: Tables, c: Id, name: string)
    requires Consistent(layout, t) && Live(t, c) && NameFree(t, name)
    ensures Consistent(layout, Renamed(t, c, name))
    ensures t.artifacts[Profile(t.clients[c].status == Active, t.clients[c].name)] == c
    ensures Profile(t.clients[c].status == Active, name) !in t.artifacts
  {
    hide Consistent;
    var t' := Renamed(t, c, name);
    KeysOfClient(layout, t, c);
    KeysOfFreeName(layout, t, name, t.clients[c].status == Active);
    LocalOf(layout, t, c);
    if c in t.current && t.current[c].address.Some? {
      OwnAddress(layout, t, c);
    }
    assert t'.clients - {c} == t.clients - {c};
    ChangeKeepsConsistent(layout, t, t', {c});
  }

  lemma SameRows(t: Tables, t': Tables, c: Id)
    requires forall other ::
             other != c && other in t.clients ==> other in t'.clients && t'.clients[other] == t.clients[other]
    requires forall other :: other != c && other in t'.clients ==> other in t.clients
    requires forall other ::
             other != c && other in t.current ==> other in t'.current && t'.current[other] == t.current[other]
    requires forall other :: other != c && other in t'.current ==> other in t.current
    ensures t'.clients - {c} == t.clients - {c} && t'.current - {c} == t.current - {c}
  {
  }

  /** A client that keeps its name and brings no new address clashes with nobody. */
  lemma SameNameNoClash(layout: Layout, t: Tables, t': Tables, c: Id)
    requires Consistent(layout, t) && Live(t, c)
    requires c in t'.clients && t'.clients[c].name == t.clients[c].name
    requires t'.clients - {c} == t.clients - {c} && t'.current - {c} == t.current - {c}
    requires c in t'.current && t'.current[c].address.Some? ==>
               forall other :: other in t.current && other != c ==> t.current[other].address != t'.current[c].address
    ensures NoClash(t', {c})
  {
    forall b | b != c
      ensures b in t'.clients <==> b in t.clients
      ensures b in t'.clients ==> t'.clients[b] == t.clients[b]
      ensures b in t'.current <==> b in t.current
      ensures b in t'.current ==> t'.current[b] == t.current[b]
    {
      assert b in t.clients <==> b in t.clients - {c};
      assert b in t'.clients <==> b in t'.clients - {c};
      assert b in t.current <==> b in t.current - {c};
      assert b in t'.current <==> b in t'.current - {c};
      if b in t.clients { assert t.clients[b] == (t.clients - {c})[b] == (t'.clients - {c})[b]; }
      if b in t.current { assert t.current[b] == (t.current - {c})[b] == (t'.current - {c})[b]; }
    }
  }

  /** The client's own address is nobody else's. */
  lemma OwnAddress(layout: Layout, t: Tables, c: Id)
    requires Consistent(layout, t) && c in t.current && t.current[c].address.Some?
    ensures forall other :: other in t.current && other != c ==> t.current[other].address != t.current[c].address
  {
    forall other | other in t.current && other != c ensures t.current[other].address != t.current[c].address {
      assert SameAddress(t, c, other) ==> c == other;
    }
  }

  lemma RevokedConsistent(layout: Layout, t: Tables, c: Id, release: bool)
    requires Consistent(layout, t) && IsActive(t, c)
    ensures c in t.current
    ensures Consistent(layout, RevokedTables(t, c, release))
    ensures Profile(false, t.clients[c].name) !in t.artifacts
    ensures t.artifacts[Profile(true, t.clients[c].name)] == c
    ensures Ccd(c) in t.artifacts ==> t.artifacts[Ccd(c)] == c
  {
    hide Consistent;
    KeysOfClient(layout, t, c);
    LocalOf(layout, t, c);
    var t' := RevokedTables(t, c, release);
    SameRows(t, t', c);
    if t.current[c].address.Some? {
      OwnAddress(layout, t, c);
    }
    SameNameNoClash(layout, t, t', c);
    ChangeKeepsConsistent(layout, t, t', {c});
  }

  /** An assignment that can become the client's active one. */
  ghost predicate AssignmentFits(layout: Layout, t: Tables, c: Id, a: Assignment) {
    && !a.retained
    && (a.kind == Static <==> a.address.Some?)
    && (a.address.Some? ==> Contains(layout.statics, a.address.value))
    && (a.kind == Dynamic ==> layout.dynamics.capacity != 0)
    && (a.address.Some? ==> forall other :: other in t.current && other != c ==> t.current[other].address != a.address)
  }

  lemma ReissueFits(layout: Layout, t: Tables, c: Id, assignmentId: Id, selection: Option<Selection>)
    requires Consistent(layout, t) && Live(t, c)
    requires ReissueAssignment(layout, t, c, assignmentId, selection).Some?
    ensures AssignmentFits(layout, t, c, ReissueAssignment(layout, t, c, assignmentId, selection).value)
  {
    hide Consistent;
    var a := ReissueAssignment(layout, t, c, assignmentId, selection).value;
    LocalOf(layout, t, c);
    if selection.None? && c in t.current {
      if t.current[c].address.Some? {
        OwnAddress(layout, t, c);
      }
    } else {
      ChooseFits(layout, t, {c}, if selection.None? then Auto else selection.value);
      FreeAddress(t, c, a.address);
    }
  }

  lemma ReissuedConsistent(layout: Layout, t: Tables, c: Id, a: Assignment)
    requires Consistent(layout, t) && Live(t, c) && AssignmentFits(layout, t, c, a)
    ensures Consistent(layout, Reissued(t, c, a))
  {
    hide Consistent;
    KeysOfClient(layout, t, c);
    LocalOf(layout, t, c);
    var t' := Reissued(t, c, a);
    SameRows(t, t', c);
    SameNameNoClash(layout, t, t', c);
    ChangeKeepsConsistent(layout, t, t', {c});
  }

  /** Rows other than leases do not depend on leases. */
  lemma LeaseFrame(layout: Layout, t: Tables, leases: map<Id, Word>)
    ensures Timestamps(t) ==> Timestamps(t.(leases := leases))
    ensures NamesUnique(t) ==> NamesUnique(t.(leases := leases))
    ensures AssignmentsMatch(t) ==> AssignmentsMatch(t.(leases := leases))
  {
  }

  lemma LeaseFrameAddresses(layout: Layout, t: Tables, leases: map<Id, Word>)
    requires AddressesOk(layout, t)
    ensures AddressesOk(layout, t.(leases := leases))
  {
    forall a, b | SameAddress(t.(leases := leases), a, b) ensures a == b {
      assert SameAddress(t, a, b);
    }
  }

  lemma LeaseFrameArtifacts(layout: Layout, t: Tables, leases: map<Id, Word>)
    requires ArtifactsMatch(t)
    ensures ArtifactsMatch(t.(leases := leases))
  {
    forall k | k in t.artifacts ensures Wanted(t.(leases := leases), k, t.artifacts[k]) {
      assert Wanted(t, k, t.artifacts[k]);
    }
  }

  lemma LeasedConsistent(layout: Layout, t: Tables, c: Id, address: Word)
    requires Consistent(layout, t) && c in t.current && t.current[c].kind == Dynamic &&
             Contains(layout.dynamics, address)
    ensures Consistent(layout, Leased(t, c, address))
  {
    hide Timestamps, NamesUnique, AssignmentsMatch, AddressesOk, ArtifactsMatch;
    var leases := Leased(t, c, address).leases;
    LeaseFrame(layout, t, leases);
    LeaseFrameAddresses(layout, t, leases);
    LeaseFrameArtifacts(layout, t, leases);
    assert LeasesOk(layout, Leased(t, c, address));
  }

  lemma DeletedConsistent(layout: Layout, t: Tables, c: Id)
    requires Consistent(layout, t) && Live(t, c)
    ensures Consistent(layout, DeletedTables(t, c))
    ensures t.artifacts[Profile(t.clients[c].status == Active, t.clients[c].name)] == c
    ensures Ccd(c) in t.artifacts ==> t.artifacts[Ccd(c)] == c
  {
    hide Consistent;
    KeysOfClient(layout, t, c);
    LocalOf(layout, t, c);
    var t' := DeletedTables(t, c);
    SameRows(t, t', c);
    SameNameNoClash(layout, t, t', c);
    ChangeKeepsConsistent(layout, t, t', {c});
  }

  // ------------------------------------------------------------------
  // What operations leave alone
  // ------------------------------------------------------------------

  lemma SameTouches(t: Tables, c: Id)
    ensures OnlyTouches(t, t, c)
  {
  }

  lemma CreatedTouches(layout: Layout, t: Tables, id: Id, assignmentId: Id, name: string, choice: Choice)
    requires Consistent(layout, t) && id !in t.clients && NameFree(t, name)
    ensures OnlyTouches(t, Created(t, id, assignmentId, name, choice), id)
    ensures id !in t.leases
  {
    hide Consistent, NameFree, Wanted;
    NewKeysFree(layout, t, id, name);
  }

  lemma RenamedTouches(layout: Layout, t: Tables, c: Id, name: string)
    requires Consistent(layout, t) && Live(t, c) && NameFree(t, name)
    ensures OnlyTouches(t, Renamed(t, c, name), c)
  {
    hide Consistent, NameFree, Wanted;
    RenamedConsistent(layout, t, c, name);
  }

  lemma RevokedTouches(layout: Layout, t: Tables, c: Id, release: bool)
    requires Consistent(layout, t) && IsActive(t, c) && c in t.current
    ensures OnlyTouches(t, RevokedTables(t, c, release), c)
  {
    hide Consistent, Wanted;
    RevokedConsistent(layout, t, c, release);
  }

  lemma ReissuedTouches(layout: Layout, t: Tables, c: Id, a: Assignment)
    requires Consistent(layout, t) && Live(t, c)
    ensures OnlyTouches(t, Reissued(t, c, a), c)
  {
    hide Consistent, Wanted;
    KeysOfClient(layout, t, c);
  }

  lemma DeletedTouches(layout: Layout, t: Tables, c: Id)
    requires Consistent(layout, t) && Live(t, c)
    ensures OnlyTouches(t, DeletedTables(t, c), c)
  {
    hide Consistent, Wanted;
    DeletedConsistent(layout, t, c);
  }

  // ------------------------------------------------------------------
  // What operations undo
  // ------------------------------------------------------------------

  /** Reissuing a client that was revoked without releasing its address gives back all it had but its lease. */
  lemma RevokeThenReissue(layout: Layout, t: Tables, c: Id, assignmentId: Id)
    requires Consistent(layout, t) && IsActive(t, c)
    ensures c in t.current
    ensures var revoked := RevokedTables(t, c, false);
            && Live(revoked, c) && !IsActive(revoked, c)
            && ReissueAssignment(layout, revoked, c, assignmentId, None) == Some(t.current[c])
            && Reissued(revoked, c, t.current[c]) == ClearLease(t, c)
  {
    ActiveRows(layout, t, c);
    ReissuedBack(layout, t, c);
    hide Consistent, Reissued, Choose, UsedAddresses;
  }

  lemma ReissuedBack(layout: Layout, t: Tables, c: Id)
    requires Consistent(layout, t) && IsActive(t, c) && c in t.current
    ensures Reissued(RevokedTables(t, c, false), c, t.current[c]) == ClearLease(t, c)
  {
    hide Consistent, ReissueArtifacts;
    ActiveRows(layout, t, c);
    ArtifactsComeBack(layout, t, c);
    PutBack(t.clients, c, ClientRow(t.clients[c].name, Revoked, true, false));
    PutBack(t.current, c, t.current[c].(retained := true));
    assert t.ids + {t.current[c].id} == t.ids;
    assert t.leases - {c} - {c} == t.leases - {c};
  }

  lemma PutBack<K, V>(m: map<K, V>, k: K, v: V)
    requires k in m
    ensures m[k := v][k := m[k]] == m
  {
  }

  /** Moving an entry to a free key and back. */
  lemma MovedBack<K, V>(m: map<K, V>, k: K, other: K)
    requires k in m && other !in m
    ensures ((m - {k})[other := m[k]] - {other})[k := m[k]] == m
  {
    assert (m - {k})[other := m[k]] - {other} == m - {k};
  }

  /** The rows of an active client. */
  lemma ActiveRows(layout: Layout, t: Tables, c: Id)
    requires Consistent(layout, t) && IsActive(t, c)
    ensures t.clients[c] == ClientRow(t.clients[c].name, Active, false, false)
    ensures c in t.current && !t.current[c].retained && t.current[c].id in t.ids
    ensures t.current[c].kind == Static <==> Ccd(c) in t.artifacts
    ensures Profile(true, t.clients[c].name) in t.artifacts && t.artifacts[Profile(true, t.clients[c].name)] == c
    ensures Profile(false, t.clients[c].name) !in t.artifacts
    ensures Ccd(c) in t.artifacts ==> t.artifacts[Ccd(c)] == c
  {
    RevokedConsistent(layout, t, c, false);
    if Ccd(c) in t.artifacts {
      assert Wanted(t, Ccd(c), t.artifacts[Ccd(c)]);
    }
  }

  /** One key replaced and another dropped, and both put back. */
  lemma SwapBack(m: map<ArtifactKey, Id>, k: ArtifactKey, other: ArtifactKey, dropped: ArtifactKey, c: Id)
    requires k in m && m[k] == c && other !in m && dropped != other && dropped != k &&
             (dropped in m ==> m[dropped] == c)
    ensures var kept := (m - {k, dropped})[other := c] - {other, dropped};
            m == if dropped in m then kept[k := c][dropped := c] else kept[k := c]
  {
    assert (m - {k, dropped})[other := c] - {other, dropped} == m - {k, dropped};
  }

  lemma ArtifactsComeBack(layout: Layout, t: Tables, c: Id)
    requires Consistent(layout, t) && IsActive(t, c) && c in t.current
    ensures ReissueArtifacts(RevokedTables(t, c, false).artifacts, t.clients[c].name, c, t.current[c].kind)
            == t.artifacts
  {
    ActiveRows(layout, t, c);
    hide Consistent;
    var name, fixed := t.clients[c].name, t.current[c].kind == Static;
    SwapBack(t.artifacts, Profile(true, name), Profile(false, name), Ccd(c), c);
    assert fixed <==> Ccd(c) in t.artifacts;
  }

  /** Renaming back restores every row. */
  lemma RenameBack(layout: Layout, t: Tables, c: Id, name: string)
    requires Consistent(layout, t) && Live(t, c) && NameFree(t, name)
    ensures NameFree(Renamed(t, c, name), t.clients[c].name)
    ensures Renamed(Renamed(t, c, name), c, t.clients[c].name) == t
  {
    RenamedConsistent(layout, t, c, name);
    OldNameFree(layout, t, c, name);
    var was, active := t.clients[c].name, t.clients[c].status == Active;
    PutBack(t.clients, c, t.clients[c].(name := name));
    MovedBack(t.artifacts, Profile(active, was), Profile(active, name));
    hide Consistent, NameFree;
  }

  lemma OldNameFree(layout: Layout, t: Tables, c: Id, name: string)
    requires Consistent(layout, t) && Live(t, c) && NameFree(t, name)
    ensures name != t.clients[c].name && NameFree(Renamed(t, c, name), t.clients[c].name)
  {
    var there := Renamed(t, c, name);
    forall other | other in there.clients && Live(there, other) ensures there.clients[other].name != t.clients[c].name {
      assert other != c ==> Live(t, other);
    }
  }

  /** Deleting takes everything a client holds and frees its name and address for a new one. */
  lemma DeleteFrees(layout: Layout, t: Tables, c: Id)
    requires Consistent(layout, t) && Live(t, c)
    ensures var deleted := DeletedTables(t, c);
            && NameFree(deleted, t.clients[c].name) && c !in deleted.current && c !in deleted.leases
            && (c in t.current ==> AddressFree(deleted, t.current[c].address))
            && (forall k :: k in deleted.artifacts ==> deleted.artifacts[k] != c)
  {
    DeletedConsistent(layout, t, c);
    var deleted := DeletedTables(t, c);
    forall k | k in deleted.artifacts ensures deleted.artifacts[k] != c {
      assert Wanted(deleted, k, deleted.artifacts[k]);
    }
    if c in t.current && t.current[c].address.Some? {
      forall other | other in deleted.current ensures deleted.current[other].address != t.current[c].address {
        assert SameAddress(t, c, other) <==> t.current[other].address == t.current[c].address;
      }
    }
  }

  /** Revoking keeps the address out of others' reach exactly if it is not released. */
  lemma RevokedAddress(layout: Layout, t: Tables, c: Id, release: bool)
    requires Consistent(layout, t) && IsActive(t, c) && HasStatic(t, c)
    ensures var revoked := RevokedTables(t, c, release);
            t.current[c].address.value in UsedAddresses(revoked, {}) <==> !release
  {
    var revoked, address := RevokedTables(t, c, release), t.current[c].address.value;
    if release {
      forall other | other in revoked.current ensures revoked.current[other].address != Some(address) {
        assert SameAddress(t, c, other) <==> t.current[other].address == Some(address);
      }
    } else {
      assert revoked.current[c].address == Some(address);
    }
  }
}
