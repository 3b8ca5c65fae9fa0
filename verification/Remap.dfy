/**
 Remapping every client's address to a new network when the configuration changes:
 valid addresses are kept, then host bits are carried over, then the lowest free
 addresses are handed out.
 */
module Remap {
  import opened Results
  import opened Ipam
  import Order

  datatype Status = Active | Retained

  datatype Assignment = Assignment(kind: Kind, address: Option<Word>, status: Status)

  datatype ClientState = ClientState(id: string, name: string, assignment: Option<Assignment>)

  datatype Change = Change(id: string, name: string, before: Assignment, after: Assignment)

  datatype RemapError = BadLayout(error: IpamError) | EmptyPool(name: string) | Malformed(name: string) | NoAddress

  // ------------------------------------------------------------------
  // Host bits
  // ------------------------------------------------------------------

  function HostMask(prefix: nat): Word
    requires prefix <= 32
  {
    if prefix > 0 then BitNot(ShiftLeft(BitNot(0), 32 - prefix)) else BitNot(0)
  }

  function MapHostBits(address: Word, target: Network): Word
    requires target.prefix <= 32
  {
    ToWord(BitOr(target.address, BitAnd(address, HostMask(target.prefix))))
  }

  /** For a canonical network, the host bits are added to the network address unchanged. */
  lemma MapHostBitsMeaning(address: Word, target: Network)
    requires Canonical(target)
    ensures MapHostBits(address, target) == target.address + address % Pow2(32 - target.prefix)
    ensures target.address <= MapHostBits(address, target) <= Broadcast(target)
    ensures MapHostBits(address, target) % Pow2(32 - target.prefix) == address % Pow2(32 - target.prefix)
  {
    HostBitsSum(address, target);
    CanonicalFits(target);
    AlignedFitsWord(target.address, address, Pow2(32 - target.prefix));
  }

  /** Host bits stay below the next aligned address, and so within a word. */
  lemma AlignedFitsWord(n: nat, address: nat, p: nat)
    requires p > 0 && n % p == 0 && n + p <= WORD
    ensures n <= n + address % p < n + p
    ensures ToWord(n + address % p) == n + address % p && (n + address % p) % p == address % p
  {
    ModBound(address, p);
    AlignedSum(n, address % p, p);
    WordUnchanged(n + address % p);
  }

  lemma ModBound(a: nat, p: nat)
    requires p > 0
    ensures 0 <= a % p < p
  {
  }

  lemma WordUnchanged(x: nat)
    requires x < WORD
    ensures ToWord(x) == x
  {
  }

  lemma HostBitsSum(address: Word, target: Network)
    requires Canonical(target)
    ensures BitOr(target.address, BitAnd(address, HostMask(target.prefix)))
            == target.address + address % Pow2(32 - target.prefix)
  {
    var k := 32 - target.prefix;
    HostMaskMeaning(target.prefix);
    BitAndLow(address, k);
    hide BitAnd, BitOr, HostMask, Pow2;
    BitOrDisjoint(target.address, address % Pow2(k), k);
  }

  lemma HostMaskMeaning(prefix: nat)
    requires prefix <= 32
    ensures HostMask(prefix) == Pow2(32 - prefix) - 1
  {
    PrefixMaskMeaning(prefix);
    Pow2Word();
  }

  lemma AlignedSum(n: nat, h: nat, p: nat)
    requires p > 0 && n % p == 0 && h < p
    ensures (n + h) % p == h
  {
    ModUnique(n + h, p, n / p, h);
  }

  // ------------------------------------------------------------------
  // The three phases, over the static clients' previous addresses in order
  // ------------------------------------------------------------------

  type Values = seq<Option<Word>>

  function Nones(n: nat): Values {
    seq(n, _ => None)
  }

  function Taken(values: Values): set<Word> {
    set i | 0 <= i < |values| && values[i].Some? :: values[i].value
  }

  /** One client is offered one address; it must be unset, in the region and free. */
  function Offer(r: Range, values: Values, i: nat, candidate: Word): Values
    requires i < |values|
  {
    if values[i].None? && Contains(r, candidate) && candidate !in Taken(values)
    then values[i := Some(candidate)] else values
  }

  /** The first `n` clients are offered their candidates in order. */
  function Offered(r: Range, candidates: seq<Word>, values: Values, n: nat): (result: Values)
    requires n <= |candidates| == |values|
    ensures |result| == |values|
  {
    if n == 0 then values else Offer(r, Offered(r, candidates, values, n - 1), n - 1, candidates[n - 1])
  }

  function HostBits(previous: seq<Word>, target: Network): seq<Word>
    requires target.prefix <= 32
  {
    seq(|previous|, i requires 0 <= i < |previous| => MapHostBits(previous[i], target))
  }

  function Kept(r: Range, previous: seq<Word>): (values: Values)
    ensures |values| == |previous|
  {
    Offered(r, previous, Nones(|previous|), |previous|)
  }

  function Mapped(r: Range, previous: seq<Word>, target: Network): (values: Values)
    requires target.prefix <= 32
    ensures |values| == |previous|
  {
    Offered(r, HostBits(previous, target), Kept(r, previous), |previous|)
  }

  /** The first `n` clients take the lowest free address if they have none. */
  function Filled(r: Range, values: Values, n: nat): (result: Option<Values>)
    requires n <= |values|
    ensures result.Some? ==> |result.value| == |values|
  {
    if n == 0 then Some(values)
    else
      match Filled(r, values, n - 1)
      case None => None
      case Some(so_far) =>
        if so_far[n - 1].Some? then Some(so_far)
        else
          match LeastFree(r, Taken(so_far))
          case None => None
          case Some(a) => Some(so_far[n - 1 := Some(a)])
  }

  function Assigned(r: Range, previous: seq<Word>, target: Network): (values: Option<Values>)
    requires target.prefix <= 32
    ensures values.Some? ==> |values.value| == |previous|
  {
    Filled(r, Mapped(r, previous, target), |previous|)
  }

  /** All assigned addresses lie in the region and no two clients share one. */
  predicate Sound(r: Range, values: Values) {
    && (forall i :: 0 <= i < |values| && values[i].Some? ==> Contains(r, values[i].value))
    && (forall i, j :: 0 <= i < j < |values| && values[i].Some? && values[j].Some? ==> values[i] != values[j])
  }

  predicate Keeps(values: Values, values': Values) {
    && |values| == |values'|
    && forall i :: 0 <= i < |values| && values[i].Some? ==> values'[i] == values[i]
  }

  predicate Complete(values: Values) {
    forall i :: 0 <= i < |values| ==> values[i].Some?
  }

  lemma TakenUpdate(values: Values, i: nat, a: Word)
    requires i < |values| && values[i].None?
    ensures Taken(values[i := Some(a)]) == Taken(values) + {a}
  {
    var updated := values[i := Some(a)];
    forall x | x in Taken(values) + {a} ensures x in Taken(updated) {
      if x in Taken(values) {
        var j :| 0 <= j < |values| && values[j].Some? && values[j].value == x;
        assert updated[j].value == x;
      } else {
        assert updated[i].value == x;
      }
    }
  }

  lemma SetKeepsSound(r: Range, values: Values, i: nat, a: Word)
    requires Sound(r, values) && i < |values| && values[i].None?
    requires Contains(r, a) && a !in Taken(values)
    ensures Sound(r, values[i := Some(a)])
  {
    forall j | 0 <= j < |values| && values[j].Some? ensures values[j].value != a {
      assert values[j].value in Taken(values);
    }
  }

  lemma {:induction false} OfferedSound(r: Range, candidates: seq<Word>, values: Values, n: nat)
    requires n <= |candidates| == |values| && Sound(r, values)
    ensures Sound(r, Offered(r, candidates, values, n))
    ensures Keeps(values, Offered(r, candidates, values, n))
    ensures forall i :: n <= i < |values| ==> Offered(r, candidates, values, n)[i] == values[i]
  {
    if n > 0 {
      OfferedSound(r, candidates, values, n - 1);
      var before := Offered(r, candidates, values, n - 1);
      if before[n - 1].None? && Contains(r, candidates[n - 1]) && candidates[n - 1] !in Taken(before) {
        SetKeepsSound(r, before, n - 1, candidates[n - 1]);
      }
    }
  }

  /** Client `i` is the first unset client, in order, with an admissible candidate nobody holds. */
  predicate Wins(r: Range, candidates: seq<Word>, values: Values, i: nat)
    requires i < |candidates| == |values|
  {
    && values[i].None? && Contains(r, candidates[i]) && candidates[i] !in Taken(values)
    && forall j :: 0 <= j < i && values[j].None? ==> candidates[j] != candidates[i]
  }

  /** An offering phase gives exactly the winners their candidate and leaves the others unset. */
  lemma {:induction false} OfferedMeaning(r: Range, candidates: seq<Word>, values: Values, n: nat)
    requires n <= |candidates| == |values|
    ensures forall i :: 0 <= i < n && values[i].None? ==>
              Offered(r, candidates, values, n)[i] == if Wins(r, candidates, values, i) then Some(candidates[i])
                else None
    ensures forall a :: a in Taken(Offered(r, candidates, values, n)) <==>
              a in Taken(values) || exists i :: 0 <= i < n && Wins(r, candidates, values, i) && candidates[i] == a
  {
    if n > 0 {
      OfferedMeaning(r, candidates, values, n - 1);
      OfferedRest(r, candidates, values, n - 1);
      var before, c := Offered(r, candidates, values, n - 1), candidates[n - 1];
      if before[n - 1].None? && Contains(r, c) && c !in Taken(before) {
        forall j | 0 <= j < n - 1 && values[j].None? ensures candidates[j] != c {
          FirstWinner(r, candidates, values, j, before);
        }
        assert Wins(r, candidates, values, n - 1);
        TakenUpdate(before, n - 1, c);
      }
    }
  }

  lemma {:induction false} OfferedRest(r: Range, candidates: seq<Word>, values: Values, n: nat)
    requires n <= |candidates| == |values|
    ensures forall i :: n <= i < |values| ==> Offered(r, candidates, values, n)[i] == values[i]
  {
    if n > 0 {
      OfferedRest(r, candidates, values, n - 1);
    }
  }

  /** If an unset client's admissible candidate is contested, some earlier winner holds it. */
  lemma {:induction false} FirstWinner(r: Range, candidates: seq<Word>, values: Values, j: nat, after: Values)
    requires j < |candidates| == |values| && values[j].None?
    requires Contains(r, candidates[j]) ==>
               forall a ::
                 || a in Taken(values)
                 || (exists i :: 0 <= i <= j && Wins(r, candidates, values, i) && candidates[i] == a)
                 ==> a in Taken(after)
    ensures Contains(r, candidates[j]) ==> candidates[j] in Taken(after)
    decreases j
  {
    if Contains(r, candidates[j]) && candidates[j] !in Taken(values) && !Wins(r, candidates, values, j) {
      var i :| 0 <= i < j && values[i].None? && candidates[i] == candidates[j];
      FirstWinner(r, candidates, values, i, after);
    }
  }

  lemma TakenLast(values: Values)
    requires values != []
    ensures var n := |values| - 1;
            Taken(values) == Taken(values[..n]) + (if values[n].Some? then {values[n].value} else {})
  {
    var n := |values| - 1;
    forall a | a in Taken(values[..n]) ensures a in Taken(values) {
      var i :| 0 <= i < n && values[..n][i].Some? && values[..n][i].value == a;
      assert values[i].value == a;
    }
    forall a | a in Taken(values) && (values[n].Some? ==> a != values[n].value) ensures a in Taken(values[..n]) {
      var i :| 0 <= i < |values| && values[i].Some? && values[i].value == a;
      assert values[..n][i].value == a;
    }
  }

  lemma CompleteLast(values: Values)
    requires values != []
    ensures Complete(values) <==> Complete(values[..|values| - 1]) && values[|values| - 1].Some?
  {
    var prefix := values[..|values| - 1];
    forall i | 0 <= i < |prefix| ensures prefix[i] == values[i] {}
  }

  /** In a sound assignment, distinct clients hold distinct addresses, so counting them counts addresses. */
  lemma {:induction false} TakenSize(r: Range, values: Values)
    requires Sound(r, values)
    ensures |Taken(values)| <= |values|
    ensures |Taken(values)| == |values| <==> Complete(values)
    ensures Taken(values) <= Members(r)
  {
    if values != [] {
      var n := |values| - 1;
      TakenSize(r, values[..n]);
      TakenLast(values);
      CompleteLast(values);
      if values[n].Some? {
        LastIsNew(r, values);
        assert |Taken(values[..n]) + {values[n].value}| == |Taken(values[..n])| + 1;
      }
    }
  }

  lemma LastIsNew(r: Range, values: Values)
    requires Sound(r, values) && values != [] && values[|values| - 1].Some?
    ensures values[|values| - 1].value !in Taken(values[..|values| - 1])
  {
  }

  /** Filling succeeds exactly when the region has an address for every client. */
  lemma {:induction false} FilledMeaning(r: Range, values: Values, n: nat)
    requires n <= |values| && Sound(r, values) && |Members(r)| == r.capacity
    ensures |values| <= r.capacity ==> Filled(r, values, n).Some?
    ensures Filled(r, values, n).Some? ==>
              && Sound(r, Filled(r, values, n).value)
              && Keeps(values, Filled(r, values, n).value)
              && forall i :: 0 <= i < n ==> Filled(r, values, n).value[i].Some?
  {
    if n > 0 {
      FilledMeaning(r, values, n - 1);
      if Filled(r, values, n - 1).Some? {
        var before := Filled(r, values, n - 1).value;
        TakenSize(r, before);
        RoomLeft(r, Taken(before));
        LeastFreeMeaning(r, Taken(before));
        if before[n - 1].None? && LeastFree(r, Taken(before)).Some? {
          SetKeepsSound(r, before, n - 1, LeastFree(r, Taken(before)).value);
        }
      }
    }
  }

  /** The remap succeeds exactly when the static clients fit, and is then sound and complete. */
  lemma AssignedMeaning(r: Range, previous: seq<Word>, target: Network)
    requires target.prefix <= 32 && |Members(r)| == r.capacity
    ensures Assigned(r, previous, target).Some? <==> |previous| <= r.capacity
    ensures Assigned(r, previous, target).Some? ==>
              Sound(r, Assigned(r, previous, target).value) && Complete(Assigned(r, previous, target).value)
  {
    OfferedSound(r, previous, Nones(|previous|), |previous|);
    OfferedSound(r, HostBits(previous, target), Kept(r, previous), |previous|);
    FilledMeaning(r, Mapped(r, previous, target), |previous|);
    if Assigned(r, previous, target).Some? {
      var values := Assigned(r, previous, target).value;
      TakenSize(r, values);
      RoomLeft(r, Taken(values));
    }
  }

  /** A client keeps its address exactly when it is in the new region and no earlier client has the same one. */
  lemma KeptMeaning(r: Range, previous: seq<Word>)
    ensures forall i :: 0 <= i < |previous| ==>
              Kept(r, previous)[i] ==
              if Contains(r, previous[i]) && (forall j :: 0 <= j < i ==> previous[j] != previous[i])
                then Some(previous[i]) else None
  {
    OfferedMeaning(r, previous, Nones(|previous|), |previous|);
    assert Taken(Nones(|previous|)) == {};
  }

  /** A client whose old address is valid and its own keeps it, whatever the others do. */
  lemma PriorityKept(r: Range, previous: seq<Word>, target: Network, i: nat)
    requires target.prefix <= 32 && |Members(r)| == r.capacity && i < |previous|
    requires Contains(r, previous[i]) && forall j :: 0 <= j < |previous| && j != i ==> previous[j] != previous[i]
    requires Assigned(r, previous, target).Some?
    ensures Assigned(r, previous, target).value[i] == Some(previous[i])
  {
    KeptMeaning(r, previous);
    OfferedSound(r, previous, Nones(|previous|), |previous|);
    OfferedSound(r, HostBits(previous, target), Kept(r, previous), |previous|);
    FilledMeaning(r, Mapped(r, previous, target), |previous|);
  }

  /**
   A client that loses its old address keeps its host bits when the mapped address is in
   the region, kept by nobody, and not mapped to by an earlier such client.
   */
  lemma HostBitsKept(r: Range, previous: seq<Word>, target: Network, i: nat)
    requires Canonical(target) && |Members(r)| == r.capacity && i < |previous|
    requires Kept(r, previous)[i].None?
    requires Wins(r, HostBits(previous, target), Kept(r, previous), i)
    requires Assigned(r, previous, target).Some?
    ensures Assigned(r, previous, target).value[i] == Some(MapHostBits(previous[i], target))
    ensures Assigned(r, previous, target).value[i].value % Pow2(32 - target.prefix)
            == previous[i] % Pow2(32 - target.prefix)
  {
    OfferedMeaning(r, HostBits(previous, target), Kept(r, previous), |previous|);
    OfferedSound(r, previous, Nones(|previous|), |previous|);
    OfferedSound(r, HostBits(previous, target), Kept(r, previous), |previous|);
    FilledMeaning(r, Mapped(r, previous, target), |previous|);
    MapHostBitsMeaning(previous[i], target);
  }

  /** Clients left over take the lowest free addresses, in client order. */
  lemma {:induction false} FilledInOrder(r: Range, values: Values, n: nat, i: nat)
    requires i < n <= |values| && values[i].None? && Filled(r, values, n).Some?
    ensures Filled(r, values, i).Some?
    ensures Filled(r, values, n).value[i] == LeastFree(r, Taken(Filled(r, values, i).value))
    decreases n
  {
    FilledRest(r, values, n - 1);
    if i < n - 1 {
      FilledInOrder(r, values, n - 1, i);
      LeastFreeMeaning(r, Taken(Filled(r, values, i).value));
    }
  }

  lemma {:induction false} FilledRest(r: Range, values: Values, n: nat)
    requires n <= |values| && Filled(r, values, n).Some?
    ensures forall i :: n <= i < |values| ==> Filled(r, values, n).value[i] == values[i]
  {
    if n > 0 {
      FilledRest(r, values, n - 1);
    }
  }

  /** When every address is already valid and unique, all are kept. */
  lemma AllKept(r: Range, previous: seq<Word>, target: Network)
    requires target.prefix <= 32 && |Members(r)| == r.capacity && ValidStaticSet(r, previous)
    ensures Assigned(r, previous, target).Some?
    ensures forall i :: 0 <= i < |previous| ==> Assigned(r, previous, target).value[i] == Some(previous[i])
  {
    var values := seq(|previous|, i requires 0 <= i < |previous| => Some(previous[i]));
    assert Sound(r, values);
    TakenSize(r, values);
    RoomLeft(r, Taken(values));
    AssignedMeaning(r, previous, target);
    forall i | 0 <= i < |previous|
      ensures Assigned(r, previous, target).value[i] == Some(previous[i])
    {
      PriorityKept(r, previous, target, i);
    }
  }

  // ------------------------------------------------------------------
  // The plan for a list of clients
  // ------------------------------------------------------------------

  predicate HasAssignment(c: ClientState) {
    c.assignment.Some?
  }

  predicate IsStatic(c: ClientState) {
    c.assignment.Some? && c.assignment.value.kind.Static?
  }

  predicate IsDynamic(c: ClientState) {
    c.assignment.Some? && c.assignment.value.kind.Dynamic?
  }

  predicate WellFormed(c: ClientState) {
    IsStatic(c) ==> c.assignment.value.address.Some?
  }

  function Filter(clients: seq<ClientState>, keep: ClientState -> bool): (kept: seq<ClientState>)
    ensures forall i :: 0 <= i < |kept| ==> keep(kept[i]) && kept[i] in clients
  {
    if clients == [] then []
    else
      var n := |clients| - 1;
      Filter(clients[..n], keep) + (if keep(clients[n]) then [clients[n]] else [])
  }

  function Statics(clients: seq<ClientState>): seq<ClientState> {
    Filter(clients, IsStatic)
  }

  function Dynamics(clients: seq<ClientState>): seq<ClientState> {
    Filter(clients, IsDynamic)
  }

  function Assignees(clients: seq<ClientState>): seq<ClientState> {
    Filter(clients, HasAssignment)
  }

  /** What stops the remap at one client. */
  function Objection(c: ClientState, layout: Layout): Option<RemapError> {
    if IsDynamic(c) && layout.dynamics.capacity == 0 then Some(EmptyPool(c.name))
    else if !WellFormed(c) then Some(Malformed(c.name))
    else None
  }

  function FirstObjection(clients: seq<ClientState>, layout: Layout): Option<RemapError> {
    if clients == [] then None
    else
      var n := |clients| - 1;
      match FirstObjection(clients[..n], layout)
      case Some(e) => Some(e)
      case None => Objection(clients[n], layout)
  }

  function Unchanged(c: ClientState): Change
    requires c.assignment.Some?
  {
    Change(c.id, c.name, c.assignment.value, c.assignment.value)
  }

  function Moved(c: ClientState, address: Word): Change
    requires c.assignment.Some?
  {
    Change(c.id, c.name, c.assignment.value, Assignment(Static, Some(address), c.assignment.value.status))
  }

  function DynamicChanges(clients: seq<ClientState>): seq<Change> {
    var dynamics := Dynamics(clients);
    seq(|dynamics|, i requires 0 <= i < |dynamics| => Unchanged(dynamics[i]))
  }

  function AddressOf(c: ClientState): Word
    requires IsStatic(c) && WellFormed(c)
  {
    c.assignment.value.address.value
  }

  predicate Placeable(statics: seq<ClientState>) {
    forall i :: 0 <= i < |statics| ==> IsStatic(statics[i]) && WellFormed(statics[i])
  }

  function Addresses(statics: seq<ClientState>): seq<Word>
    requires Placeable(statics)
  {
    seq(|statics|, i requires 0 <= i < |statics| => AddressOf(statics[i]))
  }

  function StaticChanges(statics: seq<ClientState>, values: Values): seq<Change>
    requires |values| == |statics| && Complete(values) && Placeable(statics)
  {
    seq(|statics|, i requires 0 <= i < |statics| => Moved(statics[i], values[i].value))
  }

  lemma {:induction false} NoObjection(clients: seq<ClientState>, layout: Layout)
    ensures FirstObjection(clients, layout).None? <==> forall c :: c in clients ==> Objection(c, layout).None?
    ensures FirstObjection(clients, layout).None? ==> Placeable(Statics(clients))
  {
    if clients != [] {
      var n := |clients| - 1;
      NoObjection(clients[..n], layout);
      assert clients == clients[..n] + [clients[n]];
    }
  }

  /** The changes of a successful remap, before they are sorted for presentation. */
  function PlanChanges(clients: seq<ClientState>, target: Network,
      dynamicPoolSize: nat): Result<seq<Change>, RemapError>
    requires Canonical(target)
  {
    match NewIPv4Layout(target, dynamicPoolSize)
    case Err(e) => Err(BadLayout(e))
    case Ok(layout) =>
      match FirstObjection(clients, layout)
      case Some(e) => Err(e)
      case None =>
        NoObjection(clients, layout);
        var statics := Statics(clients);
        LayoutPartition(target, dynamicPoolSize);
        AssignedMeaning(layout.statics, Addresses(statics), target);
        match Assigned(layout.statics, Addresses(statics), target)
        case None => Err(NoAddress)
        case Some(values) => Ok(DynamicChanges(clients) + StaticChanges(statics, values))
  }

  function Subject(c: Change): ClientState {
    ClientState(c.id, c.name, Some(c.before))
  }

  function Subjects(changes: seq<Change>): seq<ClientState> {
    seq(|changes|, i requires 0 <= i < |changes| => Subject(changes[i]))
  }

  lemma {:induction false} AssigneesSplit(clients: seq<ClientState>)
    ensures multiset(Assignees(clients)) == multiset(Dynamics(clients)) + multiset(Statics(clients))
  {
    if clients != [] {
      AssigneesSplit(clients[..|clients| - 1]);
    }
  }

  /**
   With well-formed assignments and no dynamic client facing an empty pool, a remap to a
   valid layout succeeds exactly when the static clients fit into the static region.
   */
  lemma RemapSucceeds(clients: seq<ClientState>, target: Network, dynamicPoolSize: nat)
    requires Canonical(target) && forall c :: c in clients ==> WellFormed(c)
    ensures PlanChanges(clients, target, dynamicPoolSize).Ok? <==>
              && NewIPv4Layout(target, dynamicPoolSize).Ok?
              && (dynamicPoolSize == 0 ==> Dynamics(clients) == [])
              && |Statics(clients)| <= NewIPv4Layout(target, dynamicPoolSize).value.statics.capacity
  {
    LayoutPartition(target, dynamicPoolSize);
    if NewIPv4Layout(target, dynamicPoolSize).Ok? {
      var layout := NewIPv4Layout(target, dynamicPoolSize).value;
      NoObjection(clients, layout);
      FilterMeaning(clients, IsDynamic);
      assert FirstObjection(clients, layout).None? <==> (dynamicPoolSize == 0 ==> Dynamics(clients) == []) by {
        if dynamicPoolSize == 0 && Dynamics(clients) != [] {
          var c := Dynamics(clients)[0];
          assert c in clients && Objection(c, layout).Some?;
        }
        if dynamicPoolSize == 0 && Dynamics(clients) == [] {
          forall c | c in clients ensures Objection(c, layout).None? {
            assert c !in Dynamics(clients);
          }
        }
      }
      if FirstObjection(clients, layout).None? {
        AssignedMeaning(layout.statics, Addresses(Statics(clients)), target);
      }
    }
  }

  lemma {:induction false} FilterMeaning(clients: seq<ClientState>, keep: ClientState -> bool)
    ensures forall c :: c in Filter(clients, keep) <==> c in clients && keep(c)
  {
    if clients != [] {
      var n := |clients| - 1;
      FilterMeaning(clients[..n], keep);
      assert clients == clients[..n] + [clients[n]];
    }
  }

  /** Kind and status stay; dynamic intent stays altogether; a static address ends in the region. */
  predicate KeepsIntent(r: Range, c: Change) {
    && c.after.kind == c.before.kind
    && c.after.status == c.before.status
    && (c.before.kind.Dynamic? ==> c.after == c.before)
    && (c.before.kind.Static? ==> c.after.address.Some? && Contains(r, c.after.address.value))
  }

  predicate OneChangeEach(clients: seq<ClientState>, r: Range, changes: seq<Change>) {
    && multiset(Subjects(changes)) == multiset(Assignees(clients))
    && (forall i :: 0 <= i < |changes| ==> KeepsIntent(r, changes[i]))
    && (forall i, j :: 0 <= i < j < |changes| && changes[i].after.kind.Static? && changes[j].after.kind.Static? ==>
          changes[i].after.address != changes[j].after.address)
  }

  /**
   A successful remap has exactly one change per client with an assignment, starting from
   that assignment and keeping its kind and status; dynamic clients are untouched, and the
   static addresses afterwards are pairwise distinct addresses of the static region.
   */
  lemma RemapSound(clients: seq<ClientState>, target: Network, dynamicPoolSize: nat)
    requires Canonical(target) && PlanChanges(clients, target, dynamicPoolSize).Ok?
    ensures var changes := PlanChanges(clients, target, dynamicPoolSize).value;
            OneChangeEach(clients, NewIPv4Layout(target, dynamicPoolSize).value.statics, changes)
  {
    var layout := NewIPv4Layout(target, dynamicPoolSize).value;
    NoObjection(clients, layout);
    LayoutPartition(target, dynamicPoolSize);
    AssignedMeaning(layout.statics, Addresses(Statics(clients)), target);
    ChangesSound(clients, layout.statics, Assigned(layout.statics, Addresses(Statics(clients)), target).value);
  }

  lemma PlanIs(clients: seq<ClientState>, target: Network, dynamicPoolSize: nat)
      returns (layout: Layout, values: Values)
    requires Canonical(target) && PlanChanges(clients, target, dynamicPoolSize).Ok?
    ensures NewIPv4Layout(target, dynamicPoolSize) == Ok(layout) && Placeable(Statics(clients))
    ensures |Members(layout.statics)| == layout.statics.capacity
    ensures Assigned(layout.statics, Addresses(Statics(clients)), target) == Some(values)
    ensures |values| == |Statics(clients)| && Complete(values)
    ensures PlanChanges(clients, target, dynamicPoolSize).value
            == DynamicChanges(clients) + StaticChanges(Statics(clients), values)
  {
    layout := NewIPv4Layout(target, dynamicPoolSize).value;
    NoObjection(clients, layout);
    LayoutPartition(target, dynamicPoolSize);
    AssignedMeaning(layout.statics, Addresses(Statics(clients)), target);
    values := Assigned(layout.statics, Addresses(Statics(clients)), target).value;
  }

  /** No other static client has the address from which this change starts. */
  predicate OwnAddress(changes: seq<Change>, i: nat)
    requires i < |changes|
  {
    forall j :: 0 <= j < |changes| && j != i && changes[j].before.kind.Static? ==>
      changes[j].before.address != changes[i].before.address
  }

  /** In the plan, a static client whose old address lies in the new region and is its own is not moved. */
  lemma RemapKeeps(clients: seq<ClientState>, target: Network, dynamicPoolSize: nat, i: nat)
    requires Canonical(target) && PlanChanges(clients, target, dynamicPoolSize).Ok?
    requires i < |PlanChanges(clients, target, dynamicPoolSize).value|
    requires var changes := PlanChanges(clients, target, dynamicPoolSize).value;
             && changes[i].before.kind.Static? && changes[i].before.address.Some?
             && Contains(NewIPv4Layout(target, dynamicPoolSize).value.statics, changes[i].before.address.value)
             && OwnAddress(changes, i)
    ensures var change := PlanChanges(clients, target, dynamicPoolSize).value[i]; change.after == change.before
  {
    hide PlanChanges, Assigned, NewIPv4Layout, Contains;
    var layout, values := PlanIs(clients, target, dynamicPoolSize);
    var d, m: seq<Change> := DynamicChanges(clients), StaticChanges(Statics(clients), values);
    forall k | 0 <= k < |d| ensures (d + m)[k].before.kind.Dynamic? {
      assert d[k] == Unchanged(Dynamics(clients)[k]);
    }
    var k, previous := i - |d|, Addresses(Statics(clients));
    assert (d + m)[i] == m[k] == Moved(Statics(clients)[k], values[k].value);
    forall j | 0 <= j < |previous| && j != k ensures previous[j] != previous[k] {
      assert (d + m)[|d| + j] == m[j] == Moved(Statics(clients)[j], values[j].value);
    }
    PriorityKept(layout.statics, previous, target, k);
  }

  /** Remapping onto a layout in which every static address is already valid and unique succeeds and changes nothing. */
  lemma RemapIdentity(clients: seq<ClientState>, target: Network, dynamicPoolSize: nat)
    requires Canonical(target) && NewIPv4Layout(target, dynamicPoolSize).Ok?
    requires forall c :: c in clients ==> WellFormed(c)
    requires dynamicPoolSize == 0 ==> Dynamics(clients) == []
    requires ValidStaticSet(NewIPv4Layout(target, dynamicPoolSize).value.statics, Addresses(Statics(clients)))
    ensures PlanChanges(clients, target, dynamicPoolSize).Ok?
    ensures forall change ::
            change in PlanChanges(clients, target, dynamicPoolSize).value ==> change.after == change.before
  {
    hide PlanChanges, Assigned, NewIPv4Layout, ValidStaticSet, FirstObjection, Members;
    LayoutPartition(target, dynamicPoolSize);
    AllKept(NewIPv4Layout(target, dynamicPoolSize).value.statics, Addresses(Statics(clients)), target);
    AssignedMeaning(NewIPv4Layout(target, dynamicPoolSize).value.statics, Addresses(Statics(clients)), target);
    RemapSucceeds(clients, target, dynamicPoolSize);
    var layout, values := PlanIs(clients, target, dynamicPoolSize);
    StayInPlace(clients, values);
  }

  lemma StayInPlace(clients: seq<ClientState>, values: Values)
    requires Placeable(Statics(clients)) && |values| == |Statics(clients)| && Complete(values)
    requires forall k :: 0 <= k < |values| ==> values[k] == Some(Addresses(Statics(clients))[k])
    ensures forall change :: change in DynamicChanges(clients) + StaticChanges(Statics(clients), values) ==>
              change.after == change.before
  {
    forall change | change in DynamicChanges(clients) + StaticChanges(Statics(clients), values)
      ensures change.after == change.before
    {
      if change in DynamicChanges(clients) {
        var k :| 0 <= k < |Dynamics(clients)| && DynamicChanges(clients)[k] == change;
      } else {
        var k :| 0 <= k < |Statics(clients)| && StaticChanges(Statics(clients), values)[k] == change;
        assert values[k] == Some(AddressOf(Statics(clients)[k]));
      }
    }
  }

  lemma ChangesSound(clients: seq<ClientState>, r: Range, values: Values)
    requires Placeable(Statics(clients)) && |values| == |Statics(clients)|
    requires Complete(values) && Sound(r, values)
    ensures OneChangeEach(clients, r, DynamicChanges(clients) + StaticChanges(Statics(clients), values))
  {
    var d, m := DynamicChanges(clients), StaticChanges(Statics(clients), values);
    SubjectsCovered(clients, values);
    forall i | 0 <= i < |d| ensures KeepsIntent(r, d[i]) && d[i].after.kind.Dynamic? {
      assert d[i] == Unchanged(Dynamics(clients)[i]);
    }
    forall i | 0 <= i < |m| ensures KeepsIntent(r, m[i]) && m[i].after.address == values[i] {
      assert m[i] == Moved(Statics(clients)[i], values[i].value);
    }
    forall i, j | 0 <= i < j < |m| ensures m[i].after.address != m[j].after.address {
      assert values[i] != values[j];
    }
    var changes := d + m;
    forall i | 0 <= i < |changes| ensures KeepsIntent(r, changes[i]) {
      assert changes[i] == if i < |d| then d[i] else m[i - |d|];
    }
    forall i, j | 0 <= i < j < |changes| && changes[i].after.kind.Static? && changes[j].after.kind.Static?
      ensures changes[i].after.address != changes[j].after.address
    {
      assert changes[i] == m[i - |d|] && changes[j] == m[j - |d|];
    }
  }

  lemma SubjectsCovered(clients: seq<ClientState>, values: Values)
    requires Placeable(Statics(clients)) && |values| == |Statics(clients)| && Complete(values)
    ensures multiset(Subjects(DynamicChanges(clients) + StaticChanges(Statics(clients), values)))
            == multiset(Assignees(clients))
  {
    var d, m := DynamicChanges(clients), StaticChanges(Statics(clients), values);
    AssigneesSplit(clients);
    forall i | 0 <= i < |d| ensures Subjects(d)[i] == Dynamics(clients)[i] {
      assert IsDynamic(Dynamics(clients)[i]);
    }
    assert Subjects(d) == Dynamics(clients);
    assert Subjects(m) == Statics(clients);
    assert Subjects(d + m) == Subjects(d) + Subjects(m);
  }

  // ------------------------------------------------------------------
  // Where each client goes, told by the clients alone
  // ------------------------------------------------------------------

  /** The static clients before `i` come before it in the list of static clients. */
  function Rank(clients: seq<ClientState>, i: nat): nat
    requires i <= |clients|
  {
    |Statics(clients[..i])|
  }

  lemma {:induction false} RankFinds(clients: seq<ClientState>, i: nat)
    requires i < |clients| && IsStatic(clients[i])
    ensures Rank(clients, i) < |Statics(clients)| && Statics(clients)[Rank(clients, i)] == clients[i]
    decreases |clients|
  {
    var n := |clients| - 1;
    if i < n {
      RankFinds(clients[..n], i);
      assert clients[..n][..i] == clients[..i];
    }
  }

  lemma {:induction false} RankGrows(clients: seq<ClientState>, i: nat, j: nat)
    requires i < j <= |clients|
    ensures Rank(clients, i) <= Rank(clients, j)
    ensures IsStatic(clients[i]) ==> Rank(clients, i) < Rank(clients, j)
    decreases j
  {
    assert clients[..j][..j - 1] == clients[..j - 1];
    if i < j - 1 {
      RankGrows(clients, i, j - 1);
    }
  }

  /** Every static client has its place in the list. */
  lemma {:induction false} RankReaches(clients: seq<ClientState>, k: nat) returns (i: nat)
    requires k < |Statics(clients)|
    ensures i < |clients| && IsStatic(clients[i]) && Rank(clients, i) == k
    decreases |clients|
  {
    var n := |clients| - 1;
    if k < |Statics(clients[..n])| {
      i := RankReaches(clients[..n], k);
      assert clients[..n][..i] == clients[..i];
    } else {
      i := n;
    }
  }

  /** A static client with an address; the source refuses any other static one. */
  predicate Placed(c: ClientState) {
    IsStatic(c) && c.assignment.value.address.Some?
  }

  /** The old address lies in the region, and no earlier client has it. */
  predicate Stays(r: Range, clients: seq<ClientState>, i: nat)
    requires i < |clients|
  {
    && Placed(clients[i]) && Contains(r, clients[i].assignment.value.address.value)
    && forall j :: 0 <= j < i && Placed(clients[j]) ==>
         clients[j].assignment.value.address != clients[i].assignment.value.address
  }

  /**
   The address with the same host bits lies in the region, is kept by nobody, and no earlier client that moves
   maps to it.
   */
  predicate Follows(r: Range, clients: seq<ClientState>, target: Network, i: nat)
    requires i < |clients| && target.prefix <= 32
  {
    && Placed(clients[i]) && !Stays(r, clients, i)
    && var mapped := MapHostBits(clients[i].assignment.value.address.value, target);
       && Contains(r, mapped)
       && (forall j :: 0 <= j < |clients| && Stays(r, clients, j) ==>
             clients[j].assignment.value.address.value != mapped)
       && (forall j :: 0 <= j < i && Placed(clients[j]) && !Stays(r, clients, j) ==>
             MapHostBits(clients[j].assignment.value.address.value, target) != mapped)
  }

  /**
   The addresses given away before client `i` is filled in: of those that stay or follow, and of those filled
   in earlier.
   */
  function GivenBefore(r: Range, clients: seq<ClientState>, target: Network, values: seq<Word>, i: nat): set<Word>
    requires i <= |clients| == |values| && target.prefix <= 32
  {
    set j | 0 <= j < |clients| && Placed(clients[j]) &&
      (Stays(r, clients, j) || Follows(r, clients, target, j) || j < i)
      :: values[j]
  }

  /**
   Exactly one placement: whoever can stay stays, whoever can keep its host bits does, the rest fill up in
   client order.
   */
  ghost predicate Placement(r: Range, clients: seq<ClientState>, target: Network, values: seq<Word>)
    requires target.prefix <= 32
  {
    && |values| == |clients|
    && forall i :: 0 <= i < |clients| && Placed(clients[i]) ==>
         if Stays(r, clients, i) then values[i] == clients[i].assignment.value.address.value
         else if Follows(r, clients, target, i)
           then values[i] == MapHostBits(clients[i].assignment.value.address.value, target)
         else IsLeastFree(r, GivenBefore(r, clients, target, values, i), values[i])
  }

  /** The kept addresses of the list are those of the clients that stay. */
  lemma StaysAtRank(r: Range, clients: seq<ClientState>, i: nat)
    requires Placeable(Statics(clients)) && i < |clients| && IsStatic(clients[i])
    ensures Rank(clients, i) < |Statics(clients)|
    ensures Addresses(Statics(clients))[Rank(clients, i)] == AddressOf(Statics(clients)[Rank(clients, i)])
    ensures Statics(clients)[Rank(clients, i)] == clients[i]
    ensures Kept(r, Addresses(Statics(clients)))[Rank(clients, i)] ==
              if Stays(r, clients, i) then clients[i].assignment.value.address else None
  {
    var previous, k := Addresses(Statics(clients)), Rank(clients, i);
    KeptMeaning(r, previous);
    RankFinds(clients, i);
    if forall j :: 0 <= j < k ==> previous[j] != previous[k] {
      forall j | 0 <= j < i && Placed(clients[j])
        ensures clients[j].assignment.value.address != clients[i].assignment.value.address
      {
        RankFinds(clients, j);
        RankGrows(clients, j, i);
        assert previous[Rank(clients, j)] == AddressOf(clients[j]);
      }
    } else {
      var j :| 0 <= j < k && previous[j] == previous[k];
      var at := RankReaches(clients, j);
      RankFinds(clients, at);
      if at > i {
        RankGrows(clients, i, at);
      }
    }
  }

  lemma FollowsAtRank(r: Range, clients: seq<ClientState>, target: Network, i: nat)
    requires Placeable(Statics(clients)) && i < |clients| && IsStatic(clients[i]) && target.prefix <= 32
    ensures var previous := Addresses(Statics(clients));
            && Rank(clients, i) < |previous|
            && (Wins(r, HostBits(previous, target), Kept(r, previous), Rank(clients, i)) <==>
              Follows(r, clients, target, i))
  {
    var previous, k := Addresses(Statics(clients)), Rank(clients, i);
    StaysAtRank(r, clients, i);
    var kept, mapped := Kept(r, previous), MapHostBits(clients[i].assignment.value.address.value, target);
    hide Kept, MapHostBits, Stays, Contains;
    assert HostBits(previous, target)[k] == mapped;
    if Wins(r, HostBits(previous, target), kept, k) {
      forall j | 0 <= j < |clients| && Stays(r, clients, j)
        ensures clients[j].assignment.value.address.value != mapped {
        StaysIsPlaced(r, clients, j);
        StaysAtRank(r, clients, j);
        assert kept[Rank(clients, j)].value in Taken(kept);
      }
      forall j | 0 <= j < i && Placed(clients[j]) && !Stays(r, clients, j)
        ensures MapHostBits(clients[j].assignment.value.address.value, target) != mapped
      {
        StaysAtRank(r, clients, j);
        RankGrows(clients, j, i);
        assert HostBits(previous, target)[Rank(clients, j)]
               == MapHostBits(clients[j].assignment.value.address.value, target);
      }
    }
    if Follows(r, clients, target, i) {
      forall m | 0 <= m < |kept| && kept[m].Some? ensures kept[m].value != mapped {
        var j := RankReaches(clients, m);
        StaysAtRank(r, clients, j);
      }
      forall m | 0 <= m < k && kept[m].None? ensures HostBits(previous, target)[m] != mapped {
        var j := RankReaches(clients, m);
        StaysAtRank(r, clients, j);
        if j > i {
          RankGrows(clients, i, j);
        }
      }
    }
  }

  lemma StaysIsPlaced(r: Range, clients: seq<ClientState>, i: nat)
    requires i < |clients| && Stays(r, clients, i)
    ensures Placed(clients[i])
  {
  }

  lemma {:induction false} FilledKeeps(r: Range, values: Values, n: nat, m: nat)
    requires n <= m <= |values| && Filled(r, values, m).Some?
    ensures Filled(r, values, n).Some? && Keeps(Filled(r, values, n).value, Filled(r, values, m).value)
    decreases m
  {
    if n < m {
      FilledKeeps(r, values, n, m - 1);
    }
  }

  lemma {:induction false} FilledUpTo(r: Range, values: Values, n: nat)
    requires n <= |values| && Filled(r, values, n).Some?
    ensures forall i :: 0 <= i < |values| ==> (Filled(r, values, n).value[i].Some? <==> values[i].Some? || i < n)
  {
    if n > 0 {
      FilledUpTo(r, values, n - 1);
    }
  }

  /** What is taken when position `k` is filled, told by the final addresses. */
  lemma TakenAtFill(r: Range, values: Values, k: nat)
    requires k <= |values| && Filled(r, values, |values|).Some?
    ensures Filled(r, values, k).Some?
    ensures var final := Filled(r, values, |values|).value;
            forall a :: a in Taken(Filled(r, values, k).value) <==>
              exists j :: 0 <= j < |values| && (values[j].Some? || j < k) && final[j] == Some(a)
  {
    var final := Filled(r, values, |values|).value;
    FilledKeeps(r, values, k, |values|);
    FilledUpTo(r, values, k);
    var current := Filled(r, values, k).value;
    forall a | exists j :: 0 <= j < |values| && (values[j].Some? || j < k) && final[j] == Some(a)
      ensures a in Taken(current)
    {
      var j :| 0 <= j < |values| && (values[j].Some? || j < k) && final[j] == Some(a);
      assert current[j] == final[j];
    }
  }

  /** Position by position: kept, mapped, or the least free address of the moment. */
  lemma AssignedAt(r: Range, previous: seq<Word>, target: Network, k: nat)
    requires target.prefix <= 32 && |Members(r)| == r.capacity && k < |previous|
    requires Assigned(r, previous, target).Some?
    ensures var value := Assigned(r, previous, target).value[k]; var mapped := Mapped(r, previous, target);
            if Kept(r, previous)[k].Some? then value == Kept(r, previous)[k]
            else if Wins(r, HostBits(previous, target), Kept(r, previous), k)
              then value == Some(HostBits(previous, target)[k])
            else Filled(r, mapped, k).Some? && value == LeastFree(r, Taken(Filled(r, mapped, k).value)) && value.Some?
    ensures Mapped(r, previous, target)[k].Some? <==>
              Kept(r, previous)[k].Some? || Wins(r, HostBits(previous, target), Kept(r, previous), k)
  {
    var kept, mapped := Kept(r, previous), Mapped(r, previous, target);
    OfferedMeaning(r, HostBits(previous, target), kept, |previous|);
    OfferedSound(r, previous, Nones(|previous|), |previous|);
    OfferedSound(r, HostBits(previous, target), kept, |previous|);
    FilledKeeps(r, mapped, 0, |previous|);
    FilledUpTo(r, mapped, |previous|);
    if mapped[k].None? {
      FilledInOrder(r, mapped, |previous|, k);
    }
  }

  function Positions(clients: seq<ClientState>, chosen: Values): (values: seq<Word>)
    requires |chosen| == |Statics(clients)| && Complete(chosen)
    ensures |values| == |clients|
    ensures forall i :: 0 <= i < |clients| && IsStatic(clients[i]) ==>
              Rank(clients, i) < |chosen| && values[i] == chosen[Rank(clients, i)].value
  {
    RanksFind(clients);
    seq(|clients|, i requires 0 <= i < |clients| =>
      if IsStatic(clients[i]) then chosen[Rank(clients, i)].value else 0)
  }

  lemma RanksFind(clients: seq<ClientState>)
    ensures forall i :: 0 <= i < |clients| && IsStatic(clients[i]) ==> Rank(clients, i) < |Statics(clients)|
  {
    forall i | 0 <= i < |clients| && IsStatic(clients[i]) ensures Rank(clients, i) < |Statics(clients)| {
      RankFinds(clients, i);
    }
  }

  lemma GivenIsTaken(r: Range, clients: seq<ClientState>, target: Network, chosen: Values, i: nat)
    requires Placeable(Statics(clients)) && target.prefix <= 32 && |Members(r)| == r.capacity
    requires Assigned(r, Addresses(Statics(clients)), target) == Some(chosen) && Complete(chosen)
    requires i < |clients| && IsStatic(clients[i])
    ensures var mapped := Mapped(r, Addresses(Statics(clients)), target); var k := Rank(clients, i);
            && k < |mapped| && Filled(r, mapped, k).Some?
            && GivenBefore(r, clients, target, Positions(clients, chosen), i) == Taken(Filled(r, mapped, k).value)
  {
    var previous, k, values := Addresses(Statics(clients)), Rank(clients, i), Positions(clients, chosen);
    var mapped := Mapped(r, previous, target);
    RankFinds(clients, i);
    TakenAtFill(r, mapped, k);
    var given, taken := GivenBefore(r, clients, target, values, i), Taken(Filled(r, mapped, k).value);
    hide Assigned, Mapped, Kept, Stays, Follows, Wins;
    forall a | a in given ensures a in taken {
      var j :| 0 <= j < |clients| && Placed(clients[j]) &&
        (Stays(r, clients, j) || Follows(r, clients, target, j) || j < i)
        && values[j] == a;
      MappedAtRank(r, clients, target, j);
      AssignedAt(r, previous, target, Rank(clients, j));
      if j < i {
        RankGrows(clients, j, i);
      }
      assert chosen[Rank(clients, j)] == Some(a);
    }
    forall a | a in taken ensures a in given {
      var m :| 0 <= m < |mapped| && (mapped[m].Some? || m < k) && chosen[m] == Some(a);
      var j := RankReaches(clients, m);
      MappedAtRank(r, clients, target, j);
      StaticIsPlaced(clients, j);
      if j > i {
        RankGrows(clients, i, j);
      }
      assert values[j] == a;
    }
  }

  lemma StaticIsPlaced(clients: seq<ClientState>, i: nat)
    requires Placeable(Statics(clients)) && i < |clients| && IsStatic(clients[i])
    ensures Placed(clients[i])
  {
    RankFinds(clients, i);
  }

  /** A position is given away in the first two phases exactly if its client stays or follows. */
  lemma MappedAtRank(r: Range, clients: seq<ClientState>, target: Network, i: nat)
    requires Placeable(Statics(clients)) && target.prefix <= 32 && i < |clients| && IsStatic(clients[i])
    ensures var mapped := Mapped(r, Addresses(Statics(clients)), target);
            && Rank(clients, i) < |mapped|
            && (mapped[Rank(clients, i)].Some? <==> Stays(r, clients, i) || Follows(r, clients, target, i))
  {
    var previous := Addresses(Statics(clients));
    StaysAtRank(r, clients, i);
    FollowsAtRank(r, clients, target, i);
    StaticIsPlaced(clients, i);
    OfferedMeaning(r, HostBits(previous, target), Kept(r, previous), |previous|);
    if Stays(r, clients, i) {
      OfferedKeeps(r, HostBits(previous, target), Kept(r, previous), |previous|, Rank(clients, i));
    }
    hide Stays, Follows, Wins, Kept;
  }

  lemma {:induction false} OfferedKeeps(r: Range, candidates: seq<Word>, values: Values, n: nat, k: nat)
    requires n <= |candidates| == |values| && k < |values| && values[k].Some?
    ensures Offered(r, candidates, values, n)[k] == values[k]
  {
    if n > 0 {
      OfferedKeeps(r, candidates, values, n - 1, k);
    }
  }

  /** The assigned addresses are that placement. */
  lemma AssignedIsPlacement(r: Range, clients: seq<ClientState>, target: Network, chosen: Values)
    requires Placeable(Statics(clients)) && target.prefix <= 32 && |Members(r)| == r.capacity
    requires Assigned(r, Addresses(Statics(clients)), target) == Some(chosen) && Complete(chosen)
    ensures Placement(r, clients, target, Positions(clients, chosen))
  {
    var previous, values := Addresses(Statics(clients)), Positions(clients, chosen);
    hide Assigned, Mapped, Kept, Stays, Follows, Wins, GivenBefore, Filled, HostBits;
    forall i | 0 <= i < |clients| && Placed(clients[i])
      ensures if Stays(r, clients, i) then values[i] == clients[i].assignment.value.address.value
              else if Follows(r, clients, target, i)
              then values[i] == MapHostBits(clients[i].assignment.value.address.value, target)
              else IsLeastFree(r, GivenBefore(r, clients, target, values, i), values[i])
    {
      var k := Rank(clients, i);
      StaysAtRank(r, clients, i);
      FollowsAtRank(r, clients, target, i);
      AssignedAt(r, previous, target, k);
      GivenIsTaken(r, clients, target, chosen, i);
      LeastFreeMeaning(r, GivenBefore(r, clients, target, values, i));
      HostBitsAt(previous, target, k);
    }
  }

  /** What is reported of one client whose place, if it is static, is `value`. */
  predicate Reports(c: ClientState, value: Word, change: Change) {
    && c.assignment.Some?
    && change.id == c.id && change.name == c.name && change.before == c.assignment.value
    && change.after == if c.assignment.value.kind.Static?
       then Assignment(Static, Some(value), c.assignment.value.status) else c.assignment.value
  }

  /** The changes tell of every client with an assignment, and of nobody else, where the placement puts it. */
  ghost predicate TellsPlacement(clients: seq<ClientState>, r: Range, target: Network, changes: seq<Change>)
    requires target.prefix <= 32
  {
    exists values :: Placement(r, clients, target, values) && TellsOf(clients, values, changes)
  }

  predicate TellsOf(clients: seq<ClientState>, values: seq<Word>, changes: seq<Change>)
    requires |values| == |clients|
  {
    && (forall i :: 0 <= i < |clients| && clients[i].assignment.Some? ==>
          Reported(clients[i], values[i], changes))
    && (forall change :: change in changes ==> TellsOfSome(clients, values, change))
  }

  predicate Reported(c: ClientState, value: Word, changes: seq<Change>) {
    exists change :: change in changes && Reports(c, value, change)
  }

  predicate TellsOfSome(clients: seq<ClientState>, values: seq<Word>, change: Change)
    requires |values| == |clients|
  {
    exists i :: 0 <= i < |clients| && Reports(clients[i], values[i], change)
  }

  /** Client `i` is the first that cannot be remapped. */
  predicate ObjectsFirst(clients: seq<ClientState>, layout: Layout, i: nat, e: RemapError) {
    && i < |clients|
    && ObjectsWith(clients[i], layout, e)
    && forall j :: 0 <= j < i ==> Untroubled(clients[j], layout)
  }

  predicate ObjectsWith(c: ClientState, layout: Layout, e: RemapError) {
    || (IsDynamic(c) && layout.dynamics.capacity == 0 && e == EmptyPool(c.name))
    || (IsStatic(c) && c.assignment.value.address.None? && e == Malformed(c.name))
  }

  predicate Untroubled(c: ClientState, layout: Layout) {
    && (IsDynamic(c) ==> layout.dynamics.capacity > 0)
    && (IsStatic(c) ==> c.assignment.value.address.Some?)
  }

  lemma {:induction false} FirstObjectionMeaning(clients: seq<ClientState>, layout: Layout)
    ensures FirstObjection(clients, layout).None? <==> forall i :: 0 <= i < |clients| ==> Untroubled(clients[i], layout)
    ensures forall e :: FirstObjection(clients, layout) == Some(e) ==> exists i :: ObjectsFirst(clients, layout, i, e)
  {
    if clients != [] {
      var n := |clients| - 1;
      FirstObjectionMeaning(clients[..n], layout);
      if FirstObjection(clients[..n], layout).Some? {
        var e := FirstObjection(clients[..n], layout).value;
        var i :| ObjectsFirst(clients[..n], layout, i, e);
        assert ObjectsFirst(clients, layout, i, e);
      } else {
        forall i | 0 <= i < n ensures Untroubled(clients[i], layout) {
          assert clients[..n][i] == clients[i];
        }
        if Objection(clients[n], layout).Some? {
          assert ObjectsFirst(clients, layout, n, Objection(clients[n], layout).value);
        }
      }
    }
  }

  /** The changes of the plan, told by the clients alone. */
  lemma PlanTellsPlacement(clients: seq<ClientState>, target: Network, dynamicPoolSize: nat)
    requires Canonical(target) && PlanChanges(clients, target, dynamicPoolSize).Ok?
    ensures TellsPlacement(clients, NewIPv4Layout(target, dynamicPoolSize).value.statics, target,
              PlanChanges(clients, target, dynamicPoolSize).value)
  {
    hide PlanChanges, Assigned, NewIPv4Layout, Placement, Contains;
    var layout, chosen := PlanIs(clients, target, dynamicPoolSize);
    AssignedIsPlacement(layout.statics, clients, target, chosen);
    PlanTellsOf(clients, chosen);
  }

  lemma PlanTellsOf(clients: seq<ClientState>, chosen: Values)
    requires Placeable(Statics(clients)) && |chosen| == |Statics(clients)| && Complete(chosen)
    ensures TellsOf(clients, Positions(clients, chosen),
              DynamicChanges(clients) + StaticChanges(Statics(clients), chosen))
  {
    hide Reports, Positions, Reported, TellsOfSome, IsStatic;
    var changes, values := DynamicChanges(clients) + StaticChanges(Statics(clients), chosen),
      Positions(clients, chosen);
    forall i | 0 <= i < |clients| && clients[i].assignment.Some? ensures Reported(clients[i], values[i], changes) {
      ClientIsTold(clients, chosen, i);
    }
    forall change | change in changes ensures TellsOfSome(clients, values, change) {
      var k :| 0 <= k < |changes| && changes[k] == change;
      ChangeTells(clients, chosen, k);
    }
  }

  lemma ClientIsTold(clients: seq<ClientState>, chosen: Values, i: nat)
    requires Placeable(Statics(clients)) && |chosen| == |Statics(clients)| && Complete(chosen)
    requires i < |clients| && clients[i].assignment.Some?
    ensures Reported(clients[i], Positions(clients, chosen)[i],
              DynamicChanges(clients) + StaticChanges(Statics(clients), chosen))
  {
    hide Reported;
    var d, m := DynamicChanges(clients), StaticChanges(Statics(clients), chosen);
    if IsStatic(clients[i]) {
      RankFinds(clients, i);
      var k := Rank(clients, i);
      assert m[k] == Moved(clients[i], chosen[k].value);
      ReportedAt(clients[i], chosen[k].value, d + m, |d| + k);
    } else {
      var k := DynamicAt(clients, i);
      assert d[k] == Unchanged(clients[i]);
      ReportedAt(clients[i], Positions(clients, chosen)[i], d + m, k);
    }
  }

  lemma ReportedAt(c: ClientState, value: Word, changes: seq<Change>, k: nat)
    requires k < |changes| && Reports(c, value, changes[k])
    ensures Reported(c, value, changes)
  {
    assert changes[k] in changes;
  }

  lemma DynamicAt(clients: seq<ClientState>, i: nat) returns (k: nat)
    requires i < |clients| && IsDynamic(clients[i])
    ensures k < |Dynamics(clients)| && Dynamics(clients)[k] == clients[i]
  {
    FilterMeaning(clients, IsDynamic);
    assert clients[i] in Dynamics(clients);
    k :| 0 <= k < |Dynamics(clients)| && Dynamics(clients)[k] == clients[i];
  }

  lemma ChangeTells(clients: seq<ClientState>, chosen: Values, k: nat)
    requires Placeable(Statics(clients)) && |chosen| == |Statics(clients)| && Complete(chosen)
    requires k < |Dynamics(clients)| + |Statics(clients)|
    ensures TellsOfSome(clients, Positions(clients, chosen),
              (DynamicChanges(clients) + StaticChanges(Statics(clients), chosen))[k])
  {
    var d, m := DynamicChanges(clients), StaticChanges(Statics(clients), chosen);
    if k < |d| {
      var i :| 0 <= i < |clients| && clients[i] == Dynamics(clients)[k];
      assert (d + m)[k] == d[k] == Unchanged(clients[i]);
      assert Reports(clients[i], Positions(clients, chosen)[i], d[k]);
    } else {
      var i := RankReaches(clients, k - |d|);
      RankFinds(clients, i);
      assert (d + m)[k] == m[k - |d|] == Moved(clients[i], chosen[k - |d|].value);
      assert Reports(clients[i], Positions(clients, chosen)[i], m[k - |d|]);
    }
  }

  /** The order of the changes does not matter for what they tell. */
  lemma SortedTells(clients: seq<ClientState>, r: Range, target: Network, changes: seq<Change>, changes': seq<Change>)
    requires target.prefix <= 32 && TellsPlacement(clients, r, target, changes)
    requires multiset(changes) == multiset(changes')
    ensures TellsPlacement(clients, r, target, changes')
  {
    hide Reports, IsStatic, Stays, Follows;
    var values :| Placement(r, clients, target, values) && TellsOf(clients, values, changes);
    SameElements(changes, changes');
    assert TellsOf(clients, values, changes');
  }

  lemma SameElements(changes: seq<Change>, changes': seq<Change>)
    requires multiset(changes) == multiset(changes')
    ensures forall change :: change in changes <==> change in changes'
  {
    forall change ensures change in changes <==> change in changes' {
      assert change in changes <==> change in multiset(changes);
    }
  }

  lemma HostBitsAt(previous: seq<Word>, target: Network, k: nat)
    requires target.prefix <= 32 && k < |previous|
    ensures HostBits(previous, target)[k] == MapHostBits(previous[k], target)
  {
  }

  // ------------------------------------------------------------------
  // The algorithm
  // ------------------------------------------------------------------

  function ChangeKey(c: Change): Order.SortKey {
    Order.SortKey(c.name, c.id)
  }

  /** One phase of offers over the clients still without an address. */
  method OfferAll(r: Range, candidates: seq<Word>, start: Values, taken: set<Word>)
      returns (values: Values, used: set<Word>)
    requires |candidates| == |start| && taken == Taken(start)
    ensures values == Offered(r, candidates, start, |start|) && used == Taken(values)
  {
    values, used := start, taken;
    var index := 0;
    while index < |values|
      invariant 0 <= index <= |values| == |start|
      invariant values == Offered(r, candidates, start, index) && used == Taken(values)
    {
      if values[index].None? && Contains(r, candidates[index]) && candidates[index] !in used {
        TakenUpdate(values, index, candidates[index]);
        used := used + {candidates[index]};
        values := values[index := Some(candidates[index])];
      }
      index := index + 1;
    }
  }

  /** The next address of the last phase, asked of the allocator with the set in use as a list. */
  method NextFree(r: Range, current: Values, used: set<Word>) returns (candidate: Option<Word>)
    requires used == Taken(current) && Sound(r, current)
    ensures candidate == LeastFree(r, used)
    ensures candidate.Some? ==> Contains(r, candidate.value) && candidate.value !in used
  {
    var existing := Listed(used);
    TakenInside(r, current);
    forall i | 0 <= i < |existing| ensures Contains(r, existing[i]) {
      assert existing[i] in ElementsOf(existing);
    }
    var next := NextStatic(r, existing);
    LeastFreeMeaning(r, used);
    return if next.Ok? then Some(next.value) else None;
  }

  lemma TakenInside(r: Range, values: Values)
    requires Sound(r, values)
    ensures forall a :: a in Taken(values) ==> Contains(r, a)
  {
  }

  /** The last phase: whoever is left takes the lowest free address. */
  method FillAll(r: Range, start: Values, taken: set<Word>) returns (values: Option<Values>)
    requires taken == Taken(start) && Sound(r, start)
    ensures values == Filled(r, start, |start|)
  {
    var current, used := start, taken;
    var index := 0;
    while index < |current|
      invariant 0 <= index <= |current| == |start|
      invariant Filled(r, start, index) == Some(current) && used == Taken(current)
      invariant Sound(r, current)
    {
      if current[index].None? {
        var candidate := NextFree(r, current, used);
        if candidate.None? {
          FilledStops(r, start, index + 1, |start|);
          return None;
        }
        TakenUpdate(current, index, candidate.value);
        SetKeepsSound(r, current, index, candidate.value);
        used := used + {candidate.value};
        current := current[index := candidate];
      }
      index := index + 1;
    }
    return Some(current);
  }

  lemma {:induction false} FilledStops(r: Range, values: Values, n: nat, m: nat)
    requires n <= m <= |values| && Filled(r, values, n).None?
    ensures Filled(r, values, m).None?
    decreases m
  {
    if n < m {
      FilledStops(r, values, n, m - 1);
    }
  }

  /** Splits the clients into unchanged dynamic ones and static ones to place. */
  method Collect(clients: seq<ClientState>, layout: Layout)
      returns (result: Result<seq<Change>, RemapError>, statics: seq<ClientState>)
    ensures match FirstObjection(clients, layout)
            case Some(e) => result == Err(e)
            case None => result == Ok(DynamicChanges(clients)) && statics == Statics(clients)
  {
    var changes: seq<Change> := [];
    statics := [];
    var index := 0;
    while index < |clients|
      invariant 0 <= index <= |clients|
      invariant FirstObjection(clients[..index], layout).None?
      invariant changes == DynamicChanges(clients[..index]) && statics == Statics(clients[..index])
    {
      var client := clients[index];
      assert clients[..index + 1][..index] == clients[..index];
      if client.assignment.Some? {
        if client.assignment.value.kind.Dynamic? {
          if layout.dynamics.capacity == 0 {
            ObjectionStays(clients, layout, index + 1, |clients|);
            return Err(EmptyPool(client.name)), [];
          }
          changes := changes + [Unchanged(client)];
        } else {
          if client.assignment.value.address.None? {
            ObjectionStays(clients, layout, index + 1, |clients|);
            return Err(Malformed(client.name)), [];
          }
          statics := statics + [client];
        }
      }
      index := index + 1;
    }
    assert clients[..index] == clients;
    return Ok(changes), statics;
  }

  lemma {:induction false} ObjectionStays(clients: seq<ClientState>, layout: Layout, n: nat, m: nat)
    requires n <= m <= |clients| && FirstObjection(clients[..n], layout).Some?
    ensures FirstObjection(clients[..m], layout) == FirstObjection(clients[..n], layout)
    ensures m == |clients| ==> FirstObjection(clients, layout) == FirstObjection(clients[..n], layout)
    decreases m
  {
    if n < m {
      ObjectionStays(clients, layout, n, m - 1);
      assert clients[..m][..m - 1] == clients[..m - 1];
    }
    if m == |clients| {
      assert clients[..m] == clients;
    }
  }

  lemma PlanOutcome(clients: seq<ClientState>, target: Network, dynamicPoolSize: nat)
    requires Canonical(target)
    ensures match NewIPv4Layout(target, dynamicPoolSize)
            case Err(e) => PlanChanges(clients, target, dynamicPoolSize) == Err(BadLayout(e))
            case Ok(layout) =>
              match PlanChanges(clients, target, dynamicPoolSize)
              case Ok(changes) =>
                && (forall i :: 0 <= i < |clients| ==> Untroubled(clients[i], layout))
                && |changes| == |Assignees(clients)|
              case Err(NoAddress) =>
                && (forall i :: 0 <= i < |clients| ==> Untroubled(clients[i], layout))
                && |Statics(clients)| > layout.statics.capacity
              case Err(e) => exists i :: ObjectsFirst(clients, layout, i, e)
  {
    var built := NewIPv4Layout(target, dynamicPoolSize);
    if built.Ok? {
      var layout := built.value;
      FirstObjectionMeaning(clients, layout);
      NoObjection(clients, layout);
      LayoutPartition(target, dynamicPoolSize);
      if FirstObjection(clients, layout).None? {
        AssignedMeaning(layout.statics, Addresses(Statics(clients)), target);
        AssigneesSplit(clients);
        assert |multiset(Assignees(clients))| == |multiset(Dynamics(clients))| + |multiset(Statics(clients))|;
      }
    }
  }

  /**
   Remaps every client. The changes say of each static client that it stays, keeps its host
   bits or takes the least free address, as `Placement` decides from the clients alone.
   */
  method RemapAddresses(clients: seq<ClientState>, target: Network, dynamicPoolSize: nat)
    returns (result: Result<seq<Change>, RemapError>)
    requires Canonical(target)
    ensures match PlanChanges(clients, target, dynamicPoolSize)
            case Err(e) => result == Err(e)
            case Ok(changes) =>
              result.Ok? && multiset(result.value) == multiset(changes) && Order.Sorted(result.value, ChangeKey)
    ensures match NewIPv4Layout(target, dynamicPoolSize)
            case Err(e) => result == Err(BadLayout(e))
            case Ok(layout) =>
              match result
              case Ok(changes) =>
                && (forall i :: 0 <= i < |clients| ==> Untroubled(clients[i], layout))
                && TellsPlacement(clients, layout.statics, target, changes)
                && |changes| == |Assignees(clients)|
              case Err(NoAddress) =>
                && (forall i :: 0 <= i < |clients| ==> Untroubled(clients[i], layout))
                && |Statics(clients)| > layout.statics.capacity
              case Err(e) => exists i :: ObjectsFirst(clients, layout, i, e)
  {
    PlanOutcome(clients, target, dynamicPoolSize);
    var built := NewIPv4Layout(target, dynamicPoolSize);
    if built.Err? {
      return Err(BadLayout(built.error));
    }
    var layout := built.value;
    LayoutPartition(target, dynamicPoolSize);
    var collected, statics := Collect(clients, layout);
    if collected.Err? {
      return Err(collected.error);
    }
    NoObjection(clients, layout);
    var previous := Addresses(statics);
    OfferedSound(layout.statics, previous, Nones(|previous|), |previous|);
    OfferedSound(layout.statics, HostBits(previous, target), Kept(layout.statics, previous), |previous|);
    AssignedMeaning(layout.statics, previous, target);
    assert Taken(Nones(|previous|)) == {};
    var values, used := OfferAll(layout.statics, previous, Nones(|previous|), {});
    values, used := OfferAll(layout.statics, HostBits(previous, target), values, used);
    var filled := FillAll(layout.statics, values, used);
    if filled.None? {
      return Err(NoAddress);
    }
    var plan := collected.value + StaticChanges(statics, filled.value);
    var sorted := Order.Sort(plan, ChangeKey);
    PlanTellsPlacement(clients, target, dynamicPoolSize);
    SortedTells(clients, layout.statics, target, plan, sorted);
    assert |multiset(sorted)| == |multiset(plan)|;
    return Ok(sorted);
  }
}
