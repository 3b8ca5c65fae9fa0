/**
 The tunnel address layout and the lowest-free allocator, on 32-bit addresses.
 Prefix lengths are those of section 3.1 of RFC 4632.
 */
module Ipam {
  import opened Results

  const WORD: nat := 0x1_0000_0000

  type Word = x: nat | x < 0x1_0000_0000

  /** How a client gets its address: a fixed one of its own, or one leased from the pool. */
  datatype Kind = Static | Dynamic

  // ------------------------------------------------------------------
  // 32-bit words
  // ------------------------------------------------------------------

  function Pow2(k: nat): (p: nat)
    ensures p > 0
  {
    if k == 0 then 1 else 2 * Pow2(k - 1)
  }

  function BitAnd(x: nat, y: nat): nat {
    if x == 0 || y == 0 then 0
    else (if x % 2 == 1 && y % 2 == 1 then 1 else 0) + 2 * BitAnd(x / 2, y / 2)
  }

  function BitOr(x: nat, y: nat): nat {
    if x == 0 then y else if y == 0 then x
    else (if x % 2 == 1 || y % 2 == 1 then 1 else 0) + 2 * BitOr(x / 2, y / 2)
  }

  function BitNot(x: Word): Word {
    WORD - 1 - x
  }

  function ShiftLeft(x: Word, k: nat): Word {
    (x * Pow2(k)) % WORD
  }

  /** The conversion `uint32(x)`. */
  function ToWord(x: nat): Word {
    x % WORD
  }

  lemma {:induction false} BitAndLow(v: nat, k: nat)
    ensures BitAnd(v, Pow2(k) - 1) == v % Pow2(k)
    decreases k
  {
    if k > 0 {
      BitAndLow(v / 2, k - 1);
      BitAndMask(v, Pow2(k - 1));
      ModDouble(v, Pow2(k - 1));
      hide BitAnd;
      assert Pow2(k) == 2 * Pow2(k - 1);
    } else {
      assert BitAnd(v, 0) == 0;
    }
  }

  lemma BitAndMask(v: nat, p: nat)
    requires p > 0
    ensures BitAnd(v, 2 * p - 1) == v % 2 + 2 * BitAnd(v / 2, p - 1)
  {
    assert (2 * p - 1) / 2 == p - 1 && (2 * p - 1) % 2 == 1;
    if v == 0 {
      assert BitAnd(0, p - 1) == 0;
    }
  }

  lemma ModDouble(v: nat, p: nat)
    requires p > 0
    ensures v % (2 * p) == v % 2 + 2 * ((v / 2) % p)
  {
    var h := v / 2;
    var q, r := h / p, h % p;
    assert h == q * p + r;
    assert v == (2 * p) * q + (2 * r + v % 2);
    ModUnique(v, 2 * p, q, 2 * r + v % 2);
  }

  lemma NonzeroMultiple(m: nat, d: int)
    requires m > 0 && d != 0
    ensures m * d >= m || m * d + m <= 0
  {
    if d >= 1 {
      var e: nat := d - 1;
      assert m * d == m * e + m;
    } else {
      var e: nat := -d - 1;
      assert m * d + m == -(m * e);
    }
  }

  lemma ModUnique(v: nat, m: nat, q: nat, r: nat)
    requires m > 0 && v == m * q + r && r < m
    ensures v % m == r
  {
    var d: int := v / m - q;
    assert v == m * (v / m) + v % m;
    assert m * d == m * (v / m) - m * q;
    if d != 0 {
      NonzeroMultiple(m, d);
    }
  }

  lemma {:induction false} BitOrDisjoint(n: nat, h: nat, k: nat)
    requires n % Pow2(k) == 0 && h < Pow2(k)
    ensures BitOr(n, h) == n + h
    decreases k
  {
    if k > 0 && n > 0 && h > 0 {
      var p := Pow2(k - 1);
      ModDouble(n, p);
      BitOrDisjoint(n / 2, h / 2, k - 1);
    }
  }

  lemma {:induction false} Pow2Monotone(a: nat, b: nat)
    requires a <= b
    ensures Pow2(a) <= Pow2(b)
    decreases b
  {
    if a < b {
      Pow2Monotone(a, b - 1);
    }
  }

  lemma Pow2Word()
    ensures Pow2(32) == WORD && Pow2(31) == WORD / 2 && Pow2(2) == 4
  {
    assert Pow2(8) == 256;
    assert Pow2(16) == 65536;
    assert Pow2(24) == 16777216;
    assert Pow2(31) == 2147483648;
  }

  /** `^uint32(0) << (32 - prefix)`, and zero for the empty prefix. */
  function PrefixMask(prefix: nat): Word
    requires prefix <= 32
  {
    if prefix == 0 then 0 else ShiftLeft(BitNot(0), 32 - prefix)
  }

  lemma PrefixMaskMeaning(prefix: nat)
    requires prefix <= 32
    ensures PrefixMask(prefix) == WORD - Pow2(32 - prefix)
  {
    Pow2Word();
    if prefix > 0 {
      var p := Pow2(32 - prefix);
      Pow2Monotone(32 - prefix, 31);
      assert (WORD - 1) * p == WORD * (p - 1) + (WORD - p);
      ModUnique((WORD - 1) * p, WORD, p - 1, WORD - p);
    }
  }

  // ------------------------------------------------------------------
  // Layout
  // ------------------------------------------------------------------

  datatype Network = Network(address: Word, prefix: nat)

  /** A network value as the domain layer constructs it: no host bits set. */
  predicate Canonical(n: Network) {
    n.prefix <= 32 && n.address % Pow2(32 - n.prefix) == 0
  }

  datatype Range = Range(first: Word, last: Word, capacity: nat)

  const EMPTY_RANGE := Range(0, 0, 0)

  predicate Contains(r: Range, a: Word) {
    r.capacity != 0 && r.first <= a <= r.last
  }

  function NewRange(first: nat, last: nat, capacity: nat): Range {
    Range(ToWord(first), ToWord(last), capacity)
  }

  datatype Layout = Layout(network: Network, netmask: Word, server: Word, clients: Range, statics: Range,
    dynamics: Range)

  datatype IpamError = NetworkTooSmall | PoolTooLarge | InvalidStatic | Exhausted

  function ClientCapacity(n: Network): (r: Result<nat, IpamError>)
    requires n.prefix <= 32
    ensures r.Ok? ==> Pow2(32 - n.prefix) >= 4
  {
    if n.prefix > 30 then Err(NetworkTooSmall)
    else
      Pow2Monotone(2, 32 - n.prefix);
      Ok(Pow2(32 - n.prefix) - 3)
  }

  function NewIPv4Layout(n: Network, dynamicPoolSize: nat): Result<Layout, IpamError>
    requires n.prefix <= 32
  {
    match ClientCapacity(n)
    case Err(e) => Err(e)
    case Ok(capacity) =>
      if dynamicPoolSize > capacity then Err(PoolTooLarge)
      else
        Ok(Partition(n, Pow2(32 - n.prefix), PrefixMask(n.prefix), capacity, dynamicPoolSize))
  }

  /** Splits the client addresses of a network of `total` addresses into a static prefix and a dynamic tail. */
  function Partition(n: Network, total: nat, netmask: Word, capacity: nat, dynamicPoolSize: nat): Layout
    requires total >= 4 && dynamicPoolSize <= capacity == total - 3
  {
    var clientFirst := n.address + 2;
    var clientLast := n.address + total - 2;
    var staticCapacity := capacity - dynamicPoolSize;
    Layout(
      n, netmask, ToWord(n.address + 1),
      NewRange(clientFirst, clientLast, capacity),
      if staticCapacity > 0 then NewRange(clientFirst, clientFirst + staticCapacity - 1, staticCapacity)
        else EMPTY_RANGE,
      if dynamicPoolSize > 0 then NewRange(clientLast - dynamicPoolSize + 1, clientLast, dynamicPoolSize)
        else EMPTY_RANGE)
  }

  function Members(r: Range): set<Word> {
    set a: Word | Contains(r, a)
  }

  /** A region whose bounds span its capacity holds exactly that many addresses. */
  lemma {:induction false} MembersSize(r: Range)
    requires r.capacity > 0 ==> r.last == r.first + r.capacity - 1
    ensures |Members(r)| == r.capacity
    decreases r.capacity
  {
    if r.capacity == 0 {
      assert Members(r) == {};
    } else if r.capacity == 1 {
      assert Members(r) == {r.first};
    } else {
      var shorter := Range(r.first, r.last - 1, r.capacity - 1);
      MembersSize(shorter);
      assert Members(r) == Members(shorter) + {r.last};
    }
  }

  function Broadcast(n: Network): nat
    requires n.prefix <= 32
  {
    n.address + Pow2(32 - n.prefix) - 1
  }

  lemma AlignedFits(a: nat, p: nat, q: nat)
    requires p > 0 && a % p == 0 && a < p * q
    ensures a + p <= p * q
  {
    var m := a / p;
    assert a == p * m;
    assert p * (q - m) == p * q - p * m;
    if q - m != 0 {
      NonzeroMultiple(p, q - m);
    }
  }

  /** A canonical network ends inside the address space. */
  lemma CanonicalFits(n: Network)
    requires Canonical(n)
    ensures Broadcast(n) < WORD
  {
    Pow2Word();
    Pow2Product(32 - n.prefix, n.prefix);
    AlignedFits(n.address, Pow2(32 - n.prefix), Pow2(n.prefix));
  }

  lemma {:induction false} Pow2Product(a: nat, b: nat)
    ensures Pow2(a) * Pow2(b) == Pow2(a + b)
    decreases a
  {
    if a > 0 {
      Pow2Product(a - 1, b);
      assert Pow2(a) * Pow2(b) == 2 * (Pow2(a - 1) * Pow2(b));
    }
  }

  /**
   The layout exists exactly for /0 to /30 and a pool no larger than the capacity.
   Network, server and broadcast addresses are reserved; the static region and the
   dynamic tail have the stated sizes and together are everything in between, with
   no 32-bit wrap.
   */
  lemma LayoutPartition(n: Network, dynamicPoolSize: nat)
    requires Canonical(n)
    ensures NewIPv4Layout(n, dynamicPoolSize).Ok? <==> n.prefix <= 30 && dynamicPoolSize <= Pow2(32 - n.prefix) - 3
    ensures NewIPv4Layout(n, dynamicPoolSize).Ok? ==>
              var layout := NewIPv4Layout(n, dynamicPoolSize).value;
              && layout.server == n.address + 1
              && layout.netmask == WORD - Pow2(32 - n.prefix)
              && n.address < layout.server < Broadcast(n) < WORD
              && layout.statics.capacity + layout.dynamics.capacity == layout.clients.capacity
                == Pow2(32 - n.prefix) - 3
              && layout.dynamics.capacity == dynamicPoolSize
              && |Members(layout.statics)| == layout.statics.capacity
              && |Members(layout.dynamics)| == layout.dynamics.capacity
              && Members(layout.statics) !! Members(layout.dynamics)
              && Members(layout.statics) + Members(layout.dynamics) == Members(layout.clients)
              && (forall a: Word :: a in Members(layout.clients) <==> layout.server < a < Broadcast(n))
  {
    if n.prefix <= 30 && dynamicPoolSize <= Pow2(32 - n.prefix) - 3 {
      LayoutValues(n, dynamicPoolSize);
      var layout := NewIPv4Layout(n, dynamicPoolSize).value;
      MembersSize(layout.statics);
      MembersSize(layout.dynamics);
    }
  }

  /** The bounds of the regions, free of truncation. */
  lemma LayoutValues(n: Network, dynamicPoolSize: nat)
    requires Canonical(n) && n.prefix <= 30 && dynamicPoolSize <= Pow2(32 - n.prefix) - 3
    ensures Broadcast(n) < WORD && Pow2(32 - n.prefix) >= 4
    ensures var s := Pow2(32 - n.prefix) - 3 - dynamicPoolSize;
            NewIPv4Layout(n, dynamicPoolSize) == Ok(Layout(
              n, WORD - Pow2(32 - n.prefix), n.address + 1,
              Range(n.address + 2, Broadcast(n) - 1, s + dynamicPoolSize),
              if s > 0 then Range(n.address + 2, n.address + 1 + s, s) else EMPTY_RANGE,
              if dynamicPoolSize > 0 then Range(n.address + 2 + s, Broadcast(n) - 1, dynamicPoolSize) else EMPTY_RANGE))
  {
    CanonicalFits(n);
    Pow2Monotone(2, 32 - n.prefix);
    PrefixMaskMeaning(n.prefix);
    hide Pow2, PrefixMask, Partition;
    PartitionValues(n, Pow2(32 - n.prefix), WORD - Pow2(32 - n.prefix), dynamicPoolSize);
  }

  lemma PartitionValues(n: Network, total: nat, netmask: Word, dynamicPoolSize: nat)
    requires total >= 4 && n.address + total <= WORD && dynamicPoolSize <= total - 3
    ensures var s := total - 3 - dynamicPoolSize;
            Partition(n, total, netmask, total - 3, dynamicPoolSize) == Layout(
              n, netmask, n.address + 1,
              Range(n.address + 2, n.address + total - 2, total - 3),
              if s > 0 then Range(n.address + 2, n.address + 1 + s, s) else EMPTY_RANGE,
              if dynamicPoolSize > 0 then Range(n.address + 2 + s, n.address + total - 2, dynamicPoolSize)
                else EMPTY_RANGE)
  {
  }

  /** The layout a restart derives from the dynamic pool row is the layout that was stored. */
  function LoadNetworkLayout(n: Network, pool: Option<(Word, Word)>): Result<Layout, IpamError>
    requires n.prefix <= 32
  {
    match pool
    case None => NewIPv4Layout(n, 0)
    case Some((first, last)) =>
      if last < first then Err(PoolTooLarge) else NewIPv4Layout(n, last - first + 1)
  }

  function StoredPool(layout: Layout): Option<(Word, Word)> {
    if layout.dynamics.capacity == 0 then None else Some((layout.dynamics.first, layout.dynamics.last))
  }

  lemma LayoutRoundTrip(n: Network, dynamicPoolSize: nat)
    requires Canonical(n) && NewIPv4Layout(n, dynamicPoolSize).Ok?
    ensures LoadNetworkLayout(n, StoredPool(NewIPv4Layout(n, dynamicPoolSize).value))
            == NewIPv4Layout(n, dynamicPoolSize)
  {
    LayoutValues(n, dynamicPoolSize);
  }

  // ------------------------------------------------------------------
  // Allocation
  // ------------------------------------------------------------------

  predicate ValidStaticSet(r: Range, addresses: seq<Word>) {
    && (forall i :: 0 <= i < |addresses| ==> Contains(r, addresses[i]))
    && (forall i, j :: 0 <= i < j < |addresses| ==> addresses[i] != addresses[j])
  }

  function ElementsOf(addresses: seq<Word>): set<Word> {
    set i | 0 <= i < |addresses| :: addresses[i]
  }

  /** The lowest free address of a region, as a property of the set in use. */
  predicate IsLeastFree(r: Range, used: set<Word>, a: Word) {
    Contains(r, a) && a !in used && forall b: Word :: Contains(r, b) && b < a ==> b in used
  }

  predicate Full(r: Range, used: set<Word>) {
    forall a: Word :: Contains(r, a) ==> a in used
  }

  function LeastFreeFrom(from: nat, r: Range, used: set<Word>): Option<Word>
    decreases r.last + 1 - from
  {
    if from > r.last then None
    else if from !in used then Some(from)
    else LeastFreeFrom(from + 1, r, used)
  }

  function LeastFree(r: Range, used: set<Word>): Option<Word> {
    if r.capacity == 0 then None else LeastFreeFrom(r.first, r, used)
  }

  lemma {:induction false} LeastFreeFromMeaning(from: nat, r: Range, used: set<Word>)
    requires r.capacity != 0 && r.first <= from
    requires forall a: Word :: r.first <= a < from && a <= r.last ==> a in used
    ensures match LeastFreeFrom(from, r, used)
            case Some(a) => IsLeastFree(r, used, a)
            case None => Full(r, used)
    decreases r.last + 1 - from
  {
    if from <= r.last && from in used {
      LeastFreeFromMeaning(from + 1, r, used);
    }
  }

  /** Allocation returns the lowest free address, and fails exactly when the region is full. */
  lemma LeastFreeMeaning(r: Range, used: set<Word>)
    ensures LeastFree(r, used).Some? ==> IsLeastFree(r, used, LeastFree(r, used).value)
    ensures LeastFree(r, used).None? <==> Full(r, used)
  {
    if r.capacity != 0 {
      LeastFreeFromMeaning(r.first, r, used);
    }
  }

  /** A region with fewer used addresses than its capacity is not full. */
  lemma RoomLeft(r: Range, used: set<Word>)
    requires |Members(r)| == r.capacity && used <= Members(r)
    ensures Full(r, used) <==> |used| == r.capacity
    ensures |used| <= r.capacity
  {
    SubsetSize(used, Members(r));
    if |used| == r.capacity {
      SubsetEqual(used, Members(r));
      forall a: Word | Contains(r, a) ensures a in used {
        assert a in Members(r);
      }
    }
    if Full(r, used) {
      assert Members(r) <= used;
      assert Members(r) == used;
    }
  }

  lemma {:induction false} SubsetSize<T>(a: set<T>, b: set<T>)
    requires a <= b
    ensures |a| <= |b|
    decreases a
  {
    if a != {} {
      var x :| x in a;
      SubsetSize(a - {x}, b - {x});
    }
  }

  lemma SubsetEqual<T>(a: set<T>, b: set<T>)
    requires a <= b && |a| == |b|
    ensures a == b
  {
    if x :| x in b && x !in a {
      SubsetSize(a, b - {x});
    }
  }

  method CheckStaticSet(r: Range, addresses: seq<Word>) returns (ok: bool)
    ensures ok <==> ValidStaticSet(r, addresses)
  {
    var seen: set<Word> := {};
    var index := 0;
    while index < |addresses|
      invariant 0 <= index <= |addresses|
      invariant ValidStaticSet(r, addresses[..index])
      invariant forall a :: a in seen <==> exists i :: 0 <= i < index && addresses[i] == a
    {
      var address := addresses[index];
      if !Contains(r, address) || address in seen {
        return false;
      }
      seen := seen + {address};
      index := index + 1;
    }
    return true;
  }

  /** The lowest unused static address; the result depends only on the set in use. */
  method NextStatic(r: Range, addresses: seq<Word>) returns (result: Result<Word, IpamError>)
    ensures !ValidStaticSet(r, addresses) ==> result == Err(InvalidStatic)
    ensures ValidStaticSet(r, addresses) ==>
              result == (match LeastFree(r, ElementsOf(addresses))
                         case Some(a) => Ok(a)
                         case None => Err(Exhausted))
  {
    var ok := CheckStaticSet(r, addresses);
    if !ok {
      return Err(InvalidStatic);
    }
    if r.capacity == 0 {
      return Err(Exhausted);
    }
    var used: set<Word> := {};
    var index := 0;
    while index < |addresses|
      invariant 0 <= index <= |addresses|
      invariant used == ElementsOf(addresses[..index])
    {
      used := used + {addresses[index]};
      index := index + 1;
    }
    assert addresses[..index] == addresses;
    var candidate: nat := r.first;
    while candidate <= r.last
      invariant r.first <= candidate
      invariant LeastFreeFrom(candidate, r, used) == LeastFreeFrom(r.first, r, used)
      decreases r.last + 1 - candidate
    {
      if candidate !in used {
        return Ok(candidate);
      }
      candidate := candidate + 1;
    }
    return Err(Exhausted);
  }

  /** The addresses of a set, in some order. */
  method Listed(used: set<Word>) returns (addresses: seq<Word>)
    ensures ElementsOf(addresses) == used
    ensures forall i, j :: 0 <= i < j < |addresses| ==> addresses[i] != addresses[j]
  {
    addresses := [];
    var rest := used;
    while rest != {}
      invariant ElementsOf(addresses) == used - rest && rest <= used
      invariant forall i, j :: 0 <= i < j < |addresses| ==> addresses[i] != addresses[j]
      decreases rest
    {
      var a :| a in rest;
      forall i | 0 <= i < |addresses| ensures addresses[i] != a {
        assert addresses[i] in ElementsOf(addresses);
      }
      ElementsAppend(addresses, a);
      addresses, rest := addresses + [a], rest - {a};
    }
  }

  lemma ElementsAppend(addresses: seq<Word>, a: Word)
    ensures ElementsOf(addresses + [a]) == ElementsOf(addresses) + {a}
  {
    var longer := addresses + [a];
    forall x | x in ElementsOf(addresses) + {a} ensures x in ElementsOf(longer) {
      if x in ElementsOf(addresses) {
        var i :| 0 <= i < |addresses| && addresses[i] == x;
        assert longer[i] == x;
      } else {
        assert longer[|addresses|] == x;
      }
    }
  }
}
