/** Name order and the sort by name and identifier that plans and batches are presented in. */
module Order {

  datatype SortKey = SortKey(name: string, id: string)

  /** Byte order of strings. */
  predicate Less(a: string, b: string) {
    if b == "" then false
    else if a == "" then true
    else a[0] < b[0] || (a[0] == b[0] && Less(a[1..], b[1..]))
  }

  /** The first `n` characters agree, and there `a` ends or has the lower character. */
  predicate DiffersBelow(a: string, b: string, n: nat) {
    && n <= |a| && n < |b| && a[..n] == b[..n]
    && (n < |a| ==> a[n] < b[n])
  }

  lemma {:induction false} LessMeaning(a: string, b: string)
    ensures Less(a, b) <==> exists n: nat :: DiffersBelow(a, b, n)
  {
    if a != "" && b != "" && a[0] == b[0] {
      LessMeaning(a[1..], b[1..]);
      if Less(a[1..], b[1..]) {
        var n: nat :| DiffersBelow(a[1..], b[1..], n);
        assert a[..n + 1] == [a[0]] + a[1..][..n] && b[..n + 1] == [b[0]] + b[1..][..n];
        assert DiffersBelow(a, b, n + 1);
      }
      if n: nat :| DiffersBelow(a, b, n) {
        assert n > 0;
        assert a[1..][..n - 1] == a[..n][1..] && b[1..][..n - 1] == b[..n][1..];
        assert DiffersBelow(a[1..], b[1..], n - 1);
      }
    } else {
      assert DiffersBelow(a, b, 0) <==> Less(a, b);
      assert forall n: nat :: n > 0 && n <= |a| && n <= |b| ==> a[..n][0] == a[0] && b[..n][0] == b[0];
    }
  }

  predicate Before(a: SortKey, b: SortKey) {
    if a.name != b.name then Less(a.name, b.name) else Less(a.id, b.id)
  }

  lemma {:induction false} LessTotal(a: string, b: string)
    ensures Less(a, b) || a == b || Less(b, a)
    ensures !(Less(a, b) && Less(b, a)) && !Less(a, a)
  {
    if a != "" && b != "" && a[0] == b[0] {
      LessTotal(a[1..], b[1..]);
      assert a == [a[0]] + a[1..] && b == [b[0]] + b[1..];
    }
    if a != "" {
      LessTotal(a[1..], a[1..]);
    }
  }

  lemma {:induction false} LessTransitive(a: string, b: string, c: string)
    requires Less(a, b) && Less(b, c)
    ensures Less(a, c)
  {
    if a != "" && a[0] == b[0] == c[0] {
      LessTransitive(a[1..], b[1..], c[1..]);
    }
  }

  lemma BeforeIsOrder(a: SortKey, b: SortKey, c: SortKey)
    ensures Before(a, b) || a == b || Before(b, a)
    ensures !(Before(a, b) && Before(b, a)) && !Before(a, a)
    ensures Before(a, b) && Before(b, c) ==> Before(a, c)
  {
    LessTotal(a.name, b.name);
    LessTotal(a.id, b.id);
    LessTotal(a.id, a.id);
    LessTotal(b.name, c.name);
    LessTotal(a.name, c.name);
    if Before(a, b) && Before(b, c) {
      if a.name != b.name && b.name != c.name {
        LessTransitive(a.name, b.name, c.name);
      } else if a.name == b.name == c.name {
        LessTransitive(a.id, b.id, c.id);
      }
    }
  }

  // ------------------------------------------------------------------
  // As many different names as are needed
  // ------------------------------------------------------------------

  /** The number in binary, of a fixed width, as a name. */
  function Numbered(n: nat, width: nat): (name: string)
    ensures |name| == width && forall i :: 0 <= i < width ==> name[i] == 'a' || name[i] == 'b'
  {
    if width == 0 then "" else Numbered(n / 2, width - 1) + [if n % 2 == 0 then 'a' else 'b']
  }

  function Room(width: nat): nat {
    if width == 0 then 1 else 2 * Room(width - 1)
  }

  lemma OneMore(n: nat, size: nat)
    ensures (n + 1) * size == n * size + size
  {
  }

  lemma {:induction false} RoomGrows(width: nat, wider: nat)
    requires width <= wider
    ensures Room(width) <= Room(wider)
    decreases wider
  {
    if width < wider {
      RoomGrows(width, wider - 1);
    }
  }

  lemma {:induction false} NumberedApart(a: nat, b: nat, width: nat)
    requires a < Room(width) && b < Room(width) && a != b
    ensures Numbered(a, width) != Numbered(b, width)
    decreases width
  {
    var x, y := Numbered(a, width), Numbered(b, width);
    assert x[..width - 1] == Numbered(a / 2, width - 1) && y[..width - 1] == Numbered(b / 2, width - 1);
    if a / 2 != b / 2 {
      NumberedApart(a / 2, b / 2, width - 1);
    } else {
      assert a % 2 != b % 2;
      assert x[width - 1] != y[width - 1];
    }
  }

  /** No element comes strictly before an earlier one. */
  ghost predicate Sorted<T>(xs: seq<T>, key: T -> SortKey) {
    forall i, j :: 0 <= i < j < |xs| ==> !Before(key(xs[j]), key(xs[i]))
  }

  method InsertSorted<T>(x: T, xs: seq<T>, key: T -> SortKey) returns (ys: seq<T>)
    requires Sorted(xs, key)
    ensures Sorted(ys, key) && multiset(ys) == multiset(xs) + multiset{x}
  {
    var index := |xs|;
    while index > 0 && Before(key(x), key(xs[index - 1]))
      invariant 0 <= index <= |xs|
      invariant forall i :: index <= i < |xs| ==> Before(key(x), key(xs[i]))
    {
      index := index - 1;
    }
    ys := xs[..index] + [x] + xs[index..];
    assert xs == xs[..index] + xs[index..];
    hide Before;
    forall i | 0 <= i < index ensures !Before(key(x), key(xs[i])) {
      if i < index - 1 {
        BeforeIsOrder(key(x), key(xs[i]), key(xs[index - 1]));
        BeforeIsOrder(key(xs[i]), key(xs[index - 1]), key(x));
        assert !Before(key(xs[index - 1]), key(xs[i]));
      }
    }
    forall i | index <= i < |xs| ensures !Before(key(xs[i]), key(x)) {
      BeforeIsOrder(key(x), key(xs[i]), key(x));
    }
  }

  method Sort<T>(xs: seq<T>, key: T -> SortKey) returns (ys: seq<T>)
    ensures Sorted(ys, key) && multiset(ys) == multiset(xs)
  {
    ys := [];
    var index := 0;
    while index < |xs|
      invariant 0 <= index <= |xs|
      invariant Sorted(ys, key) && multiset(ys) == multiset(xs[..index])
    {
      ys := InsertSorted(xs[index], ys, key);
      assert xs[..index + 1] == xs[..index] + [xs[index]];
      index := index + 1;
    }
    assert xs[..index] == xs;
  }
}
