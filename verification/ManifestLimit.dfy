/**
 Which operations can be reopened. A manifest is saved at any size but read back only up to a
 limit, and it grows while an operation gathers evidence about the originals it replaces.
 */
module ManifestLimit {
  import opened Results
  import opened ArtifactJournal
  import Order

  /** The most an entry for this change can take, comma included: original known, nothing installed yet. */
  function EntryBound(key: Key, change: Option<File>): (n: nat)
    ensures n > 0
  {
    KeyLength(key) + (if change.Some? then 175 else 110) + 104
  }

  ghost function PlanWeight(plan: Plan): nat
    decreases |plan|
  {
    if plan == map[] then 0
    else
      var k :| k in plan;
      PlanWeight(plan - {k}) + EntryBound(k, plan[k])
  }

  /** The most the manifest of an operation with this plan can take, at any time of its life. */
  ghost function PlanBound(plan: Plan): nat {
    HeaderSize(FilesInstalled) + PlanWeight(plan)
  }

  lemma {:induction false} WeightWithout(plan: Plan, k: Key)
    requires k in plan
    ensures PlanWeight(plan) == PlanWeight(plan - {k}) + EntryBound(k, plan[k])
    decreases |plan|
  {
    var first :| first in plan && PlanWeight(plan) == PlanWeight(plan - {first}) + EntryBound(first, plan[first]);
    if first != k {
      WeightWithout(plan - {first}, k);
      WeightWithout(plan - {k}, first);
      assert plan - {first} - {k} == plan - {k} - {first};
    }
  }

  /** Fewer keys, or the same with deletions for writes, take no more. */
  lemma {:induction false} WeightGrows(plan: Plan, larger: Plan)
    requires plan.Keys <= larger.Keys && forall k :: k in plan && plan[k].Some? ==> larger[k].Some?
    ensures PlanWeight(plan) <= PlanWeight(larger)
    decreases |plan|
  {
    if plan != map[] {
      var k :| k in plan;
      WeightWithout(plan, k);
      WeightWithout(larger, k);
      WeightGrows(plan - {k}, larger - {k});
    }
  }

  lemma {:induction false} EntriesBounded(entries: seq<Entry>, plan: Plan)
    requires Distinct(entries)
    requires forall e :: e in entries ==> e.key in plan && e.write == plan[e.key].Some?
    ensures EntriesSize(entries) <= PlanWeight(plan)
    decreases |entries|
  {
    if entries != [] {
      var rest, last := entries[..|entries| - 1], entries[|entries| - 1];
      assert last in entries;
      WeightWithout(plan, last.key);
      forall e | e in rest ensures e.key in plan - {last.key} {
        var i :| 0 <= i < |rest| && rest[i] == e;
        assert entries[i].key != entries[|entries| - 1].key;
      }
      EntriesBounded(rest, plan - {last.key});
    }
  }

  /** However far an operation has come, and whatever evidence it has, its manifest is within the bound of its plan. */
  lemma JournaledWithinBound(m: Manifest, plan: Plan, base: map<Key, File>, t: map<Key, File>, d: Directory)
    requires Journaled(m.entries, plan, base, t, d)
    ensures ManifestSize(m) <= PlanBound(plan)
  {
    forall e | e in m.entries ensures e.key in plan && e.write == plan[e.key].Some? {
      var i :| 0 <= i < |m.entries| && m.entries[i] == e;
      EntryOk(m.entries, plan, base, t, d, i);
    }
    EntriesBounded(m.entries, plan);
  }

  lemma {:induction false} EntriesAtLeast(entries: seq<Entry>, size: nat)
    requires forall e :: e in entries ==> EntrySize(e) >= size
    ensures EntriesSize(entries) >= |entries| * size
    decreases |entries|
  {
    if entries != [] {
      var rest, last := entries[..|entries| - 1], entries[|entries| - 1];
      assert last in entries;
      EntriesAtLeast(rest, size);
      Order.OneMore(|rest|, size);
    }
  }

  /** An operation of this many entries cannot be reopened, whatever they are. */
  lemma TooManyEntries(m: Manifest)
    requires forall e :: e in m.entries ==> e.key != ""
    requires |m.entries| >= 9620
    ensures !WithinLimit(m)
  {
    forall e | e in m.entries ensures EntrySize(e) >= 109 {
      assert KeyLength(e.key) >= 1;
    }
    EntriesAtLeast(m.entries, 109);
  }

  /** Nor can one that has replaced this many existing files. */
  lemma TooManyReplaced(m: Manifest)
    requires forall e :: e in m.entries ==> e.key != "" && e.write && e.hadOriginal
    requires |m.entries| >= 3772
    ensures !WithinLimit(m)
  {
    forall e | e in m.entries ensures EntrySize(e) >= 278 {
      assert KeyLength(e.key) >= 1;
    }
    EntriesAtLeast(m.entries, 278);
  }

  function Deletions(count: nat): (entries: seq<Entry>)
    ensures |entries| == count && forall i :: 0 <= i < count ==> entries[i] == Deleting(Order.Numbered(i, 14))
  {
    seq(count, i requires 0 <= i => Deleting(Order.Numbered(i, 14)))
  }

  lemma DeletionsApart(count: nat)
    requires count <= 16384
    ensures Distinct(Deletions(count))
  {
    assert Order.Room(14) == 16384;
    forall i, j | 0 <= i < j < count ensures Deletions(count)[i].key != Deletions(count)[j].key {
      Order.NumberedApart(i, j, 14);
    }
  }

  /** Such operations exist: one that deletes 9620 absent files, interrupted at any time, can never be recovered. */
  lemma OversizedOperation() returns (m: Manifest, plan: Plan, d: Directory)
    ensures Journaled(m.entries, plan, map[], map[], d) && d.manifest == m && m.state == Prepared
    ensures !Readable(m)
  {
    hide SlotOk, ReadableEntry, WithinLimit, Distinct, Deletions, Order.Numbered;
    m := Manifest(Prepared, Deletions(9620));
    plan := map k | k in KeysOf(m.entries) :: None;
    d := Directory(m, map[], map[]);
    forall i | 0 <= i < 9620 ensures SlotOk(m.entries[i], None, None, Slot(None, None, None)) {
      DeletingOk(Order.Numbered(i, 14));
    }
    DeletionsApart(9620);
    TooManyEntries(m);
  }

  function Deleting(key: Key): Entry {
    Entry(false, key, 0, None, false, 0, None, false, false)
  }

  lemma DeletingOk(key: Key)
    requires |key| == 14 && forall i :: 0 <= i < 14 ==> key[i] == 'a' || key[i] == 'b'
    ensures SlotOk(Deleting(key), None, None, Slot(None, None, None))
  {
    assert key[0] != '.';
  }
}
