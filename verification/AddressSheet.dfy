/**
 The sheet in which an operator edits the addresses of selected clients: one row per client,
 the name and the selection separated by a comma.
 */
module AddressSheet {
  import opened Results
  import Order

  type Id = nat

  const HEADER := "# client,ipv4"
  const MAX_SHEET := 1024 * 1024

  // ------------------------------------------------------------------
  // Names and selections
  // ------------------------------------------------------------------

  predicate Letter(c: char) {
    'A' <= c <= 'Z' || 'a' <= c <= 'z' || '0' <= c <= '9'
  }

  predicate ValidName(name: string) {
    && 0 < |name| <= 64 && Letter(name[0])
    && (forall i :: 0 <= i < |name| ==> Letter(name[i]) || name[i] in "._-")
  }

  predicate Separates(c: char) {
    c == ',' || c == ' ' || c == '\t' || c == '\r' || c == '\n'
  }

  /** Free of everything that a row or its fields end at. */
  predicate Plain(s: string) {
    forall i :: 0 <= i < |s| ==> !Separates(s[i])
  }

  /** A selected client: its name, and its static address if it has one. */
  datatype Target = Target(id: Id, name: string, address: Option<Address>)

  datatype Address = Address(a: Octet, b: Octet, c: Octet, d: Octet)

  type Octet = n: nat | n < 256

  function Decimal(n: nat): (s: string)
    ensures Plain(s) && s != []
  {
    if n < 10 then [('0' as int + n) as char] else Decimal(n / 10) + [('0' as int + n % 10) as char]
  }

  function Value(t: Target): (s: string)
    ensures Plain(s) && s != []
  {
    match t.address
    case None => "dynamic"
    case Some(ip) => Decimal(ip.a) + "." + Decimal(ip.b) + "." + Decimal(ip.c) + "." + Decimal(ip.d)
  }

  /** The number that decimal digits denote. */
  function Number(s: string): int
    requires s != []
  {
    var digit := s[|s| - 1] as int - '0' as int;
    if |s| == 1 then digit else 10 * Number(s[..|s| - 1]) + digit
  }

  predicate Digits(s: string) {
    && s != [] && (forall i :: 0 <= i < |s| ==> '0' <= s[i] <= '9')
    && (|s| > 1 ==> s[0] != '0')
  }

  /** A number is written without leading zeros, and read back as itself. */
  lemma {:induction false} DecimalReads(n: nat)
    ensures Digits(Decimal(n)) && Number(Decimal(n)) == n
    ensures n > 0 ==> Decimal(n)[0] != '0'
  {
    if n >= 10 {
      DecimalReads(n / 10);
      var s := Decimal(n);
      assert s[..|s| - 1] == Decimal(n / 10);
      assert s[|s| - 1] as int == '0' as int + n % 10;
    }
  }

  /** The four parts of a dotted text. */
  predicate Dotted(s: string, a: string, b: string, c: string, d: string) {
    s == a + "." + b + "." + c + "." + d && Digits(a) && Digits(b) && Digits(c) && Digits(d)
  }

  /** A static address is written in dotted decimal, first octet first. */
  lemma ValueMeaning(t: Target)
    ensures t.address.None? ==> Value(t) == "dynamic"
    ensures t.address.Some? ==> exists a, b, c, d ::
              && Dotted(Value(t), a, b, c, d)
              && var ip := t.address.value;
                 Number(a) == ip.a && Number(b) == ip.b && Number(c) == ip.c && Number(d) == ip.d
  {
    if t.address.Some? {
      var ip := t.address.value;
      DecimalReads(ip.a);
      DecimalReads(ip.b);
      DecimalReads(ip.c);
      DecimalReads(ip.d);
      assert Dotted(Value(t), Decimal(ip.a), Decimal(ip.b), Decimal(ip.c), Decimal(ip.d));
    }
  }

  function Row(name: string, value: string): string {
    name + "," + value
  }

  // ------------------------------------------------------------------
  // Writing
  // ------------------------------------------------------------------

  function Joined(lines: seq<string>): string {
    if lines == [] then [] else Joined(lines[..|lines| - 1]) + lines[|lines| - 1] + "\n"
  }

  function Rows(targets: seq<Target>): seq<string> {
    seq(|targets|, i requires 0 <= i < |targets| => Row(targets[i].name, Value(targets[i])))
  }

  function Sheet(targets: seq<Target>): string {
    Joined([HEADER] + Rows(targets))
  }

  lemma JoinedGrows(lines: seq<string>, line: string)
    ensures Joined(lines + [line]) == Joined(lines) + line + "\n"
  {
    assert (lines + [line])[..|lines|] == lines;
  }

  /** The sheet with the first rows only. */
  function Beginning(targets: seq<Target>, n: nat): string
    requires n <= |targets|
  {
    Joined([HEADER] + Rows(targets)[..n])
  }

  lemma BeginningGrows(targets: seq<Target>, n: nat)
    requires n < |targets|
    ensures Beginning(targets, n + 1) == Beginning(targets, n) + Row(targets[n].name, Value(targets[n])) + "\n"
  {
    hide Joined, Value, Row;
    var lines, row := [HEADER] + Rows(targets)[..n], Row(targets[n].name, Value(targets[n]));
    JoinedGrows(lines, row);
    assert lines + [row] == [HEADER] + Rows(targets)[..n + 1];
  }

  lemma BeginningAndEnd(targets: seq<Target>)
    ensures Beginning(targets, 0) == HEADER + "\n"
    ensures Beginning(targets, |targets|) == Sheet(targets)
  {
    JoinedGrows([], HEADER);
    assert [] + [HEADER] == [HEADER] == [HEADER] + Rows(targets)[..0];
    assert Joined([]) + HEADER + "\n" == HEADER + "\n";
    assert Rows(targets)[..|targets|] == Rows(targets);
  }

  method WriteSheet(targets: seq<Target>) returns (content: string)
    ensures content == Sheet(targets)
  {
    hide *;
    BeginningAndEnd(targets);
    content := HEADER + "\n";
    var index := 0;
    while index < |targets|
      invariant 0 <= index <= |targets| && content == Beginning(targets, index)
    {
      BeginningGrows(targets, index);
      content := content + Row(targets[index].name, Value(targets[index])) + "\n";
      index := index + 1;
    }
  }

  // ------------------------------------------------------------------
  // Parsing
  // ------------------------------------------------------------------

  function Find(s: string, c: char): (n: nat)
    ensures n <= |s| && (forall i :: 0 <= i < n ==> s[i] != c) && (n < |s| ==> s[n] == c)
  {
    if s == [] || s[0] == c then 0 else 1 + Find(s[1..], c)
  }

  function Split(s: string): (lines: seq<string>)
    ensures |lines| > 0
    decreases |s|
  {
    var n := Find(s, '\n');
    if n == |s| then [s] else [s[..n]] + Split(s[n + 1..])
  }

  function TrimNewline(s: string): string {
    if s != [] && s[|s| - 1] == '\n' then s[..|s| - 1] else s
  }

  function ByName(targets: seq<Target>): map<string, Id> {
    if targets == [] then map[]
    else
      var last := targets[|targets| - 1];
      ByName(targets[..|targets| - 1])[last.name := last.id]
  }

  /** One row: exactly one comma, no white space, a selected client, a value. */
  function ParseRow(line: string, byName: map<string, Id>): Option<(Id, string)> {
    var n := Find(line, ',');
    if (exists i :: 0 <= i < |line| && line[i] in " \t\r") || n == |line| || Find(line[n + 1..], ',') < |line| - n - 1
      then None
    else if line[..n] !in byName || line[n + 1..] == [] then None
    else Some((byName[line[..n]], line[n + 1..]))
  }

  function ParseRows(rows: seq<string>, byName: map<string, Id>): Option<map<Id, string>> {
    if rows == [] then Some(map[])
    else
      match ParseRows(rows[..|rows| - 1], byName)
      case None => None
      case Some(values) => Added(values, ParseRow(rows[|rows| - 1], byName))
  }

  /** The values with those of one more row; a client may have one row only. */
  function Added(values: map<Id, string>, row: Option<(Id, string)>): Option<map<Id, string>> {
    if row.None? || row.value.0 in values then None else Some(values[row.value.0 := row.value.1])
  }

  function Parse(content: string, targets: seq<Target>): Option<map<Id, string>> {
    if |content| > MAX_SHEET then None
    else
      var lines := Split(TrimNewline(content));
      if lines[0] != HEADER then None
      else
        match ParseRows(lines[1..], ByName(targets))
        case None => None
        case Some(values) => if |values| == |targets| then Some(values) else None
  }

  /** The loop over the rows, which stops at the first one it rejects. */
  method ParseAll(rows: seq<string>, byName: map<string, Id>) returns (r: Option<map<Id, string>>)
    ensures r == ParseRows(rows, byName)
  {
    hide ParseRow;
    var values, index := map[], 0;
    assert rows[..0] == [];
    while index < |rows|
      invariant 0 <= index <= |rows| && ParseRows(rows[..index], byName) == Some(values)
    {
      var row := ParseRow(rows[index], byName);
      assert rows[..index + 1][..index] == rows[..index];
      if row.None? || row.value.0 in values {
        RejectedStays(rows, index + 1, byName);
        return None;
      }
      values := values[row.value.0 := row.value.1];
      index := index + 1;
    }
    assert rows[..index] == rows;
    r := Some(values);
  }

  method ParseSheet(content: string, targets: seq<Target>) returns (r: Option<map<Id, string>>)
    ensures r == Parse(content, targets)
  {
    hide Split, ByName, TrimNewline, ParseRows;
    if |content| > MAX_SHEET {
      return None;
    }
    var lines := Split(TrimNewline(content));
    if lines[0] != HEADER {
      return None;
    }
    r := ParseAll(lines[1..], ByName(targets));
    if r.Some? && |r.value| != |targets| {
      r := None;
    }
  }

  lemma {:induction false} RejectedStays(rows: seq<string>, n: nat, byName: map<string, Id>)
    requires n <= |rows| && ParseRows(rows[..n], byName).None?
    ensures ParseRows(rows, byName).None?
    decreases |rows|
  {
    if n < |rows| {
      assert rows[..|rows| - 1][..n] == rows[..n];
      RejectedStays(rows[..|rows| - 1], n, byName);
    } else {
      assert rows[..n] == rows;
    }
  }

  // ------------------------------------------------------------------
  // What is accepted
  // ------------------------------------------------------------------

  /** Selected clients, told apart by name and by id. */
  ghost predicate Selected(targets: seq<Target>) {
    && (forall t :: t in targets ==> ValidName(t.name))
    && (forall i, j :: 0 <= i < j < |targets| ==> targets[i].name != targets[j].name && targets[i].id != targets[j].id)
  }

  lemma NamesArePlain(name: string)
    requires ValidName(name)
    ensures Plain(name)
  {
  }

  lemma {:induction false} ByNameFinds(targets: seq<Target>)
    requires Selected(targets)
    ensures forall i ::
            0 <= i < |targets| ==>
            targets[i].name in ByName(targets) && ByName(targets)[targets[i].name] == targets[i].id
    ensures forall name :: name in ByName(targets) ==> exists i :: 0 <= i < |targets| && targets[i].name == name
  {
    if targets != [] {
      var rest, last := targets[..|targets| - 1], targets[|targets| - 1];
      RestSelected(targets);
      hide Selected, Ids;
      ByNameFinds(rest);
      assert forall i :: 0 <= i < |rest| ==> rest[i] == targets[i];
      forall name | name in ByName(targets) ensures exists i :: 0 <= i < |targets| && targets[i].name == name {
        if name == last.name {
          assert targets[|targets| - 1].name == name;
        } else {
          assert name in ByName(rest);
          var i :| 0 <= i < |rest| && rest[i].name == name;
          assert targets[i].name == name;
        }
      }
    }
  }

  lemma FindSkips(s: string, c: char, rest: string)
    requires forall i :: 0 <= i < |s| ==> s[i] != c
    ensures Find(s + [c] + rest, c) == |s| && Find(s, c) == |s|
  {
    var all := s + [c] + rest;
    assert forall i :: 0 <= i < |s| ==> all[i] == s[i];
    assert all[|s|] == c;
  }

  /** A row of a selected client with a plain value is read as just that. */
  lemma RowIsRead(name: string, value: string, byName: map<string, Id>)
    requires Plain(name) && Plain(value) && value != [] && name in byName
    ensures ParseRow(Row(name, value), byName) == Some((byName[name], value))
  {
    var line := Row(name, value);
    assert forall i ::
           0 <= i < |line| ==>
           line[i] == if i < |name| then name[i] else if i == |name| then ',' else value[i - |name| - 1];
    FindSkips(name, ',', value);
    assert line == name + [','] + value;
    assert line[..|name|] == name && line[|name| + 1..] == value;
    FindSkips(value, ',', []);
  }

  /** A row that is read names a selected client and gives it a value, separated by the only comma. */
  lemma ReadIsRow(line: string, targets: seq<Target>) returns (i: nat)
    requires Selected(targets) && ParseRow(line, ByName(targets)).Some?
    ensures i < |targets| && targets[i].id == ParseRow(line, ByName(targets)).value.0
    ensures var value := ParseRow(line, ByName(targets)).value.1; line == Row(targets[i].name, value) && value != []
  {
    ByNameFinds(targets);
    var n := Find(line, ',');
    i :| 0 <= i < |targets| && targets[i].name == line[..n];
    assert line == line[..n] + "," + line[n + 1..];
  }

  /** The rows are those of the chosen clients with the values given to them, in that order. */
  ghost predicate RowsOf(rows: seq<string>, targets: seq<Target>, chosen: seq<nat>, values: map<Id, string>) {
    && |chosen| == |rows|
    && (forall j, k :: 0 <= j < k < |chosen| ==> chosen[j] != chosen[k])
    && (forall k :: 0 <= k < |chosen| ==> RowOf(rows[k], targets, chosen[k], values))
    && (forall id :: id in values ==> Chooses(targets, chosen, id))
  }

  /** The row of one selected client with the value given to it. */
  ghost predicate RowOf(row: string, targets: seq<Target>, i: nat, values: map<Id, string>) {
    i < |targets| && targets[i].id in values && row == Row(targets[i].name, values[targets[i].id])
  }

  ghost predicate Chooses(targets: seq<Target>, chosen: seq<nat>, id: Id) {
    exists k :: 0 <= k < |chosen| && chosen[k] < |targets| && targets[chosen[k]].id == id
  }

  /** Reading the last row on top of the rows before it. */
  lemma LastRow(rows: seq<string>, byName: map<string, Id>)
    requires rows != []
    ensures var before := ParseRows(rows[..|rows| - 1], byName); var row := ParseRow(rows[|rows| - 1], byName);
            && (ParseRows(rows, byName).Some? <==> before.Some? && row.Some? && row.value.0 !in before.value)
            && (ParseRows(rows, byName).Some? ==>
              ParseRows(rows, byName).value == before.value[row.value.0 := row.value.1])
  {
    hide ParseRow;
  }

  lemma NoRows(targets: seq<Target>)
    ensures ParseRows([], ByName(targets)) == Some(map[])
    ensures RowsOf([], targets, [], map[])
  {
  }

  lemma CountGrows(values: map<Id, string>, id: Id, value: string)
    requires id !in values
    ensures |values[id := value]| == |values| + 1
  {
    assert values[id := value].Keys == values.Keys + {id};
  }

  /** Accepted rows name different selected clients and give each its value. */
  lemma {:induction false} AcceptedRows(rows: seq<string>, targets: seq<Target>) returns (chosen: seq<nat>)
    requires Selected(targets) && ParseRows(rows, ByName(targets)).Some?
    ensures RowsOf(rows, targets, chosen, ParseRows(rows, ByName(targets)).value)
    ensures forall id ::
            id in ParseRows(rows, ByName(targets)).value ==> ParseRows(rows, ByName(targets)).value[id] != []
    ensures |ParseRows(rows, ByName(targets)).value| == |rows|
    decreases |rows|
  {
    NoRows(targets);
    hide *;
    chosen := [];
    if rows != [] {
      var rest, last := rows[..|rows| - 1], rows[|rows| - 1];
      LastRow(rows, ByName(targets));
      var values, row := ParseRows(rest, ByName(targets)).value, ParseRow(last, ByName(targets)).value;
      var before := AcceptedRows(rest, targets);
      var i := ReadIsRow(last, targets);
      chosen := before + [i];
      AppendedRow(rest, last, targets, before, i, values, row.1);
      CountGrows(values, row.0, row.1);
      assert rest + [last] == rows;
    }
  }

  lemma AppendedRow(rows: seq<string>, row: string, targets: seq<Target>, chosen: seq<nat>, i: nat,
      values: map<Id, string>, value: string)
    requires RowsOf(rows, targets, chosen, values) && i < |targets|
    requires targets[i].id !in values && row == Row(targets[i].name, value)
    ensures RowsOf(rows + [row], targets, chosen + [i], values[targets[i].id := value])
  {
    var after, all := values[targets[i].id := value], chosen + [i];
    forall id | id in after ensures Chooses(targets, all, id) {
      if id == targets[i].id {
        assert all[|chosen|] == i;
      } else {
        assert Chooses(targets, chosen, id);
        var k :| 0 <= k < |chosen| && chosen[k] < |targets| && targets[chosen[k]].id == id;
        assert all[k] == chosen[k];
      }
    }
  }

  function Ids(targets: seq<Target>): set<Id> {
    set i | 0 <= i < |targets| :: targets[i].id
  }

  lemma RestSelected(targets: seq<Target>)
    requires Selected(targets) && targets != []
    ensures var rest, last := targets[..|targets| - 1], targets[|targets| - 1];
            && Selected(rest) && Ids(targets) == Ids(rest) + {last.id} && last.id !in Ids(rest)
            && (forall i :: 0 <= i < |rest| ==> rest[i].id != last.id && rest[i].name != last.name)
  {
    var rest, last := targets[..|targets| - 1], targets[|targets| - 1];
    assert forall i :: 0 <= i < |rest| ==> rest[i] == targets[i];
    assert targets == rest + [last];
    assert forall id :: id in Ids(targets) <==> id in Ids(rest) + {last.id};
  }

  lemma {:induction false} IdsCount(targets: seq<Target>)
    requires Selected(targets)
    ensures |Ids(targets)| == |targets|
  {
    if targets != [] {
      RestSelected(targets);
      hide Selected, Ids;
      IdsCount(targets[..|targets| - 1]);
    }
  }

  lemma SubsetFills(a: set<Id>, b: set<Id>)
    requires a <= b && |a| == |b|
    ensures a == b
  {
    assert b == a + (b - a);
    assert |b - a| == 0;
  }

  /**
   An accepted sheet is the header and one row for every selected client, in any order: a total
   one-to-one map from the selected clients to the values of their rows.
   */
  lemma AcceptedIsTotal(content: string, targets: seq<Target>) returns (chosen: seq<nat>)
    requires Selected(targets) && Parse(content, targets).Some?
    ensures var values := Parse(content, targets).value;
            && values.Keys == Ids(targets) && |chosen| == |targets|
            && Split(TrimNewline(content))[0] == HEADER
            && RowsOf(Split(TrimNewline(content))[1..], targets, chosen, values)
            && (forall id :: id in values ==> values[id] != [])
  {
    hide ParseRows, Split, ByName;
    var values := Parse(content, targets).value;
    chosen := AcceptedRows(Split(TrimNewline(content))[1..], targets);
    IdsCount(targets);
    assert values.Keys <= Ids(targets);
    SubsetFills(values.Keys, Ids(targets));
  }

  lemma {:induction false} SplitRows(line: string, rest: string)
    requires '\n' !in line
    ensures Split(line + "\n" + rest) == [line] + Split(rest)
  {
    var all := line + "\n" + rest;
    FindSkips(line, '\n', rest);
    assert all == line + ['\n'] + rest;
    assert all[..|line|] == line && all[|line| + 1..] == rest;
  }

  lemma {:induction false} SplitJoined(lines: seq<string>, rest: string)
    requires Whole(lines)
    ensures Split(Joined(lines) + rest) == lines + Split(rest)
    decreases |lines|
  {
    hide Split;
    if lines == [] {
      assert Joined(lines) + rest == rest;
    } else {
      var shorter, last := lines[..|lines| - 1], lines[|lines| - 1];
      SplitJoined(shorter, last + "\n" + rest);
      assert Joined(lines) + rest == Joined(shorter) + (last + "\n" + rest);
      SplitRows(last, rest);
    }
  }

  ghost predicate Whole(lines: seq<string>) {
    forall i :: 0 <= i < |lines| ==> '\n' !in lines[i]
  }

  /** Whole lines, less the last line end, split into just these lines. */
  lemma LinesComeBack(lines: seq<string>)
    requires lines != [] && Whole(lines)
    ensures Split(TrimNewline(Joined(lines))) == lines
  {
    var shorter, last := lines[..|lines| - 1], lines[|lines| - 1];
    assert shorter + [last] == lines && Whole(shorter);
    SplitLast(shorter, last);
  }

  lemma SplitLast(lines: seq<string>, last: string)
    requires Whole(lines) && '\n' !in last
    ensures Split(TrimNewline(Joined(lines + [last]))) == lines + [last]
  {
    hide *;
    TrimsLast(lines, last);
    SplitJoined(lines, last);
    FindNothing(last);
  }

  lemma TrimsLast(lines: seq<string>, last: string)
    ensures TrimNewline(Joined(lines + [last])) == Joined(lines) + last
  {
    JoinedGrows(lines, last);
    hide Joined;
  }

  lemma FindNothing(line: string)
    requires '\n' !in line
    ensures Split(line) == [line]
  {
    FindSkips(line, '\n', []);
  }

  /** Rows of different selected clients with plain values are all accepted. */
  lemma {:induction false} RowsAccepted(rows: seq<string>, targets: seq<Target>, chosen: seq<nat>,
      values: map<Id, string>)
    requires Selected(targets) && RowsOf(rows, targets, chosen, values)
    requires forall id :: id in values ==> Plain(values[id]) && values[id] != []
    ensures ParseRows(rows, ByName(targets)) == Some(values)
    decreases |rows|
  {
    if rows == [] {
      assert values == map[];
      NoRows(targets);
    }
    hide *;
    if rows != [] {
      var i := LastIsRead(rows, targets, chosen, values);
      var id, rest := targets[i].id, rows[..|rows| - 1];
      FewerRows(rows, targets, chosen, values);
      RowsAccepted(rest, targets, chosen[..|chosen| - 1], values - {id});
      LastRow(rows, ByName(targets));
      PutBack(values, id);
    }
  }

  lemma PutBack(values: map<Id, string>, id: Id)
    requires id in values
    ensures (values - {id})[id := values[id]] == values && id !in values - {id}
  {
  }

  lemma LastIsRead(rows: seq<string>, targets: seq<Target>, chosen: seq<nat>, values: map<Id, string>) returns (i: nat)
    requires Selected(targets) && RowsOf(rows, targets, chosen, values) && rows != []
    requires forall id :: id in values ==> Plain(values[id]) && values[id] != []
    ensures |chosen| == |rows| && i == chosen[|chosen| - 1] && i < |targets| && targets[i].id in values
    ensures ParseRow(rows[|rows| - 1], ByName(targets)) == Some((targets[i].id, values[targets[i].id]))
  {
    hide ParseRow, ByName, Plain, Row;
    i := chosen[|chosen| - 1];
    ByNameFinds(targets);
    assert targets[i] in targets;
    NamesArePlain(targets[i].name);
    RowIsRead(targets[i].name, values[targets[i].id], ByName(targets));
  }

  lemma DistinctIds(targets: seq<Target>, i: nat, j: nat)
    requires Selected(targets) && i < |targets| && j < |targets| && i != j
    ensures targets[i].id != targets[j].id
  {
  }

  lemma FewerRows(rows: seq<string>, targets: seq<Target>, chosen: seq<nat>, values: map<Id, string>)
    requires Selected(targets) && RowsOf(rows, targets, chosen, values) && rows != []
    ensures RowsOf(rows[..|rows| - 1], targets, chosen[..|chosen| - 1], values - {targets[chosen[|chosen| - 1]].id})
  {
    var fewer, id := chosen[..|chosen| - 1], targets[chosen[|chosen| - 1]].id;
    forall k | 0 <= k < |fewer| ensures targets[fewer[k]].id != id {
      assert chosen[k] != chosen[|chosen| - 1];
      DistinctIds(targets, chosen[k], chosen[|chosen| - 1]);
    }
    hide Selected, Row;
    forall other | other in values - {id} ensures Chooses(targets, fewer, other) {
      assert Chooses(targets, chosen, other);
      var k :| 0 <= k < |chosen| && chosen[k] < |targets| && targets[chosen[k]].id == other;
      assert fewer[k] == chosen[k];
    }
    hide Chooses;
  }

  /** Whatever order the rows are in and whatever plain values they give, the sheet is accepted and read as meant. */
  lemma EditedIsAccepted(rows: seq<string>, targets: seq<Target>, chosen: seq<nat>, values: map<Id, string>)
    requires Selected(targets) && RowsOf(rows, targets, chosen, values) && |rows| == |targets|
    requires forall id :: id in values ==> Plain(values[id]) && values[id] != []
    ensures Parse(Joined([HEADER] + rows), targets) == if |Joined([HEADER] + rows)| <= MAX_SHEET then Some(values)
            else None
  {
    hide Split, Joined, ParseRow;
    RowsAccepted(rows, targets, chosen, values);
    RowsHaveNoNewline(rows, targets, chosen, values);
    LinesComeBack([HEADER] + rows);
    assert ([HEADER] + rows)[1..] == rows;
    var _ := AcceptedRows(rows, targets);
  }

  lemma RowsHaveNoNewline(rows: seq<string>, targets: seq<Target>, chosen: seq<nat>, values: map<Id, string>)
    requires Selected(targets) && RowsOf(rows, targets, chosen, values)
    requires forall id :: id in values ==> Plain(values[id])
    ensures Whole([HEADER] + rows)
  {
    forall i | 0 <= i < |rows| ensures '\n' !in rows[i] {
      var t := targets[chosen[i]];
      NamesArePlain(t.name);
      assert rows[i] == t.name + "," + values[t.id];
      assert '\n' !in t.name && '\n' !in values[t.id];
    }
  }

  /** The current selection of every target. */
  function Selections(targets: seq<Target>): map<Id, string> {
    if targets == [] then map[]
    else
      var last := targets[|targets| - 1];
      Selections(targets[..|targets| - 1])[last.id := Value(last)]
  }

  lemma {:induction false} SelectionsOf(targets: seq<Target>)
    requires Selected(targets)
    ensures Selections(targets).Keys == Ids(targets)
    ensures forall i ::
            0 <= i < |targets| ==>
            targets[i].id in Selections(targets) && Selections(targets)[targets[i].id] == Value(targets[i])
  {
    hide Value, Selected;
    if targets != [] {
      var rest, last := targets[..|targets| - 1], targets[|targets| - 1];
      RestSelected(targets);
      SelectionsOf(rest);
      assert forall i :: 0 <= i < |rest| ==> rest[i] == targets[i];
    }
  }

  lemma SheetIs(targets: seq<Target>)
    ensures Sheet(targets) == Joined([HEADER] + Rows(targets)) && |Rows(targets)| == |targets|
  {
  }

  lemma UneditedRows(targets: seq<Target>) returns (chosen: seq<nat>)
    requires Selected(targets)
    ensures RowsOf(Rows(targets), targets, chosen, Selections(targets))
    ensures forall id :: id in Selections(targets) ==> Plain(Selections(targets)[id]) && Selections(targets)[id] != []
  {
    chosen := seq(|targets|, i => i);
    forall id | id in Selections(targets)
      ensures Chooses(targets, chosen, id) && Plain(Selections(targets)[id]) && Selections(targets)[id] != []
    {
      UneditedRow(targets, chosen, id);
    }
    InOrder(targets, chosen, Selections(targets));
  }

  /** All targets in their own order. */
  lemma InOrder(targets: seq<Target>, chosen: seq<nat>, values: map<Id, string>)
    requires Selected(targets) && values == Selections(targets)
    requires |chosen| == |targets| && forall k :: 0 <= k < |chosen| ==> chosen[k] == k
    requires forall id :: id in values ==> Chooses(targets, chosen, id)
    ensures RowsOf(Rows(targets), targets, chosen, values)
  {
    forall k | 0 <= k < |targets| ensures RowOf(Rows(targets)[k], targets, k, values) {
      OneInOrder(targets, k);
    }
    assert |Rows(targets)| == |targets|;
    hide RowOf, Rows, Selections, Selected, Chooses;
  }

  lemma OneInOrder(targets: seq<Target>, k: nat)
    requires Selected(targets) && k < |targets|
    ensures RowOf(Rows(targets)[k], targets, k, Selections(targets))
  {
    SelectionsOf(targets);
  }

  lemma UneditedRow(targets: seq<Target>, chosen: seq<nat>, id: Id)
    requires Selected(targets) && id in Selections(targets)
    requires |chosen| == |targets| && forall k :: 0 <= k < |chosen| ==> chosen[k] == k
    ensures Chooses(targets, chosen, id) && Plain(Selections(targets)[id]) && Selections(targets)[id] != []
  {
    SelectionsOf(targets);
    hide Value, Plain, Selections, Selected;
    assert id in Ids(targets);
    var k :| 0 <= k < |targets| && targets[k].id == id;
    assert chosen[k] == k;
  }

  /** An unedited sheet is read back as the current selections, unless it is too large to be read at all. */
  lemma SheetRoundTrip(targets: seq<Target>)
    requires Selected(targets)
    ensures Parse(Sheet(targets), targets) == if |Sheet(targets)| <= MAX_SHEET then Some(Selections(targets)) else None
    ensures |Sheet(targets)| <= MAX_SHEET ==> forall i :: 0 <= i < |targets| ==>
              && targets[i].id in Parse(Sheet(targets), targets).value
              && Parse(Sheet(targets), targets).value[targets[i].id] == Value(targets[i])
  {
    var chosen := UneditedRows(targets);
    SelectionsOf(targets);
    hide *;
    EditedIsAccepted(Rows(targets), targets, chosen, Selections(targets));
    SheetIs(targets);
  }

  // ------------------------------------------------------------------
  // How many clients fit into a sheet
  // ------------------------------------------------------------------

  lemma ValueLength(t: Target)
    ensures 7 <= |Value(t)| <= 15
  {
    if t.address.Some? {
      OctetLength(t.address.value.a);
      OctetLength(t.address.value.b);
      OctetLength(t.address.value.c);
      OctetLength(t.address.value.d);
    }
  }

  lemma OctetLength(n: Octet)
    ensures 1 <= |Decimal(n)| <= 3
  {
    if n >= 10 {
      assert |Decimal(n)| == |Decimal(n / 10)| + 1;
      if n >= 100 {
        assert |Decimal(n / 10)| == |Decimal(n / 10 / 10)| + 1;
      }
    }
  }

  lemma HeaderLength(targets: seq<Target>)
    ensures |Beginning(targets, 0)| == 14
  {
    BeginningAndEnd(targets);
  }

  lemma {:induction false} BeginningSize(targets: seq<Target>, n: nat, least: nat, most: nat)
    requires n <= |targets| && forall t :: t in targets ==> least <= |t.name| + 9 && |t.name| + 17 <= most
    ensures 14 + n * least <= |Beginning(targets, n)| <= 14 + n * most
    decreases n
  {
    hide *;
    HeaderLength(targets);
    if n > 0 {
      BeginningSize(targets, n - 1, least, most);
      BeginningGrows(targets, n - 1);
      assert targets[n - 1] in targets;
      ValueLength(targets[n - 1]);
      RowLength(targets[n - 1]);
      Order.OneMore(n - 1, least);
      Order.OneMore(n - 1, most);
    }
  }

  lemma RowLength(t: Target)
    ensures |Row(t.name, Value(t))| == |t.name| + 1 + |Value(t)|
  {
  }

  /** Every sheet of up to 12945 clients is read back, and none of more than 104856. */
  lemma ClientsThatFit(targets: seq<Target>)
    requires Selected(targets)
    ensures |targets| <= 12945 ==> Parse(Sheet(targets), targets) == Some(Selections(targets))
    ensures |targets| > 104856 ==> Parse(Sheet(targets), targets) == None
  {
    assert forall t :: t in targets ==> 1 <= |t.name| <= 64;
    SheetRoundTrip(targets);
    hide *;
    BeginningSize(targets, |targets|, 10, 81);
    BeginningAndEnd(targets);
  }

  function LongName(n: nat): (name: string)
    ensures |name| == 64 && ValidName(name)
  {
    Order.Numbered(n, 64)
  }

  lemma LongNamesApart(a: nat, b: nat)
    requires a < 14400 && b < 14400 && a != b
    ensures LongName(a) != LongName(b)
  {
    assert Order.Room(14) == 16384;
    Order.RoomGrows(14, 64);
    Order.NumberedApart(a, b, 64);
  }

  /** In between it depends on the names: with the longest ones a sheet of 14400 is written and never accepted. */
  lemma OversizedSheet() returns (targets: seq<Target>)
    ensures Selected(targets) && |targets| == 14400
    ensures Parse(Sheet(targets), targets) == None
  {
    hide Parse, Sheet, Beginning, Selections, LongName, ValidName;
    targets := seq(14400, i requires 0 <= i => Target(i, LongName(i), None));
    forall i, j | 0 <= i < j < |targets| ensures targets[i].name != targets[j].name {
      LongNamesApart(i, j);
    }
    SheetRoundTrip(targets);
    BeginningSize(targets, |targets|, 73, 81);
    BeginningAndEnd(targets);
  }
}
