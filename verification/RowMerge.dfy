/**
 * Matched fields become normalised rows: one row per message, entity and
 * sequence path, later captures overwriting earlier ones.
 */
module RowMerge {
  import opened Bytes
  import opened PathCodec
  import Sequences
  import Naming

  datatype Row = Row(table: string, values: map<string, string>)

  /**
   * A field matched by a schema rule: the position of the field, the rule's
   * entity, column and payload suffix, the captured text and its normal form.
   */
  datatype Match = Match(field: nat, entity: string, column: string, suffix: string, capture: string, value: string)

  const MESSAGE_ID := "message_id"
  const SEQUENCE_PATH := "sequence_path"

  function RenderColumn(m: Match): string {
    m.column + ("__render_" + m.suffix)
  }

  function NormalizedRow(id: string, path: string, m: Match): Row {
    Row(m.entity, map[MESSAGE_ID := id][SEQUENCE_PATH := path][RenderColumn(m) := m.capture][m.column := m.value])
  }

  function Get(values: map<string, string>, key: string): Option<string> {
    if key in values then Some(values[key]) else None
  }

  predicate SameKey(a: Row, b: Row) {
    && a.table == b.table
    && Get(a.values, MESSAGE_ID) == Get(b.values, MESSAGE_ID)
    && Get(a.values, SEQUENCE_PATH) == Get(b.values, SEQUENCE_PATH)
  }

  function FindRow(rows: seq<Row>, row: Row): (i: nat)
    ensures i <= |rows|
    ensures i < |rows| ==> SameKey(rows[i], row)
    ensures forall k :: 0 <= k < i ==> !SameKey(rows[k], row)
  {
    if rows == [] || SameKey(rows[0], row) then 0 else 1 + FindRow(rows[1..], row)
  }

  function Merge(rows: seq<Row>, row: Row): seq<Row> {
    var i := FindRow(rows, row);
    if i < |rows| then rows[i := rows[i].(values := rows[i].values + row.values)] else rows + [row]
  }

  /** The rows of one message; `path(i)` is the stored path of field `i`. */
  function Rows(id: string, path: nat -> string, ms: seq<Match>): seq<Row> {
    if ms == [] then []
    else
      var m := ms[|ms| - 1];
      Merge(Rows(id, path, ms[..|ms| - 1]), NormalizedRow(id, path(m.field), m))
  }

  method MergeNormalizedRow(rows: seq<Row>, row: Row) returns (rows': seq<Row>)
    ensures rows' == Merge(rows, row)
  {
    var i := 0;
    while i < |rows| && !SameKey(rows[i], row)
      invariant i <= |rows| && forall k :: 0 <= k < i ==> !SameKey(rows[k], row)
    {
      i := i + 1;
    }
    assert i == FindRow(rows, row);
    if i < |rows| {
      rows' := rows[i := rows[i].(values := rows[i].values + row.values)];
    } else {
      rows' := rows + [row];
    }
  }

  method MaterializeRows(id: string, path: nat -> string, ms: seq<Match>) returns (rows: seq<Row>)
    ensures rows == Rows(id, path, ms)
  {
    rows := [];
    for i := 0 to |ms|
      invariant rows == Rows(id, path, ms[..i])
    {
      assert ms[..i + 1][..i] == ms[..i];
      rows := MergeNormalizedRow(rows, NormalizedRow(id, path(ms[i].field), ms[i]));
    }
    assert ms[..|ms|] == ms;
  }

  // ---- The map of maps ----

  datatype Key = Key(entity: string, id: string, path: string)

  /** The message, entity and path a match belongs to. */
  function OwnKey(id: string, path: nat -> string, m: Match): Key {
    Key(m.entity, id, path(m.field))
  }

  /** The key its row is stored under: a rule may write over either column that carries it. */
  function KeyOf(id: string, path: nat -> string, m: Match): Key {
    Key(m.entity,
        if m.column == MESSAGE_ID then m.value else id,
        if m.column == SEQUENCE_PATH then m.value else path(m.field))
  }

  /** Whatever the match writes over a key column is what was there. */
  predicate KeepsKey(id: string, path: nat -> string, m: Match) {
    && (m.column == MESSAGE_ID ==> m.value == id)
    && (m.column == SEQUENCE_PATH ==> m.value == path(m.field))
  }

  /** All captures of the message, by stored key, later ones winning. */
  function Table(id: string, path: nat -> string, ms: seq<Match>): map<Key, map<string, string>> {
    if ms == [] then map[]
    else
      var m := ms[|ms| - 1];
      var before := Table(id, path, ms[..|ms| - 1]);
      var k := KeyOf(id, path, m);
      before[k := (if k in before then before[k] else map[]) + NormalizedRow(id, path(m.field), m).values]
  }

  /** The columns that carry the row key are not written by rules. */
  predicate Unreserved(ms: seq<Match>) {
    forall i :: 0 <= i < |ms| ==> ms[i].column != MESSAGE_ID && ms[i].column != SEQUENCE_PATH
  }

  /** A payload column is never one of the key columns. */
  lemma RenderColumnIsFree(m: Match)
    ensures RenderColumn(m) != MESSAGE_ID && RenderColumn(m) != SEQUENCE_PATH
  {
    var s, n := RenderColumn(m), |m.column|;
    assert s[n] == '_' && s[n + 1] == '_' && n + 1 < |s|;
    assert forall k :: 0 <= k < |MESSAGE_ID| - 1 ==> !(MESSAGE_ID[k] == '_' && MESSAGE_ID[k + 1] == '_');
    assert forall k :: 0 <= k < |SEQUENCE_PATH| - 1 ==> !(SEQUENCE_PATH[k] == '_' && SEQUENCE_PATH[k + 1] == '_');
  }

  predicate Keyed(row: Row) {
    MESSAGE_ID in row.values && SEQUENCE_PATH in row.values
  }

  function RowKey(row: Row): Key
    requires Keyed(row)
  {
    Key(row.table, row.values[MESSAGE_ID], row.values[SEQUENCE_PATH])
  }

  /** The rows are the table: keyed, no key twice, each row its key's entry, every entry a row. */
  ghost predicate Represents(rows: seq<Row>, table: map<Key, map<string, string>>) {
    && (forall i :: 0 <= i < |rows| ==> Keyed(rows[i]) && RowKey(rows[i]) in table && table[RowKey(rows[i])] == rows[i].values)
    && (forall i, j :: 0 <= i < j < |rows| ==> RowKey(rows[i]) != RowKey(rows[j]))
    && (forall k :: k in table ==> exists i :: 0 <= i < |rows| && RowKey(rows[i]) == k)
  }

  lemma NormalizedRowIsKeyed(id: string, path: nat -> string, m: Match)
    ensures var r := NormalizedRow(id, path(m.field), m); Keyed(r) && RowKey(r) == KeyOf(id, path, m)
  {
    RenderColumnIsFree(m);
  }

  lemma AppendRepresents(rows: seq<Row>, table: map<Key, map<string, string>>, row: Row)
    requires Represents(rows, table) && Keyed(row) && RowKey(row) !in table
    ensures Represents(rows + [row], table[RowKey(row) := row.values])
  {
    var after := rows + [row];
    assert RowKey(after[|rows|]) == RowKey(row);
    assert forall x :: 0 <= x < |rows| ==> after[x] == rows[x];
  }

  lemma UpdateRepresents(rows: seq<Row>, table: map<Key, map<string, string>>, row: Row, i: nat)
    requires Represents(rows, table) && Keyed(row) && i < |rows| && RowKey(rows[i]) == RowKey(row)
    ensures var values := rows[i].values + row.values;
      Represents(rows[i := rows[i].(values := values)], table[RowKey(row) := values])
  {
    var k := RowKey(row);
    var values := rows[i].values + row.values;
    var after := rows[i := rows[i].(values := values)];
    assert RowKey(after[i]) == k;
    assert forall x :: 0 <= x < |rows| && x != i ==> after[x] == rows[x];
    var table' := table[k := values];
    forall q | q in table' ensures exists x :: 0 <= x < |after| && RowKey(after[x]) == q {
      if q == k {
        assert RowKey(after[i]) == q;
      } else {
        var x :| 0 <= x < |rows| && RowKey(rows[x]) == q;
        assert RowKey(after[x]) == q;
      }
    }
  }

  lemma MergeRepresents(rows: seq<Row>, table: map<Key, map<string, string>>, row: Row)
    requires Represents(rows, table) && Keyed(row)
    ensures var k := RowKey(row);
      Represents(Merge(rows, row), table[k := (if k in table then table[k] else map[]) + row.values])
  {
    var i := FindRow(rows, row);
    assert forall x :: 0 <= x < |rows| ==> (SameKey(rows[x], row) <==> RowKey(rows[x]) == RowKey(row));
    if i == |rows| {
      AppendRepresents(rows, table, row);
      assert map[] + row.values == row.values;
    } else {
      UpdateRepresents(rows, table, row, i);
    }
  }

  /** The row vector equals the map of maps, whatever the rules write. */
  lemma {:induction false} RowsAreTheTable(id: string, path: nat -> string, ms: seq<Match>)
    ensures Represents(Rows(id, path, ms), Table(id, path, ms))
  {
    hide NormalizedRow, Merge, Represents;
    if ms == [] {
      NoRows();
    } else {
      var init, m := ms[..|ms| - 1], ms[|ms| - 1];
      RowsAreTheTable(id, path, init);
      NormalizedRowIsKeyed(id, path, m);
      MergeRepresents(Rows(id, path, init), Table(id, path, init), NormalizedRow(id, path(m.field), m));
    }
  }

  lemma NoRows()
    ensures Represents([], map[])
  {}

  /** The stored keys of the matches are the keys of the table. */
  lemma {:induction false} TableHasAll(id: string, path: nat -> string, ms: seq<Match>)
    ensures Table(id, path, ms).Keys == set i | 0 <= i < |ms| :: KeyOf(id, path, ms[i])
  {
    hide KeyOf, NormalizedRow;
    if ms != [] {
      var n := |ms| - 1;
      TableHasAll(id, path, ms[..n]);
      forall i | 0 <= i < |ms|
        ensures KeyOf(id, path, ms[i]) in Table(id, path, ms)
      {
        if i < n {
          assert ms[..n][i] == ms[i];
        }
      }
    }
  }

  /** The one row match `i` was merged into. */
  ghost function RowOf(id: string, path: nat -> string, ms: seq<Match>, i: nat): (r: nat)
    requires i < |ms|
    ensures r < |Rows(id, path, ms)|
    ensures Keyed(Rows(id, path, ms)[r]) && RowKey(Rows(id, path, ms)[r]) == KeyOf(id, path, ms[i])
  {
    RowsAreTheTable(id, path, ms);
    TableHasAll(id, path, ms);
    assert KeyOf(id, path, ms[i]) in Table(id, path, ms);
    var r :| 0 <= r < |Rows(id, path, ms)| && RowKey(Rows(id, path, ms)[r]) == KeyOf(id, path, ms[i]);
    r
  }

  /** Two matches share a row exactly when their stored keys agree. */
  lemma SameRowIffSameKey(id: string, path: nat -> string, ms: seq<Match>, i: nat, j: nat)
    requires i < |ms| && j < |ms|
    ensures RowOf(id, path, ms, i) == RowOf(id, path, ms, j) <==> KeyOf(id, path, ms[i]) == KeyOf(id, path, ms[j])
  {
    hide Rows, Table;
    RowsAreTheTable(id, path, ms);
  }

  lemma {:induction false} DistinctRowKeys(rows: seq<Row>)
    requires forall i :: 0 <= i < |rows| ==> Keyed(rows[i])
    requires forall i, j :: 0 <= i < j < |rows| ==> RowKey(rows[i]) != RowKey(rows[j])
    ensures |set i | 0 <= i < |rows| :: RowKey(rows[i])| == |rows|
  {
    if rows != [] {
      var n := |rows| - 1;
      DistinctRowKeys(rows[..n]);
      var before := set i | 0 <= i < n :: RowKey(rows[..n][i]);
      forall i | 0 <= i < n
        ensures RowKey(rows[i]) in before
      {
        assert rows[..n][i] == rows[i];
      }
      assert (set i | 0 <= i < |rows| :: RowKey(rows[i])) == before + {RowKey(rows[n])};
    }
  }

  /** There are as many rows as different stored keys. */
  lemma RowsCounted(id: string, path: nat -> string, ms: seq<Match>)
    ensures |Rows(id, path, ms)| == |set i | 0 <= i < |ms| :: KeyOf(id, path, ms[i])|
  {
    hide Rows, Table, KeyOf;
    var rows, table := Rows(id, path, ms), Table(id, path, ms);
    RowsAreTheTable(id, path, ms);
    TableHasAll(id, path, ms);
    DistinctRowKeys(rows);
    assert (set i | 0 <= i < |rows| :: RowKey(rows[i])) == table.Keys;
  }

  /** The rows carry the id of their message exactly when no rule writes something else over it. */
  lemma RowsCarryIdIff(id: string, path: nat -> string, ms: seq<Match>)
    ensures (forall r :: 0 <= r < |Rows(id, path, ms)| ==> Get(Rows(id, path, ms)[r].values, MESSAGE_ID) == Some(id)) <==>
      (forall i :: 0 <= i < |ms| && ms[i].column == MESSAGE_ID ==> ms[i].value == id)
  {
    hide Rows, Table;
    var rows := Rows(id, path, ms);
    RowsAreTheTable(id, path, ms);
    TableHasAll(id, path, ms);
    if r: nat :| r < |rows| && Get(rows[r].values, MESSAGE_ID) != Some(id) {
      assert RowKey(rows[r]) in Table(id, path, ms);
      var i :| 0 <= i < |ms| && RowKey(rows[r]) == KeyOf(id, path, ms[i]);
    }
    if i: nat :| i < |ms| && ms[i].column == MESSAGE_ID && ms[i].value != id {
      var r := RowOf(id, path, ms, i);
      assert RowKey(rows[r]).id == ms[i].value;
    }
  }

  lemma ColumnsWritten(id: string, path: string, m: Match, column: string)
    ensures Get(NormalizedRow(id, path, m).values, m.column) == Some(m.value)
    ensures column != MESSAGE_ID && column != SEQUENCE_PATH && column != m.column && column != RenderColumn(m) ==>
      column !in NormalizedRow(id, path, m).values
  {}

  /** A row starts with its message, its path, the payload as captured and the value; later writes win. */
  lemma RowColumns(id: string, path: string, m: Match)
    requires m.column != "message_id" && m.column != "sequence_path"
    ensures var values := NormalizedRow(id, path, m).values;
      && values.Keys == {"message_id", "sequence_path", m.column + "__render_" + m.suffix, m.column}
      && values["message_id"] == id && values["sequence_path"] == path
      && values[m.column + "__render_" + m.suffix] == m.capture && values[m.column] == m.value
  {
    RenderColumnIsFree(m);
    assert RenderColumn(m) == m.column + "__render_" + m.suffix;
  }

  /** Where the last match with a key writes a column, that is the value in the key's row. */
  lemma {:induction false} LastCaptureWins(id: string, path: nat -> string, ms: seq<Match>, i: nat)
    requires i < |ms| && Unreserved(ms)
    requires forall j :: i < j < |ms| && KeyOf(id, path, ms[j]) == KeyOf(id, path, ms[i]) ==>
      ms[j].column != ms[i].column && RenderColumn(ms[j]) != ms[i].column
    ensures var t := Table(id, path, ms);
      KeyOf(id, path, ms[i]) in t && Get(t[KeyOf(id, path, ms[i])], ms[i].column) == Some(ms[i].value)
  {
    hide NormalizedRow, RenderColumn;
    var n := |ms| - 1;
    var init, last := ms[..n], ms[n];
    ColumnsWritten(id, path(last.field), last, ms[i].column);
    if i < n {
      assert init[i] == ms[i];
      assert forall j :: i < j < n ==> init[j] == ms[j];
      LastCaptureWins(id, path, init, i);
    }
  }

  lemma KeepsKeyIff(id: string, path: nat -> string, m: Match)
    ensures KeyOf(id, path, m) == OwnKey(id, path, m) <==> KeepsKey(id, path, m)
  {}

  /**
   * Rules that write a key column: every match lands in the row of its own message,
   * entity and path exactly when each writes back what was there.
   */
  lemma ReservedColumnsIff(id: string, path: nat -> string, ms: seq<Match>)
    ensures (forall i: nat :: i < |ms| ==> RowKey(Rows(id, path, ms)[RowOf(id, path, ms, i)]) == OwnKey(id, path, ms[i])) <==>
      (forall i: nat :: i < |ms| ==> KeepsKey(id, path, ms[i]))
  {
    hide Rows, RowOf, KeyOf, OwnKey, KeepsKey;
    forall i: nat | i < |ms|
      ensures RowKey(Rows(id, path, ms)[RowOf(id, path, ms, i)]) == OwnKey(id, path, ms[i]) <==> KeepsKey(id, path, ms[i])
    {
      KeepsKeyIff(id, path, ms[i]);
    }
  }

  /** Of two matches that belong together, one that writes a key column: they share a row exactly when it writes it back. */
  lemma ReservedColumnSplits(id: string, path: nat -> string, a: Match, b: Match)
    requires OwnKey(id, path, a) == OwnKey(id, path, b) && Unreserved([b])
    ensures |Rows(id, path, [a, b])| == 1 <==> KeepsKey(id, path, a)
  {
    hide Rows;
    var ms := [a, b];
    RowsCounted(id, path, ms);
    KeepsKeyIff(id, path, a);
    assert [b][0] == b;
    KeepsKeyIff(id, path, b);
    var keys := set i | 0 <= i < |ms| :: KeyOf(id, path, ms[i]);
    assert ms[0] == a && ms[1] == b;
    assert keys == {KeyOf(id, path, a), KeyOf(id, path, b)};
  }

  // ---- Parser, path printer and merge together ----

  /** A path with its names decoded. */
  function Decoded(path: Sequences.Path, decode: Bytes -> string): seq<TextFrame> {
    seq(|path|, i requires 0 <= i < |path| => TextFrame(decode(path[i].name), path[i].occurrence))
  }

  function StoredPath(fields: seq<Sequences.Field>, decode: Bytes -> string): nat -> string {
    (i: nat) => if i < |fields| then PathText(Decoded(fields[i].path, decode)) else "$"
  }

  /** `decode` keeps the names in these paths apart and none of them then begins like a path. */
  ghost predicate Decodes(decode: Bytes -> string, ledger: seq<Sequences.Path>) {
    && (forall p: Sequences.Path, k: nat :: p in ledger && k < |p| ==> !Nests(decode(p[k].name)))
    && (forall p: Sequences.Path, k: nat, q: Sequences.Path, l: nat ::
          p in ledger && k < |p| && q in ledger && l < |q| && decode(p[k].name) == decode(q[l].name) ==>
          p[k].name == q[l].name)
  }

  lemma DecodedFlat(p: Sequences.Path, decode: Bytes -> string, ledger: seq<Sequences.Path>)
    requires Decodes(decode, ledger) && (p == [] || p in ledger)
    ensures Flat(Decoded(p, decode))
  {}

  lemma DecodedInjective(p: Sequences.Path, q: Sequences.Path, decode: Bytes -> string, ledger: seq<Sequences.Path>)
    requires Decodes(decode, ledger) && (p == [] || p in ledger) && (q == [] || q in ledger)
    ensures Decoded(p, decode) == Decoded(q, decode) <==> p == q
  {
    if Decoded(p, decode) == Decoded(q, decode) {
      assert |p| == |Decoded(p, decode)| == |q|;
      forall k | 0 <= k < |p| ensures p[k] == q[k] {
        assert Decoded(p, decode)[k] == Decoded(q, decode)[k];
      }
    }
  }

  /** Fields with different paths have different stored paths. */
  ghost predicate TextsApart(fields: seq<Sequences.Field>, decode: Bytes -> string) {
    forall a: nat, b: nat :: a < |fields| && b < |fields| && StoredPath(fields, decode)(a) == StoredPath(fields, decode)(b) ==>
      fields[a].path == fields[b].path
  }

  /** Names that `decode` keeps apart, none beginning like a path, keep the stored paths apart. */
  lemma DecodesKeepsApart(cfg: Sequences.Config, input: seq<Sequences.RawField>, decode: Bytes -> string)
    requires Decodes(decode, Sequences.Run(Sequences.Start, cfg, input).ledger)
    ensures TextsApart(Sequences.Run(Sequences.Start, cfg, input).fields, decode)
  {
    hide Sequences.Run, PathText, Decoded, Decodes;
    var t := Naming.TraceRun(cfg, input);
    var ledger, fields := t.m.ledger, t.m.fields;
    Naming.TraceRunKeepsInv(cfg, input);
    forall a: nat, b: nat | a < |fields| && b < |fields| && StoredPath(fields, decode)(a) == StoredPath(fields, decode)(b)
      ensures fields[a].path == fields[b].path
    {
      var p, q := fields[a].path, fields[b].path;
      assert Naming.OwnerOk(ledger, p, t.owners[a]);
      assert Naming.OwnerOk(ledger, q, t.owners[b]);
      DecodedFlat(p, decode, ledger);
      DecodedFlat(q, decode, ledger);
      PathTextInjective(Decoded(p, decode), Decoded(q, decode));
      DecodedInjective(p, q, decode, ledger);
    }
  }

  /** These matches are of fields of the message, and leave the key columns alone. */
  ghost predicate Matches(ms: seq<Match>, fields: seq<Sequences.Field>) {
    Unreserved(ms) && forall i :: 0 <= i < |ms| ==> ms[i].field < |fields|
  }

  lemma SameKeyIffSameText(id: string, path: nat -> string, a: Match, b: Match)
    requires Unreserved([a, b])
    ensures KeyOf(id, path, a) == KeyOf(id, path, b) <==> a.entity == b.entity && path(a.field) == path(b.field)
  {
    assert [a, b][0] == a && [a, b][1] == b;
  }

  /**
   * Two matched fields of a message land in the same row exactly when their rules
   * name the same entity and the same sequence instance owns both (or both are at root).
   */
  lemma SameRowIffSameInstance(
      cfg: Sequences.Config, input: seq<Sequences.RawField>, decode: Bytes -> string,
      id: string, ms: seq<Match>, i: nat, j: nat)
    requires i < |ms| && j < |ms|
    requires var fields := Sequences.Run(Sequences.Start, cfg, input).fields;
      TextsApart(fields, decode) && Matches(ms, fields)
    ensures var t := Naming.TraceRun(cfg, input);
      var path := StoredPath(t.m.fields, decode);
      && |t.owners| == |t.m.fields|
      && (RowOf(id, path, ms, i) == RowOf(id, path, ms, j) <==>
            ms[i].entity == ms[j].entity && t.owners[ms[i].field] == t.owners[ms[j].field])
  {
    hide Sequences.Run, PathText, Decoded, RowOf, KeyOf;
    var t := Naming.TraceRun(cfg, input);
    var path := StoredPath(t.m.fields, decode);
    Naming.SamePathIffSameInstance(cfg, input, ms[i].field, ms[j].field);
    SameRowIffSameKey(id, path, ms, i, j);
    SameKeyIffSameText(id, path, ms[i], ms[j]);
  }

  /** Matches share rows by entity and owner. */
  ghost predicate RowsFollow(id: string, path: nat -> string, ms: seq<Match>, owners: seq<Option<nat>>)
    requires forall k :: 0 <= k < |ms| ==> ms[k].field < |owners|
  {
    forall i: nat, j: nat :: i < |ms| && j < |ms| ==>
      (RowOf(id, path, ms, i) == RowOf(id, path, ms, j) <==>
         ms[i].entity == ms[j].entity && owners[ms[i].field] == owners[ms[j].field])
  }

  /** Two fields whose different paths have one text are merged into one row. */
  lemma CollidingFieldsMerge(
      cfg: Sequences.Config, input: seq<Sequences.RawField>, decode: Bytes -> string, id: string, a: nat, b: nat)
    returns (ms: seq<Match>)
    requires var fields := Sequences.Run(Sequences.Start, cfg, input).fields;
      && a < |fields| && b < |fields| && fields[a].path != fields[b].path
      && StoredPath(fields, decode)(a) == StoredPath(fields, decode)(b)
    ensures var t := Naming.TraceRun(cfg, input);
      && |t.owners| == |t.m.fields| && Matches(ms, t.m.fields)
      && !RowsFollow(id, StoredPath(t.m.fields, decode), ms, t.owners)
  {
    hide Sequences.Run, RowOf, KeyOf, PathText, Decoded, StoredPath;
    var t := Naming.TraceRun(cfg, input);
    var path := StoredPath(t.m.fields, decode);
    ms := [Match(a, "", "c", "", "", ""), Match(b, "", "c", "", "", "")];
    Naming.SamePathIffSameInstance(cfg, input, a, b);
    SameRowIffSameKey(id, path, ms, 0, 1);
    SameKeyIffSameText(id, path, ms[0], ms[1]);
    assert RowOf(id, path, ms, 0) == RowOf(id, path, ms, 1);
  }

  /**
   * For any decoding: rows follow the sequence instances of a message, whatever is
   * matched, exactly when no two paths of its fields are stored as one text.
   */
  lemma RowsFollowInstancesIff(cfg: Sequences.Config, input: seq<Sequences.RawField>, decode: Bytes -> string, id: string)
    ensures var t := Naming.TraceRun(cfg, input);
      && |t.owners| == |t.m.fields|
      && (TextsApart(t.m.fields, decode) <==>
            forall ms: seq<Match> :: Matches(ms, t.m.fields) ==> RowsFollow(id, StoredPath(t.m.fields, decode), ms, t.owners))
  {
    hide Sequences.Run, RowOf, KeyOf, PathText, Decoded, StoredPath;
    var t := Naming.TraceRun(cfg, input);
    var fields := t.m.fields;
    var path := StoredPath(fields, decode);
    Naming.TraceRunKeepsInv(cfg, input);
    if TextsApart(fields, decode) {
      forall ms: seq<Match> | Matches(ms, fields)
        ensures RowsFollow(id, path, ms, t.owners)
      {
        forall i: nat, j: nat | i < |ms| && j < |ms|
          ensures RowOf(id, path, ms, i) == RowOf(id, path, ms, j) <==>
            ms[i].entity == ms[j].entity && t.owners[ms[i].field] == t.owners[ms[j].field]
        {
          SameRowIffSameInstance(cfg, input, decode, id, ms, i, j);
        }
      }
    } else {
      var a: nat, b: nat :| a < |fields| && b < |fields| && path(a) == path(b) && fields[a].path != fields[b].path;
      var ms := CollidingFieldsMerge(cfg, input, decode, id, a, b);
    }
  }

}
