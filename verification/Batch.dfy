/** The output rows of parsed messages, and how those of one message are made. */
module Batch {
  import opened Bytes
  import opened PathCodec
  import opened RowMerge
  import Sequences

  datatype RawMessage = RawMessage(messageId: string, messageType: string, rawText: string)

  datatype FieldRow = FieldRow(
    messageId: string,
    path: Option<string>,
    tag: string,
    qualifier: Option<string>,
    rawValue: string)

  datatype ErrorRow = ErrorRow(messageId: string, error: string)

  datatype Batch = Batch(raw: seq<RawMessage>, fields: seq<FieldRow>, errors: seq<ErrorRow>, rows: seq<Row>)

  const EmptyBatch := Batch([], [], [], [])

  function Extend(a: Batch, b: Batch): Batch {
    Batch(a.raw + b.raw, a.fields + b.fields, a.errors + b.errors, a.rows + b.rows)
  }

  /**
   * What the parser and the schema matcher found in one message. `body` is the
   * text to keep; `errors` are diagnostics and schema issues as text.
   */
  datatype Parsed = Parsed(messageType: string, body: string, fields: seq<Sequences.Field>, errors: seq<string>, matches: seq<Match>)

  function FieldOf(id: string, f: Sequences.Field, decode: Bytes -> string): FieldRow {
    FieldRow(id, if f.path == [] then None else Some(PathText(Decoded(f.path, decode))), decode(f.tag),
             if f.qualifier.Some? then Some(decode(f.qualifier.value)) else None, decode(f.value))
  }

  function FieldRows(id: string, fields: seq<Sequences.Field>, decode: Bytes -> string): seq<FieldRow> {
    seq(|fields|, i requires 0 <= i < |fields| => FieldOf(id, fields[i], decode))
  }

  function ErrorRows(id: string, errors: seq<string>): seq<ErrorRow> {
    seq(|errors|, i requires 0 <= i < |errors| => ErrorRow(id, errors[i]))
  }

  function Materialized(id: string, p: Parsed, decode: Bytes -> string): Batch {
    Batch([RawMessage(id, p.messageType, p.body)], FieldRows(id, p.fields, decode), ErrorRows(id, p.errors),
          Rows(id, StoredPath(p.fields, decode), p.matches))
  }

  method Materialize(id: string, p: Parsed, decode: Bytes -> string) returns (batch: Batch)
    ensures batch == Materialized(id, p, decode)
  {
    var fields: seq<FieldRow> := [];
    for i := 0 to |p.fields|
      invariant fields == FieldRows(id, p.fields[..i], decode)
    {
      fields := fields + [FieldOf(id, p.fields[i], decode)];
    }
    assert p.fields[..|p.fields|] == p.fields;
    var errors: seq<ErrorRow> := [];
    for i := 0 to |p.errors|
      invariant errors == ErrorRows(id, p.errors[..i])
    {
      errors := errors + [ErrorRow(id, p.errors[i])];
    }
    assert p.errors[..|p.errors|] == p.errors;
    var rows := MaterializeRows(id, StoredPath(p.fields, decode), p.matches);
    batch := Batch([RawMessage(id, p.messageType, p.body)], fields, errors, rows);
  }

  /** Every row of the batch belongs to one of these messages. */
  ghost predicate Mentions(batch: Batch, ids: set<string>) {
    && (forall i :: 0 <= i < |batch.raw| ==> batch.raw[i].messageId in ids)
    && (forall i :: 0 <= i < |batch.fields| ==> batch.fields[i].messageId in ids)
    && (forall i :: 0 <= i < |batch.errors| ==> batch.errors[i].messageId in ids)
    && (forall i :: 0 <= i < |batch.rows| ==> RowIsOf(batch.rows[i], ids))
  }

  predicate RowIsOf(row: Row, ids: set<string>) {
    MESSAGE_ID in row.values && row.values[MESSAGE_ID] in ids
  }

  /** A message's rows carry its id exactly when no schema rule writes something else over the id column. */
  lemma MaterializedMentions(id: string, p: Parsed, decode: Bytes -> string)
    ensures Mentions(Materialized(id, p, decode), {id}) <==>
      forall i :: 0 <= i < |p.matches| && p.matches[i].column == MESSAGE_ID ==> p.matches[i].value == id
  {
    hide Rows, StoredPath;
    var rows := Rows(id, StoredPath(p.fields, decode), p.matches);
    RowsCarryIdIff(id, StoredPath(p.fields, decode), p.matches);
    assert forall r :: 0 <= r < |rows| ==> (RowIsOf(rows[r], {id}) <==> Get(rows[r].values, MESSAGE_ID) == Some(id));
  }
}
