/**
 * The stored read model of cash statements: header rows and entry rows, joined
 * again through an index, against the snapshot built directly. Tables keep the
 * order in which they were written.
 */
module ReadModel {
  import opened Bytes
  import opened StatementLine
  import Text
  import Trimming

  datatype Balance = Balance(direction: Direction, amount: real)

  datatype CashStatement = CashStatement(
    source: string,
    messageId: string,
    messageType: string,
    account: Option<string>,
    currency: Option<string>,
    opening: Option<Balance>,
    closing: Option<Balance>,
    entries: seq<CashEntry>)

  datatype SnapshotEntry = SnapshotEntry(
    valueDate: string,
    direction: string,
    amount: real,
    signedAmount: real,
    transactionType: string,
    reference: Option<string>,
    info: Option<string>)

  datatype SnapshotStatement = SnapshotStatement(
    source: string,
    messageId: string,
    messageType: string,
    account: string,
    currency: string,
    opening: real,
    closing: real,
    entries: seq<SnapshotEntry>)

  function Or<T>(o: Option<T>, default: T): T {
    if o.Some? then o.value else default
  }

  function DirectionText(d: Direction): string {
    match d
    case Credit => "credit"
    case Debit => "debit"
    case ReversalCredit => "reversal_credit"
    case ReversalDebit => "reversal_debit"
  }

  function SignedBalance(b: Option<Balance>): Option<real> {
    if b.Some? then Some(b.value.direction.Signed(b.value.amount)) else None
  }

  // ---- The direct view ----

  function MapEntry(e: CashEntry): SnapshotEntry {
    SnapshotEntry(Or(OrElse(e.valueDate, e.entryDate), ""), DirectionText(e.direction), e.amount, e.signedAmount,
                  Or(e.transactionType, ""), OrElse(e.customerRef, e.bankRef), e.info)
  }

  function MapEntries(entries: seq<CashEntry>): (r: seq<SnapshotEntry>)
    ensures |r| == |entries|
  {
    if entries == [] then [] else MapEntries(entries[..|entries| - 1]) + [MapEntry(entries[|entries| - 1])]
  }

  function MapStatement(s: CashStatement): SnapshotStatement {
    SnapshotStatement(s.source, s.messageId, s.messageType, Or(s.account, ""), Or(s.currency, ""),
                      Or(SignedBalance(s.opening), 0.0), Or(SignedBalance(s.closing), 0.0), MapEntries(s.entries))
  }

  function Build(statements: seq<CashStatement>): seq<SnapshotStatement> {
    seq(|statements|, i requires 0 <= i < |statements| => MapStatement(statements[i]))
  }

  /** What a statement line shows is what it says: its date, direction and amounts, and the customer's reference before the bank's. */
  lemma LineIsShown(l: Line, info: Option<string>, toNumber: string -> Option<real>, amount: real, digits: string)
    requires LineOk(l) && Pointed(l.amount, digits) && toNumber(digits) == Some(amount)
    requires info.Some? ==> Trimming.Trimmed(info.value, Text.IsBlank)
    ensures var e := ReadLine(PrintLine(l, info), toNumber);
      && e.Some?
      && var shown := MapEntry(e.value);
      && shown.valueDate == "20" + l.valueDate[0..2] + "-" + l.valueDate[2..4] + "-" + l.valueDate[4..6]
      && (MarkText(l.mark) == "C" ==> shown.direction == "credit" && shown.signedAmount == amount)
      && (MarkText(l.mark) == "D" ==> shown.direction == "debit" && shown.signedAmount == -amount)
      && (MarkText(l.mark) == "RC" ==> shown.direction == "reversal_credit" && shown.signedAmount == -amount)
      && (MarkText(l.mark) == "RD" ==> shown.direction == "reversal_debit" && shown.signedAmount == amount)
      && shown.amount == amount && shown.transactionType == l.kind
      && (l.customerRef != "" ==> shown.reference == Some(l.customerRef))
      && (l.customerRef == "" && l.bankRef.Some? && l.bankRef.value != "" ==> shown.reference == l.bankRef)
      && (l.customerRef == "" && (l.bankRef.None? || l.bankRef.value == "") ==> shown.reference == None)
      && (shown.info == if info == Some("") then None else info)
  {
    hide LineOk, ReadLine, PrintLine, Pointed;
    LinePartsOk(l);
    AnyLineReadsBack(l, info, toNumber, amount, digits);
  }

  lemma LinePartsOk(l: Line)
    requires LineOk(l)
    ensures |l.valueDate| == 6
  {}

  /** A balance counts for the account on a credit mark and against it on a debit mark; none counts nothing. */
  predicate Counts(shown: real, balance: Option<Balance>) {
    match balance
    case None => shown == 0.0
    case Some(b) => if b.direction in {Credit, ReversalDebit} then shown == b.amount else shown + b.amount == 0.0
  }

  /** What a statement shows besides its entries is what it says. */
  lemma StatementIsShown(statements: seq<CashStatement>, i: nat)
    requires i < |statements|
    ensures var s, shown := statements[i], Build(statements)[i];
      && Counts(shown.opening, s.opening) && Counts(shown.closing, s.closing)
      && shown.source == s.source && shown.messageId == s.messageId && shown.messageType == s.messageType
      && (s.account.Some? ==> shown.account == s.account.value) && (s.account.None? ==> shown.account == "")
      && (s.currency.Some? ==> shown.currency == s.currency.value) && (s.currency.None? ==> shown.currency == "")
      && |shown.entries| == |s.entries| && forall k :: 0 <= k < |s.entries| ==> shown.entries[k] == MapEntry(s.entries[k])
  {
    MappedAt(statements[i].entries);
  }

  lemma {:induction false} MappedAt(entries: seq<CashEntry>)
    ensures forall k :: 0 <= k < |entries| ==> MapEntries(entries)[k] == MapEntry(entries[k])
  {
    if entries != [] {
      MappedAt(entries[..|entries| - 1]);
    }
  }

  // ---- The tables ----

  datatype HeaderRow = HeaderRow(
    source: string,
    messageId: string,
    messageType: string,
    account: Option<string>,
    currency: Option<string>,
    opening: Option<real>,
    closing: Option<real>)

  datatype EntryRow = EntryRow(
    source: string,
    messageId: string,
    account: Option<string>,
    currency: Option<string>,
    valueDate: Option<string>,
    entryDate: Option<string>,
    direction: string,
    amount: real,
    signedAmount: real,
    transactionType: Option<string>,
    customerRef: Option<string>,
    bankRef: Option<string>,
    info: Option<string>)

  function HeaderOf(s: CashStatement): HeaderRow {
    HeaderRow(s.source, s.messageId, s.messageType, s.account, s.currency, SignedBalance(s.opening), SignedBalance(s.closing))
  }

  function EntryOf(s: CashStatement, e: CashEntry): EntryRow {
    EntryRow(s.source, s.messageId, s.account, s.currency, e.valueDate, e.entryDate, DirectionText(e.direction), e.amount,
             e.signedAmount, e.transactionType, e.customerRef, e.bankRef, e.info)
  }

  function Headers(statements: seq<CashStatement>): seq<HeaderRow> {
    seq(|statements|, i requires 0 <= i < |statements| => HeaderOf(statements[i]))
  }

  function EntryRowsOf(s: CashStatement, entries: seq<CashEntry>): seq<EntryRow> {
    if entries == [] then [] else EntryRowsOf(s, entries[..|entries| - 1]) + [EntryOf(s, entries[|entries| - 1])]
  }

  /** One row for each entry, in order. */
  function EntryRows(statements: seq<CashStatement>): seq<EntryRow> {
    if statements == [] then []
    else
      var last := statements[|statements| - 1];
      EntryRows(statements[..|statements| - 1]) + EntryRowsOf(last, last.entries)
  }

  // ---- The join ----

  type Key = (string, string)

  function HeaderKey(h: HeaderRow): Key {
    (h.source, h.messageId)
  }

  function RowKey(r: EntryRow): Key {
    (r.source, r.messageId)
  }

  function StatementKey(s: CashStatement): Key {
    (s.source, s.messageId)
  }

  function Shell(h: HeaderRow): SnapshotStatement {
    SnapshotStatement(h.source, h.messageId, h.messageType, Or(h.account, ""), Or(h.currency, ""),
                      Or(h.opening, 0.0), Or(h.closing, 0.0), [])
  }

  function ReadEntry(r: EntryRow): SnapshotEntry {
    SnapshotEntry(Or(OrElse(r.valueDate, r.entryDate), ""), r.direction, r.amount, r.signedAmount,
                  Or(r.transactionType, ""), OrElse(r.customerRef, r.bankRef), r.info)
  }

  /** The entry rows under a key, read back. */
  function Under(rows: seq<EntryRow>, key: Key): seq<SnapshotEntry> {
    if rows == [] then []
    else
      var last := rows[|rows| - 1];
      Under(rows[..|rows| - 1], key) + (if RowKey(last) == key then [ReadEntry(last)] else [])
  }

  /** No later header has the same key. */
  predicate IsLast(headers: seq<HeaderRow>, k: nat)
    requires k < |headers|
  {
    forall j :: k < j < |headers| ==> HeaderKey(headers[j]) != HeaderKey(headers[k])
  }

  /** Each key's entries go to its last header. */
  function Joined(headers: seq<HeaderRow>, rows: seq<EntryRow>): seq<SnapshotStatement> {
    seq(|headers|, k requires 0 <= k < |headers| =>
      Shell(headers[k]).(entries := if IsLast(headers, k) then Under(rows, HeaderKey(headers[k])) else []))
  }

  /** The index points each known key to its last header. */
  ghost predicate Indexes(index: map<Key, nat>, headers: seq<HeaderRow>) {
    && (forall key :: key in index ==> index[key] < |headers| && HeaderKey(headers[index[key]]) == key && IsLast(headers, index[key]))
    && (forall k :: 0 <= k < |headers| ==> HeaderKey(headers[k]) in index)
  }

  lemma IndexesOneMore(index: map<Key, nat>, headers: seq<HeaderRow>, h: HeaderRow)
    requires Indexes(index, headers)
    ensures Indexes(index[HeaderKey(h) := |headers|], headers + [h])
  {}

  /** The two loops of the reader; a missing table has no rows. */
  method ReadStatements(headers: Option<seq<HeaderRow>>, rows: Option<seq<EntryRow>>) returns (statements: seq<SnapshotStatement>)
    ensures statements == Joined(Or(headers, []), if headers.Some? then Or(rows, []) else [])
  {
    if headers.None? {
      return [];
    }
    var hs := headers.value;
    statements := [];
    var index: map<Key, nat> := map[];
    for i := 0 to |hs|
      invariant Indexes(index, hs[..i])
      invariant |statements| == i && forall k :: 0 <= k < i ==> statements[k] == Shell(hs[k])
    {
      IndexesOneMore(index, hs[..i], hs[i]);
      assert hs[..i] + [hs[i]] == hs[..i + 1];
      index := index[HeaderKey(hs[i]) := |statements|];
      statements := statements + [Shell(hs[i])];
    }
    assert hs[..|hs|] == hs;
    assert statements == Joined(hs, []);
    if rows.Some? {
      statements := AttachEntries(hs, index, statements, rows.value);
    }
  }

  method AttachEntries(ghost headers: seq<HeaderRow>, index: map<Key, nat>, shells: seq<SnapshotStatement>, rows: seq<EntryRow>)
    returns (statements: seq<SnapshotStatement>)
    requires Indexes(index, headers) && shells == Joined(headers, [])
    ensures statements == Joined(headers, rows)
  {
    hide IsLast;
    statements := shells;
    for i := 0 to |rows|
      invariant statements == Joined(headers, rows[..i])
    {
      var key, entry := RowKey(rows[i]), ReadEntry(rows[i]);
      JoinOneMore(index, headers, rows[..i], rows[i]);
      assert rows[..i] + [rows[i]] == rows[..i + 1];
      if key in index {
        var k := index[key];
        statements := statements[k := statements[k].(entries := statements[k].entries + [entry])];
      }
    }
    assert rows[..|rows|] == rows;
  }

  /** One more entry row goes to the header its key is indexed to, or nowhere. */
  lemma JoinOneMore(index: map<Key, nat>, headers: seq<HeaderRow>, rows: seq<EntryRow>, r: EntryRow)
    requires Indexes(index, headers)
    ensures var before, after := Joined(headers, rows), Joined(headers, rows + [r]);
      && (RowKey(r) !in index ==> after == before)
      && (RowKey(r) in index ==>
            var k := index[RowKey(r)];
            after == before[k := before[k].(entries := before[k].entries + [ReadEntry(r)])])
  {
    hide Shell, IsLast, ReadEntry;
    assert (rows + [r])[..|rows|] == rows;
    var before, after := Joined(headers, rows), Joined(headers, rows + [r]);
    forall k: nat | k < |headers|
      ensures after[k] ==
        if RowKey(r) in index && index[RowKey(r)] == k then before[k].(entries := before[k].entries + [ReadEntry(r)])
        else before[k]
    {
      OnlyLastIsIndexed(index, headers, k);
    }
    if RowKey(r) in index {
      var k := index[RowKey(r)];
      assert after == before[k := before[k].(entries := before[k].entries + [ReadEntry(r)])];
    } else {
      assert after == before;
    }
  }

  lemma OnlyLastIsIndexed(index: map<Key, nat>, headers: seq<HeaderRow>, k: nat)
    requires Indexes(index, headers) && k < |headers|
    ensures IsLast(headers, k) <==> index[HeaderKey(headers[k])] == k
  {}

  // ---- The read model and the direct view ----

  /** The entries of all statements with a key, one after the other. */
  function EntriesOf(statements: seq<SnapshotStatement>, key: Key): seq<SnapshotEntry> {
    if statements == [] then []
    else
      var last := statements[|statements| - 1];
      EntriesOf(statements[..|statements| - 1], key) + (if (last.source, last.messageId) == key then last.entries else [])
  }

  lemma {:induction false} UnderConcat(a: seq<EntryRow>, b: seq<EntryRow>, key: Key)
    ensures Under(a + b, key) == Under(a, key) + Under(b, key)
  {
    if b == [] {
      assert a + b == a;
    } else {
      assert (a + b)[..|a + b| - 1] == a + b[..|b| - 1];
      UnderConcat(a, b[..|b| - 1], key);
    }
  }

  lemma {:induction false} UnderOneStatement(s: CashStatement, entries: seq<CashEntry>, key: Key)
    ensures Under(EntryRowsOf(s, entries), key) == if StatementKey(s) == key then MapEntries(entries) else []
  {
    if entries != [] {
      var rows := EntryRowsOf(s, entries);
      UnderOneStatement(s, entries[..|entries| - 1], key);
      assert rows[..|rows| - 1] == EntryRowsOf(s, entries[..|entries| - 1]);
    }
  }

  /** Flattening keeps the entries of every key, in order. */
  lemma {:induction false} FlattenKeepsEntries(statements: seq<CashStatement>, key: Key)
    ensures Under(EntryRows(statements), key) == EntriesOf(Build(statements), key)
  {
    hide Under, MapEntries;
    if statements == [] {
      assert Under([], key) == [] by {
        NoneUnder(key);
      }
    } else {
      var rest, last := statements[..|statements| - 1], statements[|statements| - 1];
      FlattenKeepsEntries(rest, key);
      UnderConcat(EntryRows(rest), EntryRowsOf(last, last.entries), key);
      UnderOneStatement(last, last.entries, key);
      assert Build(statements)[..|rest|] == Build(rest);
    }
  }

  lemma NoneUnder(key: Key)
    ensures Under([], key) == []
  {}

  lemma {:induction false} JoinedEntriesOf(headers: seq<HeaderRow>, rows: seq<EntryRow>, n: nat, key: Key)
    requires n <= |headers|
    ensures EntriesOf(Joined(headers, rows)[..n], key) ==
      if exists k: nat :: k < n && HeaderKey(headers[k]) == key && IsLast(headers, k) then Under(rows, key) else []
  {
    hide Under, IsLast;
    if n > 0 {
      var joined := Joined(headers, rows);
      assert joined[..n][..n - 1] == joined[..n - 1];
      JoinedEntriesOf(headers, rows, n - 1, key);
      forall k: nat | k < n - 1 && HeaderKey(headers[k]) == HeaderKey(headers[n - 1])
        ensures !IsLast(headers, k)
      {
        NotLast(headers, k, n - 1);
      }
    }
  }

  lemma NotLast(headers: seq<HeaderRow>, k: nat, j: nat)
    requires k < j < |headers| && HeaderKey(headers[j]) == HeaderKey(headers[k])
    ensures !IsLast(headers, k)
  {}

  lemma {:induction false} LastExists(headers: seq<HeaderRow>, i: nat) returns (k: nat)
    requires i < |headers|
    ensures i <= k < |headers| && HeaderKey(headers[k]) == HeaderKey(headers[i]) && IsLast(headers, k)
    decreases |headers| - i
  {
    if IsLast(headers, i) {
      k := i;
    } else {
      var j :| i < j < |headers| && HeaderKey(headers[j]) == HeaderKey(headers[i]);
      k := LastExists(headers, j);
    }
  }

  lemma {:induction false} NoEntriesWithoutHeader(statements: seq<CashStatement>, key: Key)
    requires forall i :: 0 <= i < |statements| ==> StatementKey(statements[i]) != key
    ensures EntriesOf(Build(statements), key) == []
  {
    hide MapEntries;
    if statements != [] {
      NoEntriesWithoutHeader(statements[..|statements| - 1], key);
      assert Build(statements)[..|statements| - 1] == Build(statements[..|statements| - 1]);
    }
  }

  /** Whatever the keys: no entry is lost, duplicated, reordered or moved to another key. */
  lemma EntriesByKeySurvive(statements: seq<CashStatement>, key: Key)
    ensures EntriesOf(Joined(Headers(statements), EntryRows(statements)), key) == EntriesOf(Build(statements), key)
  {
    hide Under, IsLast, MapEntries, EntryRows, EntriesOf;
    var headers, rows := Headers(statements), EntryRows(statements);
    var joined := Joined(headers, rows);
    assert joined[..|headers|] == joined;
    JoinedEntriesOf(headers, rows, |headers|, key);
    FlattenKeepsEntries(statements, key);
    if i :| 0 <= i < |statements| && StatementKey(statements[i]) == key {
      assert HeaderKey(headers[i]) == key;
      var k := LastExists(headers, i);
    } else {
      NoEntriesWithoutHeader(statements, key);
      forall k: nat | k < |headers|
        ensures HeaderKey(headers[k]) != key
      {
        assert StatementKey(statements[k]) != key;
      }
    }
  }

  /** A statement that another with the same key follows. */
  predicate HasSuccessor(statements: seq<CashStatement>, i: nat)
    requires i < |statements|
  {
    exists j :: i < j < |statements| && StatementKey(statements[j]) == StatementKey(statements[i])
  }

  lemma {:induction false} OnlyTheLastHasEntries(statements: seq<CashStatement>, k: nat)
    requires k < |statements| && !HasSuccessor(statements, k)
    requires forall i: nat :: i < |statements| && HasSuccessor(statements, i) ==> statements[i].entries == []
    ensures EntriesOf(Build(statements), StatementKey(statements[k])) == MapEntries(statements[k].entries)
  {
    hide HasSuccessor, MapEntries;
    var key := StatementKey(statements[k]);
    forall i: nat | i < k && StatementKey(statements[i]) == key
      ensures statements[i].entries == []
    {
      Succeeded(statements, i, k);
    }
    forall i: nat | k < i < |statements|
      ensures StatementKey(statements[i]) != key
    {
      if StatementKey(statements[i]) == key {
        Succeeded(statements, k, i);
      }
    }
    EntriesAround(statements, k, |statements|);
    assert statements[..|statements|] == statements;
  }

  lemma Succeeded(statements: seq<CashStatement>, i: nat, j: nat)
    requires i < j < |statements| && StatementKey(statements[j]) == StatementKey(statements[i])
    ensures HasSuccessor(statements, i)
  {}

  lemma {:induction false} EntriesAround(statements: seq<CashStatement>, k: nat, n: nat)
    requires k < |statements| && n <= |statements|
    requires forall i: nat :: i < k && StatementKey(statements[i]) == StatementKey(statements[k]) ==> statements[i].entries == []
    requires forall i: nat :: k < i < |statements| ==> StatementKey(statements[i]) != StatementKey(statements[k])
    ensures EntriesOf(Build(statements[..n]), StatementKey(statements[k])) ==
      if n <= k then [] else MapEntries(statements[k].entries)
  {
    hide MapEntry, SignedBalance;
    if n > 0 {
      EntriesAround(statements, k, n - 1);
      var built := Build(statements[..n]);
      assert built[..n - 1] == Build(statements[..n - 1]);
      assert built[n - 1] == MapStatement(statements[n - 1]);
    }
  }

  /**
   * The rejoined read model is the direct view exactly when every statement that
   * another one with the same source and message id follows has no entries.
   */
  lemma ReadModelIsDirectIff(statements: seq<CashStatement>)
    ensures Joined(Headers(statements), EntryRows(statements)) == Build(statements) <==>
      forall i: nat :: i < |statements| && HasSuccessor(statements, i) ==> statements[i].entries == []
  {
    hide Under, MapEntries, EntryRows, EntriesOf;
    var headers, rows := Headers(statements), EntryRows(statements);
    var joined, direct := Joined(headers, rows), Build(statements);
    forall i: nat | i < |statements|
      ensures IsLast(headers, i) <==> !HasSuccessor(statements, i)
    {
      LastIffNoSuccessor(statements, i);
    }
    if joined == direct {
      forall i: nat | i < |statements| && HasSuccessor(statements, i)
        ensures statements[i].entries == []
      {
        assert joined[i].entries == direct[i].entries == MapEntries(statements[i].entries);
      }
    }
    if forall i: nat :: i < |statements| && HasSuccessor(statements, i) ==> statements[i].entries == [] {
      forall i: nat | i < |statements|
        ensures joined[i] == direct[i]
      {
        if IsLast(headers, i) {
          FlattenKeepsEntries(statements, HeaderKey(headers[i]));
          OnlyTheLastHasEntries(statements, i);
        }
      }
      assert joined == direct;
    }
  }

  lemma LastIffNoSuccessor(statements: seq<CashStatement>, i: nat)
    requires i < |statements|
    ensures IsLast(Headers(statements), i) <==> !HasSuccessor(statements, i)
  {
    var headers := Headers(statements);
    assert forall j :: 0 <= j < |statements| ==> HeaderKey(headers[j]) == StatementKey(statements[j]);
  }
}
