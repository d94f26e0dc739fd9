/**
 * From output rows to securities events: one event for each row with an ISIN,
 * its other fields looked up near that row. `Tools` stands for the ISIN scanner
 * and the conversion of text to numbers.
 */
module Normalizer {
  import opened Bytes
  import opened Text
  import opened RowMerge
  import opened PathCodec
  import opened Branch
  import opened Batch
  import opened Selection
  import Sequences

  datatype Kind = Holding | Settlement | TradeConfirm | Other

  function Classify(messageType: string): Kind {
    var t := Upper(Strip(messageType));
    if t == "MT535" then Holding
    else if t in {"MT536", "MT537", "MT538"} then Settlement
    else if t in {"MT540", "MT541", "MT542", "MT543", "MT544", "MT545", "MT546", "MT547", "MT548"} then Settlement
    else if t in {"MT515", "MT518"} then TradeConfirm
    else Other
  }

  /** The kinds by the number of the message type; other types have no events. */
  predicate IsHolding(n: nat) {
    n == 535
  }

  predicate IsSettlement(n: nat) {
    536 <= n <= 538 || 540 <= n <= 548
  }

  predicate IsConfirm(n: nat) {
    n == 515 || n == 518
  }

  lemma ThreeDigits(n: nat)
    requires 100 <= n < 1000
    ensures Decimal(n) == [Digit(n / 100), Digit(n / 10 % 10), Digit(n % 10)]
  {
    assert Decimal(n / 10) == Decimal(n / 100) + [Digit(n / 10 % 10)];
  }

  /** The text of a message type, up to case and blanks. */
  predicate IsType(s: string, n: nat) {
    Upper(Strip(s)) == "MT" + Decimal(n)
  }

  /** Three digits. */
  function Code(n: nat): string
    requires 500 <= n < 600
  {
    ['5', '0' + (n / 10 % 10) as char, '0' + (n % 10) as char]
  }

  lemma CodeIsDecimal(n: nat)
    requires 500 <= n < 600
    ensures Decimal(n) == Code(n)
  {
    ThreeDigits(n);
  }

  /** The number of a known type. */
  ghost function NumberOf(messageType: string): (n: nat)
    requires !Classify(messageType).Other?
    ensures 500 <= n < 600 && Upper(Strip(messageType)) == "MT" + Code(n)
  {
    var t := Upper(Strip(messageType));
    500 + 10 * ((t[3] - '0') as int) + (t[4] - '0') as int
  }

  lemma KindOfCode(messageType: string, n: nat)
    requires 500 <= n < 600 && Upper(Strip(messageType)) == "MT" + Code(n)
    ensures Classify(messageType).Holding? <==> IsHolding(n)
    ensures Classify(messageType).Settlement? <==> IsSettlement(n)
    ensures Classify(messageType).TradeConfirm? <==> IsConfirm(n)
  {
    var t := Upper(Strip(messageType));
    var a, b := n / 10 % 10, n % 10;
    assert n == 500 + 10 * a + b;
    assert |t| == 5 && t[3] == '0' + a as char && t[4] == '0' + b as char;
    assert n == 515 ==> t == "MT515";
    assert n == 518 ==> t == "MT518";
    assert n == 535 ==> t == "MT535";
    assert 536 <= n <= 538 ==> t == "MT536" || t == "MT537" || t == "MT538";
    assert 540 <= n <= 548 ==>
      t == "MT540" || t == "MT541" || t == "MT542" || t == "MT543" || t == "MT544" || t == "MT545" || t == "MT546" || t == "MT547" || t == "MT548";
    assert t == "MT535" ==> n == 535;
    assert t in {"MT515", "MT518"} ==> n == 515 || n == 518;
    assert t in {"MT536", "MT537", "MT538"} ==> 536 <= n <= 538;
    assert t in {"MT540", "MT541", "MT542", "MT543", "MT544", "MT545", "MT546", "MT547", "MT548"} ==> 540 <= n <= 548;
  }

  /** A message has a kind exactly when its type is one of the numbers of that kind. */
  lemma KindsByNumber(messageType: string)
    ensures Classify(messageType).Holding? <==> exists n: nat :: IsHolding(n) && IsType(messageType, n)
    ensures Classify(messageType).Settlement? <==> exists n: nat :: IsSettlement(n) && IsType(messageType, n)
    ensures Classify(messageType).TradeConfirm? <==> exists n: nat :: IsConfirm(n) && IsType(messageType, n)
  {
    hide Decimal, Classify, Upper, Strip, Code;
    if !Classify(messageType).Other? {
      var n: nat := NumberOf(messageType);
      CodeIsDecimal(n);
      KindOfCode(messageType, n);
      assert IsType(messageType, n);
    }
    forall n: nat | (IsHolding(n) || IsSettlement(n) || IsConfirm(n)) && IsType(messageType, n)
      ensures Classify(messageType).Holding? <==> IsHolding(n)
      ensures Classify(messageType).Settlement? <==> IsSettlement(n)
      ensures Classify(messageType).TradeConfirm? <==> IsConfirm(n)
    {
      CodeIsDecimal(n);
      KindOfCode(messageType, n);
    }
  }

  datatype Tools = Tools(extractIsin: string -> (Option<string>, Option<string>), toNumber: string -> Option<real>)

  datatype Instrument = Instrument(path: string, isin: string, description: Option<string>)

  datatype Event = Event(
    messageId: string,
    transactionRef: Option<string>,
    messageType: string,
    kind: Kind,
    isin: Option<string>,
    description: Option<string>,
    quantity: Option<real>,
    amount: Option<real>,
    currency: Option<string>,
    settlementDate: Option<string>,
    account: Option<string>,
    party: Option<string>,
    status: Option<string>)

  // ---- Scope ----

  function PathOf(row: Row): Option<string> {
    Get(row.values, SEQUENCE_PATH)
  }

  function BranchRow(p: string): Row -> bool {
    row => PathOf(row).Some? && PathOf(row).value != "$" && InBranch(PathOf(row).value, p)
  }

  predicate RootRow(row: Row) {
    PathOf(row) == Some("$")
  }

  function ScopeRow(p: string): Row -> bool {
    row => BranchRow(p)(row) || RootRow(row)
  }

  function DepthTo(p: string): Row -> nat {
    row => SharedDepth(if PathOf(row).Some? then PathOf(row).value else "", p)
  }

  /** The order in which rows are searched: nearest in the branch first, then root rows; without an instrument, all. */
  function Scoped(rows: seq<Row>, path: Option<string>): seq<Row> {
    match path
    case None => rows
    case Some(p) => SortDeepest(Filter(rows, BranchRow(p)), DepthTo(p)) + Filter(rows, RootRow)
  }

  method ScopedRows(rows: seq<Row>, path: Option<string>) returns (scoped: seq<Row>)
    ensures scoped == Scoped(rows, path)
  {
    if path.None? {
      return rows;
    }
    var p := path.value;
    var inBranch: seq<Row> := [];
    var root: seq<Row> := [];
    for i := 0 to |rows|
      invariant inBranch == Filter(rows[..i], BranchRow(p))
      invariant root == Filter(rows[..i], RootRow)
    {
      assert rows[..i + 1][..i] == rows[..i];
      if BranchRow(p)(rows[i]) {
        inBranch := inBranch + [rows[i]];
      }
      if RootRow(rows[i]) {
        root := root + [rows[i]];
      }
    }
    assert rows[..|rows|] == rows;
    scoped := SortDeepest(inBranch, DepthTo(p)) + root;
  }

  // ---- Lookup ----

  /** A test on two texts. */
  type Test = (string, string) -> bool

  /** The first column of a row, in key order, whose name and value pass the test. */
  function FirstColumn(row: Row, test: Test): Option<string> {
    Least(set c | c in row.values && test(c, row.values[c]))
  }

  /** The first column that is not empty and passes the test on table and name. */
  function ColumnBy(test: Test): Row -> Option<string> {
    (row: Row) => FirstColumn(row, (c, v) => v != "" && test(row.table, c))
  }

  function FindField(rows: seq<Row>, path: Option<string>, test: Test): Option<(Row, string)> {
    FirstHit(Scoped(rows, path), ColumnBy(test))
  }

  function ValueAt(hit: Option<(Row, string)>): Option<string> {
    if hit.Some? then Get(hit.value.0.values, hit.value.1) else None
  }

  function ScanValue(rows: seq<Row>, path: Option<string>, test: Test): Option<string> {
    ValueAt(FindField(rows, path, test))
  }

  method FindFirst(rows: seq<Row>, path: Option<string>, test: Test) returns (hit: Option<(Row, string)>)
    ensures hit == FindField(rows, path, test)
  {
    hide ColumnBy, Scoped;
    var scoped := ScopedRows(rows, path);
    hit := None;
    for i := 0 to |scoped|
      invariant hit.None? && FirstHit(scoped[..i], ColumnBy(test)) == None
    {
      assert scoped[..i + 1][..i] == scoped[..i] && scoped[..i] + scoped[i..] == scoped;
      var column := ColumnBy(test)(scoped[i]);
      if column.Some? {
        assert FirstHit(scoped[..i + 1], ColumnBy(test)) == Some((scoped[i], column.value));
        FirstHitConcat(scoped[..i + 1], scoped[i + 1..], ColumnBy(test));
        assert scoped[..i + 1] + scoped[i + 1..] == scoped;
        return Some((scoped[i], column.value));
      }
    }
    assert scoped[..|scoped|] == scoped;
  }

  /**
   * What a scoped lookup finds: a match in the branch if there is one, the first
   * among those that share most of the path; otherwise the first at root.
   */
  lemma LookupIsNearest(rows: seq<Row>, p: string, test: Test) returns (d: nat)
    ensures (exists row :: row in rows && BranchRow(p)(row) && ColumnBy(test)(row).Some?) ==>
      && FindField(rows, Some(p), test).Some?
      && FindField(rows, Some(p), test) == FirstHit(Filter(Filter(rows, BranchRow(p)), AtDepth(DepthTo(p), d)), ColumnBy(test))
      && forall row :: row in rows && BranchRow(p)(row) && ColumnBy(test)(row).Some? ==> DepthTo(p)(row) <= d
    ensures (forall row :: row in rows && BranchRow(p)(row) ==> ColumnBy(test)(row).None?) ==>
      FindField(rows, Some(p), test) == FirstHit(Filter(rows, RootRow), ColumnBy(test))
  {
    hide ColumnBy, BranchRow, DepthTo, RootRow, SortDeepest, Filter, FirstHit;
    var candidates, f := Filter(rows, BranchRow(p)), ColumnBy(test);
    var sorted := SortDeepest(candidates, DepthTo(p));
    FilterMembers(rows, BranchRow(p));
    SortOrders(candidates, DepthTo(p));
    FirstHitIff(sorted, f);
    FirstHitConcat(sorted, Filter(rows, RootRow), f);
    d := 0;
    if FirstHit(sorted, f).Some? {
      d := NearestHit(candidates, f, DepthTo(p));
    }
  }

  /** Only the rows in the branch and at root matter to a lookup. */
  lemma LookupIgnoresForeignRows(rows: seq<Row>, rows': seq<Row>, p: string, test: Test)
    requires Filter(rows, ScopeRow(p)) == Filter(rows', ScopeRow(p))
    ensures FindField(rows, Some(p), test) == FindField(rows', Some(p), test)
  {
    hide Filter, SortDeepest, FirstHit, InBranch;
    FilterTwice(rows, ScopeRow(p), BranchRow(p), BranchRow(p));
    FilterTwice(rows', ScopeRow(p), BranchRow(p), BranchRow(p));
    FilterTwice(rows, ScopeRow(p), RootRow, RootRow);
    FilterTwice(rows', ScopeRow(p), RootRow, RootRow);
  }

  // ---- Settlement date ----

  function Candidate(id: string): FieldRow -> bool {
    (f: FieldRow) => f.messageId == id && f.qualifier == Some("SETT") && |f.tag| >= 2 && f.tag[..2] == "98"
  }

  function BranchField(p: string): FieldRow -> bool {
    (f: FieldRow) => f.path.Some? && InBranch(f.path.value, p)
  }

  function FieldDepth(p: string): FieldRow -> nat {
    (f: FieldRow) => SharedDepth(if f.path.Some? then f.path.value else "", p)
  }

  function Candidates(fields: seq<FieldRow>, id: string, path: Option<string>): seq<FieldRow> {
    var all := Filter(fields, Candidate(id));
    match path
    case None => all
    case Some(p) => SortDeepest(Filter(all, BranchField(p)), FieldDepth(p))
  }

  /** The text after the last `//`. */
  function AfterSlashes(s: string): string {
    if |s| < 2 then s
    else if s[|s| - 2] == '/' && s[|s| - 1] == '/' then ""
    else AfterSlashes(s[..|s| - 1]) + [s[|s| - 1]]
  }

  function FormatDate(s: string): string {
    if |s| == 8 && AllDigits(s) then s[..4] + "-" + s[4..6] + "-" + s[6..8] else s
  }

  function SettlementDate(fields: seq<FieldRow>, id: string, path: Option<string>): Option<string> {
    var found := Candidates(fields, id, path);
    if found == [] then None else Some(FormatDate(AfterSlashes(found[0].rawValue)))
  }

  /** `t` is what follows the last `//` of `s`, or all of it. */
  ghost predicate IsLastPart(s: string, t: string) {
    && (s == t || exists before: string :: s == before + ("//" + t))
    && (s == t ==> NoSlashes(t)) && (s != t ==> NoSlashes("/" + t))
  }

  /** No two slashes in a row. */
  predicate NoSlashes(s: string) {
    forall k :: 0 <= k < |s| - 1 ==> !(s[k] == '/' && s[k + 1] == '/')
  }

  /** `t` is a year, a month and a day, in digits. */
  predicate IsDate(t: string, year: string, month: string, day: string) {
    && |year| == 4 && |month| == 2 && |day| == 2
    && t == year + (month + day)
    && forall k :: 0 <= k < 8 ==> t[k] in DIGITS
  }

  /** `date` is what the raw value of a field says after its last `//`: a date with hyphens, anything else as it stands. */
  ghost predicate Says(raw: string, date: string) {
    exists t: string :: IsLastPart(raw, t) && (
      (exists y: string, m: string, d: string :: IsDate(t, y, m, d) && date == y + ("-" + (m + ("-" + d)))) ||
      ((forall y: string, m: string, d: string :: !IsDate(t, y, m, d)) && date == t))
  }

  lemma {:induction false} AfterSlashesIsLast(s: string)
    ensures IsLastPart(s, AfterSlashes(s))
  {
    if |s| >= 2 {
      var init, c := s[..|s| - 1], s[|s| - 1];
      var t := AfterSlashes(s);
      if s[|s| - 2] == '/' && c == '/' {
        assert s == s[..|s| - 2] + ("//" + t);
      } else {
        AfterSlashesIsLast(init);
        var before := AfterSlashes(init);
        assert s == init + [c];
        if init != before {
          var x: string :| init == x + ("//" + before);
          assert s == x + ("//" + t);
          assert init[|init| - 1] == ("/" + before)[|before|];
          assert "/" + t == ("/" + before) + [c];
        }
      }
    }
  }

  lemma LastPartIsUnique(s: string, t: string, u: string)
    requires IsLastPart(s, t) && IsLastPart(s, u)
    ensures t == u
  {
    if |t| < |u| {
      ShorterIsNotLast(s, t, u);
    } else if |u| < |t| {
      ShorterIsNotLast(s, u, t);
    } else {
      assert t == s[|s| - |t|..] == u;
    }
  }

  /** What reaches back over `//` has two slashes in a row. */
  lemma SlashesInside(s: string, before: string, t: string, w: string)
    requires s == before + ("//" + t) && |t| + 2 <= |w| <= |s| && w == s[|s| - |w|..]
    ensures !NoSlashes(w)
  {
    var k := |w| - |t| - 2;
    assert s[|before|] == '/' && s[|before| + 1] == '/';
    assert w[k] == '/' && w[k + 1] == '/';
  }

  lemma ShorterIsNotLast(s: string, t: string, u: string)
    requires IsLastPart(s, u) && |t| < |u|
    ensures !IsLastPart(s, t)
  {
    if before: string :| s == before + ("//" + t) {
      var w := if s == u then u else "/" + u;
      assert w == s[|s| - |w|..];
      SlashesInside(s, before, t, w);
    }
  }

  lemma DateParts(t: string)
    ensures |t| == 8 && AllDigits(t) <==> exists y: string, m: string, d: string :: IsDate(t, y, m, d)
    ensures forall y: string, m: string, d: string :: IsDate(t, y, m, d) ==> y == t[..4] && m == t[4..6] && d == t[6..8]
  {
    if |t| == 8 && AllDigits(t) {
      assert IsDate(t, t[..4], t[4..6], t[6..8]);
    }
  }

  /** The date read from a raw value is what it says, and nothing else is. */
  lemma DateIsSaid(raw: string, date: string)
    ensures FormatDate(AfterSlashes(raw)) == date <==> Says(raw, date)
  {
    hide IsDate, AfterSlashes, IsLastPart;
    var last := AfterSlashes(raw);
    AfterSlashesIsLast(raw);
    DateParts(last);
    forall t: string | IsLastPart(raw, t)
      ensures t == last
    {
      LastPartIsUnique(raw, t, last);
    }
    if |last| == 8 && AllDigits(last) {
      var y, m, d := last[..4], last[4..6], last[6..8];
      assert y + "-" + m + "-" + d == y + ("-" + (m + ("-" + d)));
    }
  }

  /** The date of a transaction is what the first of the nearest qualified fields in its branch says; root fields never count. */
  lemma SettlementDateIsNearest(fields: seq<FieldRow>, id: string, p: string) returns (d: nat)
    ensures var inBranch := Filter(Filter(fields, Candidate(id)), BranchField(p));
      && (SettlementDate(fields, id, Some(p)).None? <==> inBranch == [])
      && (inBranch != [] ==>
            var nearest := Filter(inBranch, AtDepth(FieldDepth(p), d));
            && nearest != []
            && SettlementDate(fields, id, Some(p)).Some?
            && Says(nearest[0].rawValue, SettlementDate(fields, id, Some(p)).value)
            && forall f :: f in inBranch ==> FieldDepth(p)(f) <= d)
  {
    hide Filter, Candidate, BranchField, FieldDepth, SortDeepest, FormatDate, AfterSlashes, AtDepth, Says;
    var inBranch := Filter(Filter(fields, Candidate(id)), BranchField(p));
    var sorted := SortDeepest(inBranch, FieldDepth(p));
    SortOrders(inBranch, FieldDepth(p));
    d := 0;
    if sorted != [] {
      d := FieldDepth(p)(sorted[0]);
      assert sorted[0] in inBranch;
      SortIsStable(inBranch, FieldDepth(p), d);
      AtOwnDepth(sorted[0], FieldDepth(p));
      FirstOfFilter(sorted, AtDepth(FieldDepth(p), d));
      DateIsSaid(sorted[0].rawValue, SettlementDate(fields, id, Some(p)).value);
      forall f | f in inBranch
        ensures FieldDepth(p)(f) <= d
      {
        assert f in sorted;
        var i :| 0 <= i < |sorted| && sorted[i] == f;
      }
    }
  }

  /** A parsed field that carries a settlement date, in the branch of `path` if there is one. */
  predicate IsSettlementField(f: Sequences.Field, decode: Bytes -> string, path: Option<string>) {
    && f.qualifier.Some? && decode(f.qualifier.value) == "SETT"
    && |decode(f.tag)| >= 2 && decode(f.tag)[0] == '9' && decode(f.tag)[1] == '8'
    && (path.Some? ==> f.path != [] && InBranch(PathText(Decoded(f.path, decode)), path.value))
  }

  function Nearness(f: Sequences.Field, decode: Bytes -> string, path: Option<string>): nat {
    if path.None? || f.path == [] then 0 else SharedDepth(PathText(Decoded(f.path, decode)), path.value)
  }

  /** Field `k` carries a settlement date, and no other that does is nearer, or as near and earlier. */
  ghost predicate IsNearest(fields: seq<Sequences.Field>, decode: Bytes -> string, path: Option<string>, k: nat) {
    && k < |fields| && IsSettlementField(fields[k], decode, path)
    && forall j :: 0 <= j < |fields| && IsSettlementField(fields[j], decode, path) ==>
         var a, b := Nearness(fields[j], decode, path), Nearness(fields[k], decode, path); a < b || (a == b && k <= j)
  }

  function DateField(id: string, path: Option<string>): FieldRow -> bool {
    (f: FieldRow) => Candidate(id)(f) && (path.Some? ==> BranchField(path.value)(f))
  }

  lemma StoredDateField(id: string, f: Sequences.Field, decode: Bytes -> string, path: Option<string>)
    ensures var row := FieldOf(id, f, decode);
      && (DateField(id, path)(row) <==> IsSettlementField(f, decode, path))
      && (path.Some? && IsSettlementField(f, decode, path) ==> FieldDepth(path.value)(row) == Nearness(f, decode, path))
      && row.rawValue == decode(f.value)
  {
    hide PathText, InBranch, SharedDepth;
    var row, tag := FieldOf(id, f, decode), decode(f.tag);
    assert |tag| >= 2 && tag[0] == '9' && tag[1] == '8' ==> tag[..2] == ['9', '8'] == "98";
    assert |tag| >= 2 && tag[..2] == "98" ==> tag[0] == tag[..2][0] == '9' && tag[1] == tag[..2][1] == '8';
    assert Candidate(id)(row) <==>
      f.qualifier.Some? && decode(f.qualifier.value) == "SETT" && |tag| >= 2 && tag[0] == '9' && tag[1] == '8';
  }

  lemma CandidatesSorted(fields: seq<FieldRow>, id: string, path: Option<string>)
    ensures path.None? ==> Candidates(fields, id, path) == Filter(fields, DateField(id, path))
    ensures path.Some? ==> Candidates(fields, id, path) == SortDeepest(Filter(fields, DateField(id, path)), FieldDepth(path.value))
  {
    hide Candidate, BranchField, FieldDepth, Filter, SortDeepest;
    if path.Some? {
      FilterTwice(fields, Candidate(id), BranchField(path.value), DateField(id, path));
    } else {
      FilterAll(Filter(fields, Candidate(id)), Candidate(id)) by {
        FilterMembers(fields, Candidate(id));
      }
      FilterTwice(fields, Candidate(id), Candidate(id), DateField(id, path));
    }
  }

  lemma NearestIsFirst(
      parsed: seq<Sequences.Field>, fields: seq<FieldRow>, id: string, decode: Bytes -> string, path: Option<string>, k: nat)
    requires fields == FieldRows(id, parsed, decode) && IsNearest(parsed, decode, path, k)
    ensures Candidates(fields, id, path) != [] && Candidates(fields, id, path)[0] == fields[k]
  {
    hide Filter, SortDeepest, IsSettlementField, DateField, FieldDepth, FieldOf, Candidates, SharedDepth;
    forall j | 0 <= j < |fields|
      ensures DateField(id, path)(fields[j]) <==> IsSettlementField(parsed[j], decode, path)
      ensures path.Some? && IsSettlementField(parsed[j], decode, path) ==>
        FieldDepth(path.value)(fields[j]) == Nearness(parsed[j], decode, path)
    {
      StoredDateField(id, parsed[j], decode, path);
    }
    CandidatesSorted(fields, id, path);
    if path.Some? {
      FirstSorted(fields, DateField(id, path), FieldDepth(path.value), k);
    } else {
      FirstKept(fields, DateField(id, path), k);
    }
  }

  /**
   * From a parsed message to the settlement date: stored fields give the date that the
   * first of the nearest fields qualified `SETT` says in its decoded value, or none when
   * there is no such field.
   */
  lemma StoredSettlementDate(id: string, p: Parsed, decode: Bytes -> string, path: Option<string>)
    ensures var date := SettlementDate(Materialized(id, p, decode).fields, id, path);
      && (date == None <==> forall k :: 0 <= k < |p.fields| ==> !IsSettlementField(p.fields[k], decode, path))
      && forall k: nat :: IsNearest(p.fields, decode, path, k) ==> date.Some? && Says(decode(p.fields[k].value), date.value)
  {
    hide Filter, SortDeepest, IsSettlementField, DateField, FieldDepth, Nearness, FormatDate, AfterSlashes, Says, FieldOf, Rows, Candidates;
    var fields := FieldRows(id, p.fields, decode);
    forall k | 0 <= k < |fields|
      ensures DateField(id, path)(fields[k]) <==> IsSettlementField(p.fields[k], decode, path)
      ensures path.Some? && IsSettlementField(p.fields[k], decode, path) ==>
        FieldDepth(path.value)(fields[k]) == Nearness(p.fields[k], decode, path)
      ensures fields[k].rawValue == decode(p.fields[k].value)
    {
      StoredDateField(id, p.fields[k], decode, path);
    }
    CandidatesSorted(fields, id, path);
    FilterMembers(fields, DateField(id, path));
    var kept := Filter(fields, DateField(id, path));
    if path.Some? {
      SortOrders(kept, FieldDepth(path.value));
    }
    if kept != [] {
      assert kept[0] in fields;
      var k :| 0 <= k < |fields| && fields[k] == kept[0];
      assert IsSettlementField(p.fields[k], decode, path);
    } else {
      forall k | 0 <= k < |p.fields|
        ensures !IsSettlementField(p.fields[k], decode, path)
      {
        assert fields[k] in fields && fields[k] !in kept;
      }
    }
    forall k: nat | IsNearest(p.fields, decode, path, k)
      ensures var date := SettlementDate(fields, id, path); date.Some? && Says(decode(p.fields[k].value), date.value)
    {
      NearestIsFirst(p.fields, fields, id, decode, path, k);
      DateIsSaid(fields[k].rawValue, SettlementDate(fields, id, path).value);
    }
  }

  // ---- Events ----

  predicate WordAt(s: string, k: nat, word: string) {
    k + |word| <= |s| && s[k..k + |word|] == word
  }

  predicate Contains(s: string, word: string) {
    exists k | 0 <= k <= |s| :: WordAt(s, k, word)
  }

  /** Three capitals before a digit. */
  function CurrencyPrefix(s: string): Option<string> {
    if |s| > 3 && (forall k :: 0 <= k < 3 ==> 'A' <= s[k] <= 'Z') && '0' <= s[3] <= '9' then Some(s[..3]) else None
  }

  function Number(text: Option<string>, tools: Tools): Option<real> {
    if text.Some? then tools.toNumber(text.value) else None
  }

  function AmountField(rows: seq<Row>, path: Option<string>): Option<(Row, string)> {
    OrElse(FindField(rows, path, (t, c) => Contains(t, "transaction") && c == "amount"),
           FindField(rows, path, (t, c) => c == "amount"))
  }

  /** The currency is in the payload column beside the amount. */
  function Currency(amount: Option<(Row, string)>): Option<string> {
    if amount.None? then None
    else
      var (row, column) := amount.value;
      var payload := FirstColumn(row, (c, v) => column + "__render_" <= c);
      if payload.None? then None else CurrencyPrefix(row.values[payload.value])
  }

  /** A message-wide fallback: it is not scoped to the transaction. */
  function SenderReference(rows: seq<Row>): Option<string> {
    ScanValue(rows, None, (t, c) => t == "mt537_statement" && c == "sender_reference")
  }

  function LinkedReference(rows: seq<Row>, path: Option<string>): Option<string> {
    ScanValue(rows, path, (t, c) => t == "mt537_transaction_link" && c == "linked_reference")
  }

  const ScopedQuantity: Test := (t, c) => t == "settlement_quantity" && c == "quantity"
  const AnyQuantity: Test := (t, c) => c == "quantity"

  function QuantityText(rows: seq<Row>, path: Option<string>): Option<string> {
    OrElse(ScanValue(rows, path, ScopedQuantity), ScanValue(rows, path, AnyQuantity))
  }

  function AccountText(rows: seq<Row>, path: Option<string>): Option<string> {
    OrElse(ScanValue(rows, path, (t, c) => Contains(c, "safekeep")),
      OrElse(ScanValue(rows, path, (t, c) => t == "settlement_account" && Contains(c, "account")),
             ScanValue(rows, path, (t, c) => c == "account" && (Contains(t, "account") || Contains(t, "party")))))
  }

  function PartyText(rows: seq<Row>, path: Option<string>): Option<string> {
    OrElse(ScanValue(rows, path, (t, c) => t == "settlement_party" && c == "party"),
           ScanValue(rows, path, (t, c) => c == "party"))
  }

  function StatusText(rows: seq<Row>, path: Option<string>): Option<string> {
    OrElse(ScanValue(rows, path, (t, c) => c == "status_code" && Contains(t, "status")),
           ScanValue(rows, path, (t, c) => c == "status_code"))
  }

  function BuildEvent(
      msg: RawMessage, kind: Kind, rows: seq<Row>, fields: seq<FieldRow>, path: Option<string>,
      isin: Option<string>, description: Option<string>, tools: Tools): Event
  {
    var amount := AmountField(rows, path);
    Event(
      msg.messageId,
      OrElse(LinkedReference(rows, path), SenderReference(rows)),
      msg.messageType, kind, isin, description,
      Number(QuantityText(rows, path), tools),
      Number(ValueAt(amount), tools),
      Currency(amount),
      SettlementDate(fields, msg.messageId, path),
      AccountText(rows, path),
      PartyText(rows, path),
      StatusText(rows, path))
  }

  function OfMessage(id: string): Row -> bool {
    (row: Row) => Get(row.values, MESSAGE_ID) == Some(id)
  }

  function HasIsin(tools: Tools): Test {
    (c, v) => tools.extractIsin(v).0.Some?
  }

  /** The rows that yield an ISIN, each with its path. */
  function Instruments(rows: seq<Row>, tools: Tools): seq<Instrument> {
    if rows == [] then []
    else
      var row := rows[|rows| - 1];
      var column := FirstColumn(row, HasIsin(tools));
      Instruments(rows[..|rows| - 1], tools) +
      (if PathOf(row).None? || column.None? then []
       else
         var (isin, description) := tools.extractIsin(row.values[column.value]);
         [Instrument(PathOf(row).value, isin.value, description)])
  }

  function EventsOf(
      msg: RawMessage, kind: Kind, rows: seq<Row>, fields: seq<FieldRow>, instruments: seq<Instrument>, tools: Tools): seq<Event>
  {
    seq(|instruments|, i requires 0 <= i < |instruments| =>
      BuildEvent(msg, kind, rows, fields, Some(instruments[i].path), Some(instruments[i].isin), instruments[i].description, tools))
  }

  function NormalizeMessage(batch: Batch, msg: RawMessage, tools: Tools): seq<Event> {
    var kind := Classify(msg.messageType);
    if kind.Other? then []
    else
      var rows := Filter(batch.rows, OfMessage(msg.messageId));
      var instruments := Instruments(rows, tools);
      if instruments == [] then [BuildEvent(msg, kind, rows, batch.fields, None, None, None, tools)]
      else EventsOf(msg, kind, rows, batch.fields, instruments, tools)
  }

  function NormalizeAll(batch: Batch, messages: seq<RawMessage>, tools: Tools): seq<Event> {
    if messages == [] then []
    else NormalizeAll(batch, messages[..|messages| - 1], tools) + NormalizeMessage(batch, messages[|messages| - 1], tools)
  }

  function Normalize(batch: Batch, tools: Tools): seq<Event> {
    NormalizeAll(batch, batch.raw, tools)
  }

  // ---- Isolation ----

  lemma ScanIgnoresForeignRows(rows: seq<Row>, rows': seq<Row>, p: string, test: Test)
    requires Filter(rows, ScopeRow(p)) == Filter(rows', ScopeRow(p))
    ensures ScanValue(rows, Some(p), test) == ScanValue(rows', Some(p), test)
  {
    LookupIgnoresForeignRows(rows, rows', p, test);
  }

  lemma DateIgnoresForeignFields(fields: seq<FieldRow>, fields': seq<FieldRow>, id: string, p: string)
    requires Filter(fields, BranchField(p)) == Filter(fields', BranchField(p))
    ensures SettlementDate(fields, id, Some(p)) == SettlementDate(fields', id, Some(p))
  {
    hide Filter, SortDeepest, FormatDate, AfterSlashes, InBranch;
    var both := (f: FieldRow) => Candidate(id)(f) && BranchField(p)(f);
    FilterTwice(fields, Candidate(id), BranchField(p), both);
    FilterTwice(fields', Candidate(id), BranchField(p), both);
    FilterTwice(fields, BranchField(p), Candidate(id), both);
    FilterTwice(fields', BranchField(p), Candidate(id), both);
  }

  /**
   * The event of a transaction depends on the rows of its branch and of root scope
   * and on the fields of its branch only, exactly when it has a linked reference or
   * the message-wide one is the same.
   */
  lemma EventIgnoresForeignRows(
      msg: RawMessage, kind: Kind, rows: seq<Row>, rows': seq<Row>, fields: seq<FieldRow>, fields': seq<FieldRow>,
      p: string, isin: Option<string>, description: Option<string>, tools: Tools)
    requires Filter(rows, ScopeRow(p)) == Filter(rows', ScopeRow(p))
    requires Filter(fields, BranchField(p)) == Filter(fields', BranchField(p))
    ensures var a := BuildEvent(msg, kind, rows, fields, Some(p), isin, description, tools);
      var b := BuildEvent(msg, kind, rows', fields', Some(p), isin, description, tools);
      && a.(transactionRef := None) == b.(transactionRef := None)
      && (a == b <==> LinkedReference(rows, Some(p)).Some? || SenderReference(rows) == SenderReference(rows'))
  {
    hide ScanValue, FindField, Filter, ScopeRow, BranchField, SettlementDate, Currency, Number, ValueAt, Contains, SenderReference;
    forall test: Test
      ensures ScanValue(rows, Some(p), test) == ScanValue(rows', Some(p), test)
      ensures FindField(rows, Some(p), test) == FindField(rows', Some(p), test)
    {
      ScanIgnoresForeignRows(rows, rows', p, test);
      LookupIgnoresForeignRows(rows, rows', p, test);
    }
    DateIgnoresForeignFields(fields, fields', msg.messageId, p);
  }

  /** The row's path is printed from these frames. */
  predicate HasPath(row: Row, c: seq<TextFrame>) {
    PathOf(row) == Some(PathText(c))
  }

  /** A row below another top-level occurrence is foreign to an instrument. */
  lemma OtherOccurrencesAreForeign(row: Row, c: seq<TextFrame>, p: seq<TextFrame>)
    requires Plain(c) && Plain(p) && c != [] && p != [] && HasPath(row, c)
    requires c[0].occurrence != p[0].occurrence
    ensures !ScopeRow(PathText(p))(row)
  {
    hide PathText, InBranch, Related;
    BranchIsStructural(c, p);
    SameTop(c, p);
    PathIsNotRoot(c);
    assert PathOf(row).value == PathText(c);
    assert !BranchRow(PathText(p))(row) && !RootRow(row);
  }

  lemma PathIsNotRoot(c: seq<TextFrame>)
    requires Plain(c) && c != []
    ensures PathText(c) != "$"
  {}

  predicate FieldHasPath(f: FieldRow, c: seq<TextFrame>) {
    f.path == Some(PathText(c))
  }

  lemma OtherFieldsAreForeign(f: FieldRow, c: seq<TextFrame>, p: seq<TextFrame>)
    requires Plain(c) && Plain(p) && c != [] && p != [] && FieldHasPath(f, c)
    requires c[0].occurrence != p[0].occurrence
    ensures !BranchField(PathText(p))(f)
  {
    hide PathText, InBranch, Related;
    BranchIsStructural(c, p);
    SameTop(c, p);
  }

  /** Elements that the filter drops can be left out. */
  lemma FilterWithout<T(!new)>(before: seq<T>, other: seq<T>, after: seq<T>, keep: T -> bool)
    requires forall x :: x in other ==> !keep(x)
    ensures Filter(before + other + after, keep) == Filter(before + after, keep)
  {
    hide Filter;
    FilterNone(other, keep);
    FilterConcat(before + other, after, keep);
    FilterConcat(before, other, keep);
    FilterConcat(before, after, keep);
    assert Filter(before, keep) + [] == Filter(before, keep);
  }

  /** This row's path begins with another occurrence than the instrument's. */
  ghost predicate OtherRow(row: Row, p: seq<TextFrame>)
    requires p != []
  {
    exists c: seq<TextFrame> :: Plain(c) && c != [] && HasPath(row, c) && c[0].occurrence != p[0].occurrence
  }

  ghost predicate OtherField(f: FieldRow, p: seq<TextFrame>)
    requires p != []
  {
    exists c: seq<TextFrame> :: Plain(c) && c != [] && FieldHasPath(f, c) && c[0].occurrence != p[0].occurrence
  }

  /**
   * Transactions do not contaminate each other: rows and fields of other top-level
   * occurrences, wherever they stand, change nothing in a transaction's event but
   * possibly its fallback reference.
   */
  lemma OtherTransactionsDoNotMatter(
      msg: RawMessage, kind: Kind, before: seq<Row>, other: seq<Row>, after: seq<Row>,
      first: seq<FieldRow>, foreign: seq<FieldRow>, last: seq<FieldRow>,
      p: seq<TextFrame>, isin: Option<string>, description: Option<string>, tools: Tools)
    requires Plain(p) && p != []
    requires forall row :: row in other ==> OtherRow(row, p)
    requires forall f :: f in foreign ==> OtherField(f, p)
    ensures var path := Some(PathText(p));
      var a := BuildEvent(msg, kind, before + other + after, first + foreign + last, path, isin, description, tools);
      var b := BuildEvent(msg, kind, before + after, first + last, path, isin, description, tools);
      && a.(transactionRef := None) == b.(transactionRef := None)
      && (LinkedReference(before + after, path).Some? ==> a == b)
  {
    hide BuildEvent, ScopeRow, BranchField, Filter, HasPath, FieldHasPath, PathText, Plain, LinkedReference;
    var text := PathText(p);
    forall row | row in other
      ensures !ScopeRow(text)(row)
    {
      var c: seq<TextFrame> :| Plain(c) && c != [] && HasPath(row, c) && c[0].occurrence != p[0].occurrence;
      OtherOccurrencesAreForeign(row, c, p);
    }
    forall f | f in foreign
      ensures !BranchField(text)(f)
    {
      var c: seq<TextFrame> :| Plain(c) && c != [] && FieldHasPath(f, c) && c[0].occurrence != p[0].occurrence;
      OtherFieldsAreForeign(f, c, p);
    }
    FilterWithout(before, other, after, ScopeRow(text));
    FilterWithout(first, foreign, last, BranchField(text));
    EventIgnoresForeignRows(msg, kind, before + after, before + other + after, first + last, first + foreign + last,
                            text, isin, description, tools);
  }

  /** One captured value, the same before and after normalising. */
  function Capture(field: nat, table: string, column: string, value: string): Match {
    Match(field, table, column, "value", value, value)
  }

  /** The row of one capture below `c`. */
  function OneColumn(table: string, id: string, c: seq<TextFrame>, column: string, value: string): Row {
    NormalizedRow(id, PathText(c), Capture(0, table, column, value))
  }

  /** Field 0 lies at `p`, the others at `q`. */
  function TwoPaths(p: seq<TextFrame>, q: seq<TextFrame>): nat -> string {
    i => if i == 0 then PathText(p) else PathText(q)
  }

  /** What a message with an instrument at `p` becomes when `other` is captured besides, at `q`. */
  function StoredBatch(msg: RawMessage, fields: seq<FieldRow>, p: seq<TextFrame>, blob: string, q: seq<TextFrame>, others: seq<Match>): Batch {
    Batch([msg], fields, [],
          Rows(msg.messageId, TwoPaths(p, q), [Capture(0, "instrument", "instrument", blob)] + others))
  }

  /** `blob` holds an ISIN and the other texts do not. */
  predicate OnlyIsin(tools: Tools, blob: string, others: seq<string>) {
    tools.extractIsin(blob).0.Some? && forall k :: 0 <= k < |others| ==> tools.extractIsin(others[k]).0.None?
  }

  predicate NoIsin(row: Row, tools: Tools) {
    forall c :: c in row.values ==> tools.extractIsin(row.values[c]).0.None?
  }

  lemma TwoRows(id: string, path: nat -> string, a: Match, b: Match)
    requires a.entity != b.entity
    ensures Rows(id, path, [a]) == [NormalizedRow(id, path(a.field), a)]
    ensures Rows(id, path, [a, b]) == [NormalizedRow(id, path(a.field), a), NormalizedRow(id, path(b.field), b)]
  {
    assert [a][..0] == [] && [a, b][..1] == [a];
  }

  lemma FindsOneColumn(table: string, id: string, c: seq<TextFrame>, column: string, value: string, test: Test)
    requires column != SEQUENCE_PATH && column != MESSAGE_ID && value != "" && test(table, column)
    requires forall k :: k != column ==> !test(table, k)
    ensures ColumnBy(test)(OneColumn(table, id, c, column, value)) == Some(column)
  {
    hide PathText;
    var row := OneColumn(table, id, c, column, value);
    var found := FirstColumn(row, (k, v) => v != "" && test(row.table, k));
    var keys := set k | k in row.values && row.values[k] != "" && test(row.table, k);
    assert keys == {column};
    assert found == Least(keys);
  }

  /** Where no row has a usable column a lookup finds nothing. */
  lemma NoHit(rows: seq<Row>, path: Option<string>, test: Test)
    requires forall r :: r in rows ==> ColumnBy(test)(r).None?
    ensures FindField(rows, path, test) == None
  {
    hide ColumnBy, BranchRow, DepthTo, RootRow, SortDeepest, Filter, FirstHit;
    if path.Some? {
      FilterMembers(rows, BranchRow(path.value));
      FilterMembers(rows, RootRow);
      SortOrders(Filter(rows, BranchRow(path.value)), DepthTo(path.value));
    }
    FirstHitIff(Scoped(rows, path), ColumnBy(test));
  }

  lemma NoColumn(row: Row, test: Test)
    requires forall c :: c in row.values ==> !test(row.table, c)
    ensures ColumnBy(test)(row).None?
  {
    var keys := set c | c in row.values && row.values[c] != "" && test(row.table, c);
    assert keys == {};
  }

  lemma {:induction false} OneInstrument(own: Row, column: string, rest: seq<Row>, tools: Tools)
    requires PathOf(own).Some? && FirstColumn(own, HasIsin(tools)) == Some(column)
    requires forall row :: row in rest ==> NoIsin(row, tools)
    ensures var (isin, description) := tools.extractIsin(own.values[column]);
      Instruments([own] + rest, tools) == [Instrument(PathOf(own).value, isin.value, description)]
  {
    var rows := [own] + rest;
    if rest == [] {
      assert rows[..0] == [] && rows[0] == own;
    } else {
      var last := rest[|rest| - 1];
      assert rows[..|rows| - 1] == [own] + rest[..|rest| - 1] && rows[|rows| - 1] == last;
      OneInstrument(own, column, rest[..|rest| - 1], tools);
      assert last in rest;
      assert (set c | c in last.values && HasIsin(tools)(c, last.values[c])) == {};
    }
  }

  /** The instrument's row yields its ISIN, from the column or the payload beside it. */
  lemma InstrumentRow(id: string, p: seq<TextFrame>, blob: string, tools: Tools) returns (column: string)
    requires OnlyIsin(tools, blob, [id, PathText(p)])
    ensures var own := OneColumn("instrument", id, p, "instrument", blob);
      && FirstColumn(own, HasIsin(tools)) == Some(column)
      && own.values[column] == blob
  {
    hide PathText;
    var own := OneColumn("instrument", id, p, "instrument", blob);
    var texts := [id, PathText(p)];
    assert texts[0] == id && texts[1] == PathText(p);
    var keys := set c | c in own.values && HasIsin(tools)(c, own.values[c]);
    assert "instrument" in keys;
    assert FirstColumn(own, HasIsin(tools)) == Least(keys);
    column := Least(keys).value;
  }

  /** The one event of such a message. */
  function InstrumentEvent(msg: RawMessage, rows: seq<Row>, fields: seq<FieldRow>, p: seq<TextFrame>, blob: string, tools: Tools): Event {
    var (isin, description) := tools.extractIsin(blob);
    BuildEvent(msg, Classify(msg.messageType), rows, fields, Some(PathText(p)), isin, description, tools)
  }

  lemma NormalizeOne(batch: Batch, msg: RawMessage, p: seq<TextFrame>, blob: string, rest: seq<Row>, tools: Tools)
    requires batch.raw == [msg] && !Classify(msg.messageType).Other?
    requires batch.rows == [OneColumn("instrument", msg.messageId, p, "instrument", blob)] + rest
    requires forall row :: row in rest ==> OfMessage(msg.messageId)(row) && NoIsin(row, tools)
    requires OnlyIsin(tools, blob, [msg.messageId, PathText(p)])
    ensures Normalize(batch, tools) == [InstrumentEvent(msg, batch.rows, batch.fields, p, blob, tools)]
  {
    hide PathText, BuildEvent, Classify, Filter, Instruments, FirstColumn;
    var own := OneColumn("instrument", msg.messageId, p, "instrument", blob);
    var column := InstrumentRow(msg.messageId, p, blob, tools);
    assert OfMessage(msg.messageId)(own) && PathOf(own) == Some(PathText(p));
    FilterAll(batch.rows, OfMessage(msg.messageId));
    OneInstrument(own, column, rest, tools);
    assert batch.raw[..0] == [];
    assert NormalizeAll(batch, [], tools) == [];
    assert NormalizeAll(batch, [msg], tools) == NormalizeMessage(batch, msg, tools);
    assert EventsOf(msg, Classify(msg.messageType), batch.rows, batch.fields, Instruments(batch.rows, tools), tools)
        == [InstrumentEvent(msg, batch.rows, batch.fields, p, blob, tools)];
  }

  /** Both batches, with the instrument alone and with one more capture, as rows and as events. */
  lemma StoredEvents(msg: RawMessage, fields: seq<FieldRow>, p: seq<TextFrame>, blob: string, q: seq<TextFrame>, other: Match, tools: Tools)
    requires !Classify(msg.messageType).Other? && other.field == 1 && other.entity != "instrument"
    requires other.column != MESSAGE_ID && other.column != SEQUENCE_PATH
    requires OnlyIsin(tools, blob, [msg.messageId, PathText(p), PathText(q), other.capture, other.value])
    ensures var own, extra := OneColumn("instrument", msg.messageId, p, "instrument", blob), NormalizedRow(msg.messageId, PathText(q), other);
      && StoredBatch(msg, fields, p, blob, q, []).rows == [own]
      && StoredBatch(msg, fields, p, blob, q, [other]).rows == [own, extra]
      && Normalize(StoredBatch(msg, fields, p, blob, q, []), tools) == [InstrumentEvent(msg, [own], fields, p, blob, tools)]
      && Normalize(StoredBatch(msg, fields, p, blob, q, [other]), tools) == [InstrumentEvent(msg, [own, extra], fields, p, blob, tools)]
  {
    hide PathText, BuildEvent, Classify, Normalize, Rows;
    var id, capture := msg.messageId, Capture(0, "instrument", "instrument", blob);
    var own, extra := OneColumn("instrument", id, p, "instrument", blob), NormalizedRow(id, PathText(q), other);
    assert [capture] + [] == [capture] && [capture] + [other] == [capture, other];
    TwoRows(id, TwoPaths(p, q), capture, other);
    var texts := [id, PathText(p), PathText(q), other.capture, other.value];
    assert texts[0] == id && texts[1] == PathText(p) && texts[2] == PathText(q) && texts[3] == other.capture && texts[4] == other.value;
    assert OnlyIsin(tools, blob, [id, PathText(p)]);
    RenderColumnIsFree(other);
    assert OfMessage(id)(extra) && NoIsin(extra, tools);
    assert [own] + [] == [own] && [own] + [extra] == [own, extra];
    NormalizeOne(StoredBatch(msg, fields, p, blob, q, []), msg, p, blob, [], tools);
    NormalizeOne(StoredBatch(msg, fields, p, blob, q, [other]), msg, p, blob, [extra], tools);
  }

  /**
   * A foreign row can change the event: one sender reference, captured in a sequence of
   * another top-level occurrence, becomes the reference of the message's one event.
   */
  lemma ForeignReferenceLeaks(
      msg: RawMessage, fields: seq<FieldRow>, p: seq<TextFrame>, blob: string, c: seq<TextFrame>, reference: string, tools: Tools)
    requires !Classify(msg.messageType).Other? && reference != ""
    requires Plain(c) && Plain(p) && c != [] && p != [] && c[0].occurrence != p[0].occurrence
    requires OnlyIsin(tools, blob, [msg.messageId, PathText(p), PathText(c), reference, reference])
    ensures var other := Capture(1, "mt537_statement", "sender_reference", reference);
      var without, with := StoredBatch(msg, fields, p, blob, c, []), StoredBatch(msg, fields, p, blob, c, [other]);
      var before, after := Normalize(without, tools), Normalize(with, tools);
      && Filter(with.rows, ScopeRow(PathText(p))) == Filter(without.rows, ScopeRow(PathText(p)))
      && |before| == |after| == 1 && before[0].isin == after[0].isin == tools.extractIsin(blob).0
      && before[0].transactionRef == None && after[0].transactionRef == Some(reference)
  {
    hide PathText, ScopeRow, SettlementDate, Currency, Number, Contains, AmountField, Classify, Normalize, Rows, FindField, Filter;
    var id := msg.messageId;
    var other := Capture(1, "mt537_statement", "sender_reference", reference);
    StoredEvents(msg, fields, p, blob, c, other, tools);
    var own, extra := OneColumn("instrument", id, p, "instrument", blob), OneColumn("mt537_statement", id, c, "sender_reference", reference);
    OtherOccurrencesAreForeign(extra, c, p);
    FilterConcat([own], [extra], ScopeRow(PathText(p)));
    FilterOne(extra, ScopeRow(PathText(p)));
    assert [own] + [extra] == [own, extra];
    ReferenceOf(own, extra, PathText(p), id, c, reference);
  }

  lemma ReferenceOf(own: Row, extra: Row, path: string, id: string, c: seq<TextFrame>, reference: string)
    requires own.table == "instrument" && extra == OneColumn("mt537_statement", id, c, "sender_reference", reference) && reference != ""
    ensures LinkedReference([own], Some(path)) == LinkedReference([own, extra], Some(path)) == None
    ensures SenderReference([own]) == None && SenderReference([own, extra]) == Some(reference)
  {
    hide PathText, BranchRow, Scoped;
    var linked: Test := (t, k) => t == "mt537_transaction_link" && k == "linked_reference";
    var sender: Test := (t, k) => t == "mt537_statement" && k == "sender_reference";
    NoColumn(own, linked);
    NoColumn(own, sender);
    NoColumn(extra, linked);
    NoHit([own], Some(path), linked);
    NoHit([own, extra], Some(path), linked);
    NoHit([own], None, sender);
    FindsOneColumn("mt537_statement", id, c, "sender_reference", reference, sender);
    OnlyHitAnywhere([own, extra], sender, extra, "sender_reference");
  }

  lemma OnlyHitAnywhere(rows: seq<Row>, test: Test, row: Row, column: string)
    requires row in rows && ColumnBy(test)(row) == Some(column)
    requires forall r :: r in rows && r != row ==> ColumnBy(test)(r).None?
    ensures FindField(rows, None, test) == Some((row, column))
  {
    hide ColumnBy, FirstHit;
    FirstHitIff(rows, ColumnBy(test));
  }

  // ---- Which instruments are kept apart ----

  /** The row's path is `q` or lies below it. */
  ghost predicate Below(row: Row, q: seq<TextFrame>) {
    exists c: seq<TextFrame> :: Plain(c) && HasPath(row, c) && q <= c
  }

  ghost function NotBelow(q: seq<TextFrame>): Row -> bool {
    row => !Below(row, q)
  }

  lemma BelowInScope(row: Row, p: seq<TextFrame>, q: seq<TextFrame>)
    requires Plain(p) && p != [] && q != [] && !(p <= q) && !(q <= p)
    requires Below(row, q) && ScopeRow(PathText(p))(row)
    ensures Mixes(p, q)
  {
    hide PathText, InBranch, Related, Plain, Mixes;
    var c: seq<TextFrame> :| Plain(c) && HasPath(row, c) && q <= c;
    PathIsNotRoot(c);
    BranchIsStructural(c, p);
    assert PathOf(row).value == PathText(c);
    assert BranchRow(PathText(p))(row);
    assert q <= c && Related(c, p);
    InstrumentsKeptApartIff(p, q);
  }

  lemma MixedInBranch(row: Row, p: seq<TextFrame>, q: seq<TextFrame>)
    requires Plain(p) && Plain(q) && p != [] && q != [] && !(p <= q) && !(q <= p)
    requires Mixes(p, q) && HasPath(row, q)
    ensures BranchRow(PathText(p))(row) && ScopeRow(PathText(p))(row) && Below(row, q)
  {
    hide PathText, InBranch, Related, Plain, Mixes, SharedLength;
    PathIsNotRoot(q);
    BranchIsStructural(q, p);
    SharedLengthBelow(q, q, p);
    MixesRelated(p, q);
    assert q <= q;
  }

  /** The one row with a usable column is what the lookup finds. */
  lemma OnlyHit(rows: seq<Row>, p: string, test: Test, row: Row, column: string)
    requires row in rows && ScopeRow(p)(row) && ColumnBy(test)(row) == Some(column)
    requires forall r :: r in rows && r != row ==> ColumnBy(test)(r).None?
    ensures FindField(rows, Some(p), test) == Some((row, column))
  {
    hide ColumnBy, BranchRow, DepthTo, RootRow, SortDeepest, Filter, FirstHit;
    var candidates := Filter(rows, BranchRow(p));
    FilterMembers(rows, BranchRow(p));
    FilterMembers(rows, RootRow);
    SortOrders(candidates, DepthTo(p));
    FirstHitIff(Scoped(rows, Some(p)), ColumnBy(test));
    assert row in SortDeepest(candidates, DepthTo(p)) || row in Filter(rows, RootRow);
    assert row in Scoped(rows, Some(p));
  }

  ghost predicate SameLookups(rows: seq<Row>, p: seq<TextFrame>, q: seq<TextFrame>) {
    forall test: Test :: FindField(rows, Some(PathText(p)), test) == FindField(Filter(rows, NotBelow(q)), Some(PathText(p)), test)
  }

  ghost predicate AllOf(rows: seq<Row>, id: string) {
    forall row :: row in rows ==> OfMessage(id)(row)
  }

  /**
   * Of two instruments, neither on the other's path: the rows at or below one can
   * be dropped without changing any lookup of the other exactly when the two are
   * neither siblings nor cousins of one occurrence. Rows of one message suffice to tell.
   */
  lemma LookupsKeptApartIff(id: string, p: seq<TextFrame>, q: seq<TextFrame>)
    requires Plain(p) && Plain(q) && p != [] && q != [] && !(p <= q) && !(q <= p)
    ensures !Mixes(p, q) <==> forall rows: seq<Row> :: AllOf(rows, id) ==> SameLookups(rows, p, q)
    ensures !Mixes(p, q) <==> forall rows: seq<Row> :: SameLookups(rows, p, q)
  {
    hide PathText, ScopeRow, FindField, Filter, Plain, Mixes, Below;
    var path := PathText(p);
    if Mixes(p, q) {
      var row := OneColumn("settlement_quantity", id, q, "quantity", "1");
      MixedInBranch(row, p, q);
      FindsOneColumn("settlement_quantity", id, q, "quantity", "1", ScopedQuantity);
      OnlyHit([row], path, ScopedQuantity, row, "quantity");
      FilterOne(row, NotBelow(q));
      NoHit([], Some(path), ScopedQuantity);
      assert FindField([row], Some(path), ScopedQuantity) != FindField(Filter([row], NotBelow(q)), Some(path), ScopedQuantity);
      assert AllOf([row], id) && !SameLookups([row], p, q);
    } else {
      forall rows: seq<Row>
        ensures SameLookups(rows, p, q)
      {
        KeptApart(rows, p, q);
        forall test: Test
          ensures FindField(rows, Some(path), test) == FindField(Filter(rows, NotBelow(q)), Some(path), test)
        {
          LookupIgnoresForeignRows(rows, Filter(rows, NotBelow(q)), path, test);
        }
      }
    }
  }

  lemma KeptApart(rows: seq<Row>, p: seq<TextFrame>, q: seq<TextFrame>)
    requires Plain(p) && p != [] && q != [] && !(p <= q) && !(q <= p) && !Mixes(p, q)
    ensures Filter(rows, ScopeRow(PathText(p))) == Filter(Filter(rows, NotBelow(q)), ScopeRow(PathText(p)))
  {
    hide Filter, PathText, Plain, Mixes, ScopeRow, Below;
    var path := PathText(p);
    forall row: Row
      ensures ScopeRow(path)(row) == (NotBelow(q)(row) && ScopeRow(path)(row))
    {
      if Below(row, q) && ScopeRow(path)(row) {
        BelowInScope(row, p, q);
      }
    }
    FilterTwice(rows, NotBelow(q), ScopeRow(path), ScopeRow(path));
  }

  /** The field's path is `q` or lies below it. */
  ghost predicate FieldBelow(f: FieldRow, q: seq<TextFrame>) {
    exists c: seq<TextFrame> :: Plain(c) && FieldHasPath(f, c) && q <= c
  }

  ghost function FieldNotBelow(q: seq<TextFrame>): FieldRow -> bool {
    f => !FieldBelow(f, q)
  }

  lemma FieldBelowInBranch(f: FieldRow, p: seq<TextFrame>, q: seq<TextFrame>)
    requires Plain(p) && p != [] && q != [] && !(p <= q) && !(q <= p)
    requires FieldBelow(f, q) && BranchField(PathText(p))(f)
    ensures Mixes(p, q)
  {
    hide PathText, InBranch, Related, Plain, Mixes;
    var c: seq<TextFrame> :| Plain(c) && FieldHasPath(f, c) && q <= c;
    BranchIsStructural(c, p);
    assert q <= c && Related(c, p);
    InstrumentsKeptApartIff(p, q);
  }

  lemma FieldsKeptApart(fields: seq<FieldRow>, p: seq<TextFrame>, q: seq<TextFrame>)
    requires Plain(p) && p != [] && q != [] && !(p <= q) && !(q <= p) && !Mixes(p, q)
    ensures Filter(fields, BranchField(PathText(p))) == Filter(Filter(fields, FieldNotBelow(q)), BranchField(PathText(p)))
  {
    hide Filter, PathText, Plain, Mixes, BranchField, FieldBelow;
    var path := PathText(p);
    forall f: FieldRow
      ensures BranchField(path)(f) == (FieldNotBelow(q)(f) && BranchField(path)(f))
    {
      if FieldBelow(f, q) && BranchField(path)(f) {
        FieldBelowInBranch(f, p, q);
      }
    }
    FilterTwice(fields, FieldNotBelow(q), BranchField(path), BranchField(path));
  }

  /**
   * Then the event of one, its fallback reference aside, is the same with the other's
   * rows and fields dropped, and the whole event is when it has a linked reference or
   * the fallback stays.
   */
  lemma EventsKeptApart(
      msg: RawMessage, kind: Kind, rows: seq<Row>, fields: seq<FieldRow>, p: seq<TextFrame>, q: seq<TextFrame>,
      isin: Option<string>, description: Option<string>, tools: Tools)
    requires Plain(p) && p != [] && q != [] && !(p <= q) && !(q <= p) && !Mixes(p, q)
    ensures var path := Some(PathText(p));
      var rows', fields' := Filter(rows, NotBelow(q)), Filter(fields, FieldNotBelow(q));
      var a, b := BuildEvent(msg, kind, rows, fields, path, isin, description, tools),
                  BuildEvent(msg, kind, rows', fields', path, isin, description, tools);
      && a.(transactionRef := None) == b.(transactionRef := None)
      && (a == b <==> LinkedReference(rows, path).Some? || SenderReference(rows) == SenderReference(rows'))
  {
    hide Filter, PathText, Plain, Mixes, ScopeRow, BranchField, Below, FieldBelow, BuildEvent, LinkedReference, SenderReference;
    KeptApart(rows, p, q);
    FieldsKeptApart(fields, p, q);
    EventIgnoresForeignRows(msg, kind, rows, Filter(rows, NotBelow(q)), fields, Filter(fields, FieldNotBelow(q)),
                            PathText(p), isin, description, tools);
  }

  /** Otherwise a message's one event can carry the quantity captured beside its instrument: it has none without. */
  lemma SiblingQuantityLeaks(
      msg: RawMessage, fields: seq<FieldRow>, p: seq<TextFrame>, blob: string, q: seq<TextFrame>, quantity: string, tools: Tools)
    requires !Classify(msg.messageType).Other? && quantity != ""
    requires Plain(p) && Plain(q) && p != [] && q != [] && !(p <= q) && !(q <= p) && Mixes(p, q)
    requires OnlyIsin(tools, blob, [msg.messageId, PathText(p), PathText(q), quantity, quantity])
    ensures var other := Capture(1, "settlement_quantity", "quantity", quantity);
      var before := Normalize(StoredBatch(msg, fields, p, blob, q, []), tools);
      var after := Normalize(StoredBatch(msg, fields, p, blob, q, [other]), tools);
      && |before| == |after| == 1 && before[0].isin == after[0].isin == tools.extractIsin(blob).0
      && before[0].quantity == None && after[0].quantity == tools.toNumber(quantity)
  {
    hide PathText, Plain, Mixes, FindField, BranchRow, Below, SettlementDate, Currency, Contains, LinkedReference, AmountField,
      SenderReference, Classify, Normalize, Rows;
    var id, path := msg.messageId, PathText(p);
    StoredEvents(msg, fields, p, blob, q, Capture(1, "settlement_quantity", "quantity", quantity), tools);
    var own, extra := OneColumn("instrument", id, p, "instrument", blob), OneColumn("settlement_quantity", id, q, "quantity", quantity);
    NoColumn(own, ScopedQuantity);
    NoColumn(own, AnyQuantity);
    NoHit([own], Some(path), ScopedQuantity);
    NoHit([own], Some(path), AnyQuantity);
    MixedInBranch(extra, p, q);
    FindsOneColumn("settlement_quantity", id, q, "quantity", quantity, ScopedQuantity);
    OnlyHit([own, extra], path, ScopedQuantity, extra, "quantity");
  }

  // ---- What one capture makes of an event ----

  lemma ContainsIff(s: string, word: string)
    ensures Contains(s, word) <==> exists before: string, after: string :: s == before + (word + after)
  {
    if Contains(s, word) {
      var k :| 0 <= k <= |s| && WordAt(s, k, word);
      assert s == s[..k] + (word + s[k + |word|..]);
    }
    if before: string, after: string :| s == before + (word + after) {
      assert s[|before|..|before| + |word|] == word;
      assert WordAt(s, |before|, word);
    }
  }

  /** `c` is three capitals at the front of `s`, a digit next to them. */
  ghost predicate IsCurrency(c: string, s: string) {
    && |c| == 3 && (forall k :: 0 <= k < 3 ==> c[k] in CAPITALS)
    && exists digit: char, rest: string :: digit in DIGITS && s == c + ([digit] + rest)
  }

  lemma CurrencyPrefixIff(s: string, c: string)
    ensures CurrencyPrefix(s) == Some(c) <==> IsCurrency(c, s)
  {
    if CurrencyPrefix(s) == Some(c) {
      CapitalIff(c[0]);
      CapitalIff(c[1]);
      CapitalIff(c[2]);
      assert s == c + ([s[3]] + s[4..]);
    }
    if IsCurrency(c, s) {
      CapitalIff(c[0]);
      CapitalIff(c[1]);
      CapitalIff(c[2]);
      var digit: char, rest: string :| digit in DIGITS && s == c + ([digit] + rest);
      assert s[..3] == c && s[3] == digit;
    }
  }

  /** The payload beside an amount is found, whatever it is called. */
  lemma CurrencyOfCapture(id: string, path: string, m: Match, c: string)
    requires m.column == "amount"
    ensures Currency(Some((NormalizedRow(id, path, m), "amount"))) == Some(c) <==> IsCurrency(c, m.capture)
  {
    hide CurrencyPrefix, IsCurrency;
    var row := NormalizedRow(id, path, m);
    var test: Test := (k, v) => "amount" + "__render_" <= k;
    RenderColumnIsFree(m);
    var keys := set k | k in row.values && test(k, row.values[k]);
    assert RenderColumn(m) == "amount" + ("__render_" + m.suffix) == "amount" + "__render_" + m.suffix;
    assert keys == {RenderColumn(m)};
    assert FirstColumn(row, test) == Least(keys) == Some(RenderColumn(m));
    CurrencyPrefixIff(m.capture, c);
  }

  lemma OneCapture(id: string, path: string, m: Match, test: Test)
    requires m.column != SEQUENCE_PATH && m.column != MESSAGE_ID && m.value != ""
    requires test(m.entity, m.column) && forall k :: k != m.column ==> !test(m.entity, k)
    ensures ColumnBy(test)(NormalizedRow(id, path, m)) == Some(m.column)
  {
    var row := NormalizedRow(id, path, m);
    var keys := set k | k in row.values && row.values[k] != "" && test(row.table, k);
    assert keys == {m.column};
    assert FirstColumn(row, (k, v) => v != "" && test(row.table, k)) == Least(keys);
  }

  /** A column that two tests name is what the first of them finds, or else the second. */
  lemma EitherFinds(own: Row, extra: Row, p: string, first: Test, second: Test, column: string)
    requires own.table != extra.table && ScopeRow(p)(extra)
    requires ColumnBy(second)(extra) == Some(column) && ColumnBy(second)(own).None? && ColumnBy(first)(own).None?
    requires ColumnBy(first)(extra).None? || ColumnBy(first)(extra) == Some(column)
    ensures OrElse(FindField([own, extra], Some(p), first), FindField([own, extra], Some(p), second)) == Some((extra, column))
  {
    hide ColumnBy, FindField, ScopeRow;
    OnlyHit([own, extra], p, second, extra, column);
    if ColumnBy(first)(extra).None? {
      NoHit([own, extra], Some(p), first);
    } else {
      OnlyHit([own, extra], p, first, extra, column);
    }
  }

  lemma CaptureInScope(id: string, p: string, path: string, m: Match)
    requires m.column != SEQUENCE_PATH && (path == "$" || InBranch(path, p))
    ensures ScopeRow(p)(NormalizedRow(id, path, m))
  {
    RenderColumnIsFree(m);
    assert PathSegments("$") == [];
    var row := NormalizedRow(id, path, m);
    assert PathOf(row) == Some(path);
    assert if path == "$" then RootRow(row) else BranchRow(p)(row);
  }

  lemma QuantityCaptured(own: Row, p: string, id: string, path: string, m: Match)
    requires own.table == "instrument" != m.entity && "quantity" !in own.values
    requires m.column == "quantity" && m.value != "" && ScopeRow(p)(NormalizedRow(id, path, m))
    ensures var rows := [own, NormalizedRow(id, path, m)];
      QuantityText(rows, Some(p)) == Some(m.value)
  {
    hide ScopeRow, FindField;
    NoColumn(own, ScopedQuantity);
    NoColumn(own, AnyQuantity);
    OneCapture(id, path, m, AnyQuantity);
    if m.entity == "settlement_quantity" {
      OneCapture(id, path, m, ScopedQuantity);
    } else {
      NoColumn(NormalizedRow(id, path, m), ScopedQuantity);
    }
    EitherFinds(own, NormalizedRow(id, path, m), p, ScopedQuantity, AnyQuantity, "quantity");
  }

  lemma AmountCaptured(own: Row, p: string, id: string, path: string, m: Match)
    requires own.table == "instrument" != m.entity && "amount" !in own.values
    requires m.column == "amount" && m.value != "" && ScopeRow(p)(NormalizedRow(id, path, m))
    ensures var extra := NormalizedRow(id, path, m);
      && AmountField([own, extra], Some(p)) == Some((extra, "amount"))
      && Get(extra.values, "amount") == Some(m.value)
  {
    hide ScopeRow, FindField, Contains;
    var first: Test := (t, c) => Contains(t, "transaction") && c == "amount";
    var second: Test := (t, c) => c == "amount";
    NoColumn(own, first);
    NoColumn(own, second);
    OneCapture(id, path, m, second);
    if Contains(m.entity, "transaction") {
      OneCapture(id, path, m, first);
    } else {
      NoColumn(NormalizedRow(id, path, m), first);
    }
    EitherFinds(own, NormalizedRow(id, path, m), p, first, second, "amount");
  }

  lemma PartyCaptured(own: Row, p: string, id: string, path: string, m: Match)
    requires own.table == "instrument" != m.entity && "party" !in own.values
    requires m.column == "party" && m.value != "" && ScopeRow(p)(NormalizedRow(id, path, m))
    ensures var rows := [own, NormalizedRow(id, path, m)];
      PartyText(rows, Some(p)) == Some(m.value)
  {
    hide ScopeRow, FindField;
    var first: Test := (t, c) => t == "settlement_party" && c == "party";
    var second: Test := (t, c) => c == "party";
    NoColumn(own, first);
    NoColumn(own, second);
    OneCapture(id, path, m, second);
    if m.entity == "settlement_party" {
      OneCapture(id, path, m, first);
    } else {
      NoColumn(NormalizedRow(id, path, m), first);
    }
    EitherFinds(own, NormalizedRow(id, path, m), p, first, second, "party");
  }

  lemma StatusCaptured(own: Row, p: string, id: string, path: string, m: Match)
    requires own.table == "instrument" != m.entity && "status_code" !in own.values
    requires m.column == "status_code" && m.value != "" && ScopeRow(p)(NormalizedRow(id, path, m))
    ensures var rows := [own, NormalizedRow(id, path, m)];
      StatusText(rows, Some(p)) == Some(m.value)
  {
    hide ScopeRow, FindField, Contains;
    var first: Test := (t, c) => c == "status_code" && Contains(t, "status");
    var second: Test := (t, c) => c == "status_code";
    NoColumn(own, first);
    NoColumn(own, second);
    OneCapture(id, path, m, second);
    if Contains(m.entity, "status") {
      OneCapture(id, path, m, first);
    } else {
      NoColumn(NormalizedRow(id, path, m), first);
    }
    EitherFinds(own, NormalizedRow(id, path, m), p, first, second, "status_code");
  }

  lemma LinkCaptured(own: Row, p: string, id: string, path: string, m: Match)
    requires own.table == "instrument" && m.entity == "mt537_transaction_link"
    requires m.column == "linked_reference" && m.value != "" && ScopeRow(p)(NormalizedRow(id, path, m))
    ensures LinkedReference([own, NormalizedRow(id, path, m)], Some(p)) == Some(m.value)
  {
    hide ScopeRow, FindField;
    var test: Test := (t, c) => t == "mt537_transaction_link" && c == "linked_reference";
    NoColumn(own, test);
    OneCapture(id, path, m, test);
    OnlyHit([own, NormalizedRow(id, path, m)], p, test, NormalizedRow(id, path, m), "linked_reference");
  }

  /**
   * From a stored message to its event: one more capture in the instrument's branch or
   * at root, under whatever table, shows in the part of the event that its column stands for.
   */
  lemma CaptureReachesEvent(
      msg: RawMessage, fields: seq<FieldRow>, p: seq<TextFrame>, blob: string, q: seq<TextFrame>, m: Match, tools: Tools)
    requires !Classify(msg.messageType).Other? && m.field == 1 && m.entity != "instrument" && m.value != ""
    requires m.column != MESSAGE_ID && m.column != SEQUENCE_PATH && (q == [] || InBranch(PathText(q), PathText(p)))
    requires OnlyIsin(tools, blob, [msg.messageId, PathText(p), PathText(q), m.capture, m.value])
    ensures var events := Normalize(StoredBatch(msg, fields, p, blob, q, [m]), tools);
      && |events| == 1
      && var e := events[0];
      && e.messageId == msg.messageId && e.messageType == msg.messageType && (e.isin, e.description) == tools.extractIsin(blob)
      && e.settlementDate == SettlementDate(fields, msg.messageId, Some(PathText(p)))
      && (m.column == "quantity" ==> e.quantity == tools.toNumber(m.value))
      && (m.column == "amount" ==> e.amount == tools.toNumber(m.value) && forall c :: e.currency == Some(c) <==> IsCurrency(c, m.capture))
      && (m.column == "party" ==> e.party == Some(m.value))
      && (m.column == "status_code" ==> e.status == Some(m.value))
      && (m.entity == "mt537_transaction_link" && m.column == "linked_reference" ==> e.transactionRef == Some(m.value))
  {
    hide PathText, SettlementDate, Currency, Contains, Classify, Normalize, Rows, FindField, NormalizedRow, AmountField, ScopeRow,
      LinkedReference, SenderReference, ScanValue, InBranch, IsCurrency;
    var id, text, path := msg.messageId, PathText(p), PathText(q);
    StoredEvents(msg, fields, p, blob, q, m, tools);
    var own, extra := OneColumn("instrument", id, p, "instrument", blob), NormalizedRow(id, path, m);
    RootText();
    CaptureInScope(id, text, path, m);
    InstrumentColumns(id, p, blob);
    if m.column == "quantity" {
      QuantityCaptured(own, text, id, path, m);
    } else if m.column == "amount" {
      AmountCaptured(own, text, id, path, m);
      forall c
        ensures Currency(Some((extra, "amount"))) == Some(c) <==> IsCurrency(c, m.capture)
      {
        CurrencyOfCapture(id, path, m, c);
      }
    } else if m.column == "party" {
      PartyCaptured(own, text, id, path, m);
    } else if m.column == "status_code" {
      StatusCaptured(own, text, id, path, m);
    } else if m.column == "linked_reference" && m.entity == "mt537_transaction_link" {
      LinkCaptured(own, text, id, path, m);
    }
  }

  lemma RootText()
    ensures PathText([]) == "$"
  {}

  lemma InstrumentColumns(id: string, p: seq<TextFrame>, blob: string)
    ensures var own := OneColumn("instrument", id, p, "instrument", blob);
      && own.table == "instrument"
      && own.values.Keys == {"message_id", "sequence_path", "instrument", "instrument__render_value"}
  {
    hide PathText;
    assert RenderColumn(Capture(0, "instrument", "instrument", blob)) == "instrument" + ("__render_" + "value") == "instrument__render_value";
  }

  // ---- Where the parts of an event come from ----

  datatype Part = Quantity | Amount | Account | Party | StatusCode

  /** What a part is read from: a table and column, by order of preference. */
  ghost predicate Serves(part: Part, rank: nat, table: string, column: string) {
    match part
    case Quantity => column == "quantity" && (rank == 0 ==> table == "settlement_quantity")
    case Amount => column == "amount" && (rank == 0 ==> HasWord(table, "transaction"))
    case Account =>
      if rank == 0 then HasWord(column, "safekeep")
      else if rank == 1 then table == "settlement_account" && HasWord(column, "account")
      else column == "account" && (HasWord(table, "account") || HasWord(table, "party"))
    case Party => column == "party" && (rank == 0 ==> table == "settlement_party")
    case StatusCode => column == "status_code" && (rank == 0 ==> HasWord(table, "status"))
  }

  ghost predicate HasWord(s: string, word: string) {
    exists before: string, after: string :: s == before + (word + after)
  }

  function Ranks(part: Part): nat {
    if part.Account? then 3 else 2
  }

  predicate InScope(row: Row, path: Option<string>) {
    path.None? || ScopeRow(path.value)(row)
  }

  /** The row offers a value that is not empty in this column. */
  predicate Offers(rows: seq<Row>, path: Option<string>, row: Row, column: string) {
    row in rows && InScope(row, path) && column in row.values && row.values[column] != ""
  }

  /** Some row in scope serves the part at this rank. */
  ghost predicate Served(rows: seq<Row>, path: Option<string>, part: Part, rank: nat) {
    exists row, column :: Offers(rows, path, row, column) && Serves(part, rank, row.table, column)
  }

  /** `text` is offered at the lowest rank that is served, and is missing when none is. */
  ghost predicate IsBest(text: Option<string>, rows: seq<Row>, path: Option<string>, part: Part) {
    match text
    case None => forall rank: nat :: rank < Ranks(part) ==> !Served(rows, path, part, rank)
    case Some(value) =>
      exists rank: nat, row, column ::
        && rank < Ranks(part) && (forall lower: nat :: lower < rank ==> !Served(rows, path, part, lower))
        && Offers(rows, path, row, column) && Serves(part, rank, row.table, column) && row.values[column] == value
  }

  lemma FoundIff(rows: seq<Row>, path: Option<string>, test: Test)
    ensures var hit := FindField(rows, path, test);
      && (hit.None? <==> forall row, column :: Offers(rows, path, row, column) ==> !test(row.table, column))
      && (hit.Some? ==> Offers(rows, path, hit.value.0, hit.value.1) && test(hit.value.0.table, hit.value.1))
  {
    hide ColumnBy, Scoped, InScope, FirstHit;
    ScopedMembers(rows, path);
    FirstHitIff(Scoped(rows, path), ColumnBy(test));
    forall row: Row
      ensures ColumnBy(test)(row).None? <==> forall c :: c in row.values && row.values[c] != "" ==> !test(row.table, c)
      ensures ColumnBy(test)(row).Some? ==>
        var c := ColumnBy(test)(row).value; c in row.values && row.values[c] != "" && test(row.table, c)
    {
      ColumnIff(row, test);
    }
  }

  lemma ScopedMembers(rows: seq<Row>, path: Option<string>)
    ensures forall row :: row in Scoped(rows, path) <==> row in rows && InScope(row, path)
  {
    hide BranchRow, DepthTo, RootRow, SortDeepest, Filter;
    if path.Some? {
      FilterMembers(rows, BranchRow(path.value));
      FilterMembers(rows, RootRow);
      SortOrders(Filter(rows, BranchRow(path.value)), DepthTo(path.value));
    }
  }

  lemma ColumnIff(row: Row, test: Test)
    ensures ColumnBy(test)(row).None? <==> forall c :: c in row.values && row.values[c] != "" ==> !test(row.table, c)
    ensures ColumnBy(test)(row).Some? ==>
      var c := ColumnBy(test)(row).value; c in row.values && row.values[c] != "" && test(row.table, c)
  {
    var usable: Test := (c, v) => v != "" && test(row.table, c);
    var keys := set c | c in row.values && usable(c, row.values[c]);
    assert ColumnBy(test)(row) == FirstColumn(row, usable) == Least(keys);
    assert forall c :: c in keys <==> c in row.values && row.values[c] != "" && test(row.table, c);
  }

  lemma Words()
    ensures forall s: string, word: string :: Contains(s, word) <==> HasWord(s, word)
  {
    forall s: string, word: string
      ensures Contains(s, word) <==> HasWord(s, word)
    {
      ContainsIff(s, word);
    }
  }

  ghost predicate TestsFor(test: Test, part: Part, rank: nat) {
    forall t, c :: test(t, c) <==> Serves(part, rank, t, c)
  }

  lemma BestOfTwo(rows: seq<Row>, path: Option<string>, part: Part, first: Test, second: Test)
    requires Ranks(part) == 2 && TestsFor(first, part, 0) && TestsFor(second, part, 1)
    ensures IsBest(ValueAt(OrElse(FindField(rows, path, first), FindField(rows, path, second))), rows, path, part)
    ensures OrElse(ScanValue(rows, path, first), ScanValue(rows, path, second))
         == ValueAt(OrElse(FindField(rows, path, first), FindField(rows, path, second)))
  {
    hide FindField, InScope, Serves;
    FoundIff(rows, path, first);
    FoundIff(rows, path, second);
  }

  lemma BestOfThree(rows: seq<Row>, path: Option<string>, part: Part, first: Test, second: Test, third: Test)
    requires Ranks(part) == 3 && TestsFor(first, part, 0) && TestsFor(second, part, 1) && TestsFor(third, part, 2)
    ensures IsBest(OrElse(ScanValue(rows, path, first), OrElse(ScanValue(rows, path, second), ScanValue(rows, path, third))), rows, path, part)
  {
    hide FindField, InScope, Serves;
    FoundIff(rows, path, first);
    FoundIff(rows, path, second);
    FoundIff(rows, path, third);
  }

  /** The reference is a linked one in scope, or else a sender's from anywhere. */
  ghost predicate IsReference(text: Option<string>, rows: seq<Row>, path: Option<string>) {
    if exists row :: Offers(rows, path, row, "linked_reference") && row.table == "mt537_transaction_link" then
      exists row :: Offers(rows, path, row, "linked_reference") && row.table == "mt537_transaction_link"
                    && text == Some(row.values["linked_reference"])
    else if exists row :: Offers(rows, None, row, "sender_reference") && row.table == "mt537_statement" then
      exists row :: Offers(rows, None, row, "sender_reference") && row.table == "mt537_statement"
                    && text == Some(row.values["sender_reference"])
    else text == None
  }

  lemma ReferenceIsBest(rows: seq<Row>, path: Option<string>)
    ensures IsReference(OrElse(LinkedReference(rows, path), SenderReference(rows)), rows, path)
  {
    hide FindField, InScope;
    FoundIff(rows, path, (t, c) => t == "mt537_transaction_link" && c == "linked_reference");
    FoundIff(rows, None, (t, c) => t == "mt537_statement" && c == "sender_reference");
  }

  lemma QuantityIsBest(rows: seq<Row>, path: Option<string>)
    ensures IsBest(QuantityText(rows, path), rows, path, Quantity)
  {
    hide FindField, IsBest;
    BestOfTwo(rows, path, Quantity, ScopedQuantity, AnyQuantity);
  }

  lemma AmountIsBest(rows: seq<Row>, path: Option<string>)
    ensures IsBest(ValueAt(AmountField(rows, path)), rows, path, Amount)
  {
    hide FindField, IsBest, Contains, HasWord;
    Words();
    BestOfTwo(rows, path, Amount, (t, c) => Contains(t, "transaction") && c == "amount", (t, c) => c == "amount");
  }

  lemma AccountIsBest(rows: seq<Row>, path: Option<string>)
    ensures IsBest(AccountText(rows, path), rows, path, Account)
  {
    hide FindField, IsBest, Contains, HasWord;
    Words();
    BestOfThree(rows, path, Account, (t, c) => Contains(c, "safekeep"), (t, c) => t == "settlement_account" && Contains(c, "account"),
                (t, c) => c == "account" && (Contains(t, "account") || Contains(t, "party")));
  }

  lemma PartyIsBest(rows: seq<Row>, path: Option<string>)
    ensures IsBest(PartyText(rows, path), rows, path, Party)
  {
    hide FindField, IsBest;
    BestOfTwo(rows, path, Party, (t, c) => t == "settlement_party" && c == "party", (t, c) => c == "party");
  }

  lemma StatusIsBest(rows: seq<Row>, path: Option<string>)
    ensures IsBest(StatusText(rows, path), rows, path, StatusCode)
  {
    hide FindField, IsBest, Contains, HasWord;
    Words();
    BestOfTwo(rows, path, StatusCode, (t, c) => c == "status_code" && Contains(t, "status"), (t, c) => c == "status_code");
  }

  /** An event says what it is about, and reads each of its parts from the rows in scope that serve it best. */
  lemma EventPartsAreBest(
      msg: RawMessage, kind: Kind, rows: seq<Row>, fields: seq<FieldRow>, path: Option<string>,
      isin: Option<string>, description: Option<string>, tools: Tools)
    returns (quantity: Option<string>, amount: Option<string>)
    ensures var e := BuildEvent(msg, kind, rows, fields, path, isin, description, tools);
      && e.messageId == msg.messageId && e.messageType == msg.messageType && e.kind == kind
      && e.isin == isin && e.description == description
      && IsBest(quantity, rows, path, Quantity)
      && e.quantity == (if quantity.Some? then tools.toNumber(quantity.value) else None)
      && IsBest(amount, rows, path, Amount)
      && e.amount == (if amount.Some? then tools.toNumber(amount.value) else None)
      && IsBest(e.account, rows, path, Account)
      && IsBest(e.party, rows, path, Party)
      && IsBest(e.status, rows, path, StatusCode)
      && IsReference(e.transactionRef, rows, path)
  {
    hide FindField, IsBest, SettlementDate, Currency, LinkedReference, SenderReference, IsReference, AmountField, ValueAt,
      QuantityText, AccountText, PartyText, StatusText;
    quantity, amount := QuantityText(rows, path), ValueAt(AmountField(rows, path));
    QuantityIsBest(rows, path);
    AmountIsBest(rows, path);
    AccountIsBest(rows, path);
    PartyIsBest(rows, path);
    StatusIsBest(rows, path);
    ReferenceIsBest(rows, path);
  }

  // ---- Batches ----

  /** No row or field of the batch is marked with these messages. */
  ghost predicate Unrelated(batch: Batch, messages: seq<RawMessage>) {
    forall m :: m in messages ==>
      && (forall row :: row in batch.rows ==> !OfMessage(m.messageId)(row))
      && (forall f :: f in batch.fields ==> f.messageId != m.messageId)
  }

  lemma EventOfFields(
      msg: RawMessage, kind: Kind, rows: seq<Row>, fields: seq<FieldRow>, fields': seq<FieldRow>, path: Option<string>,
      isin: Option<string>, description: Option<string>, tools: Tools)
    requires Filter(fields, Candidate(msg.messageId)) == Filter(fields', Candidate(msg.messageId))
    ensures BuildEvent(msg, kind, rows, fields, path, isin, description, tools) ==
      BuildEvent(msg, kind, rows, fields', path, isin, description, tools)
  {}

  /** What a message becomes depends on its own rows and fields alone. */
  lemma MessageOfOwnRows(a: Batch, b: Batch, msg: RawMessage, tools: Tools)
    requires Filter(a.rows, OfMessage(msg.messageId)) == Filter(b.rows, OfMessage(msg.messageId))
    requires Filter(a.fields, Candidate(msg.messageId)) == Filter(b.fields, Candidate(msg.messageId))
    ensures NormalizeMessage(a, msg, tools) == NormalizeMessage(b, msg, tools)
  {
    hide BuildEvent, Filter, Instruments, Classify;
    var kind := Classify(msg.messageType);
    var rows := Filter(a.rows, OfMessage(msg.messageId));
    var instruments := Instruments(rows, tools);
    EventOfFields(msg, kind, rows, a.fields, b.fields, None, None, None, tools);
    forall i | 0 <= i < |instruments|
      ensures EventsOf(msg, kind, rows, a.fields, instruments, tools)[i] == EventsOf(msg, kind, rows, b.fields, instruments, tools)[i]
    {
      EventOfFields(msg, kind, rows, a.fields, b.fields, Some(instruments[i].path), Some(instruments[i].isin),
                    instruments[i].description, tools);
    }
    assert EventsOf(msg, kind, rows, a.fields, instruments, tools) == EventsOf(msg, kind, rows, b.fields, instruments, tools);
  }

  /** The messages of one part are normalised alike alone and in the extended batch. */
  lemma {:induction false} PartOfExtended(a: Batch, b: Batch, messages: seq<RawMessage>, tools: Tools)
    ensures Unrelated(b, messages) ==> NormalizeAll(Extend(a, b), messages, tools) == NormalizeAll(a, messages, tools)
    ensures Unrelated(a, messages) ==> NormalizeAll(Extend(a, b), messages, tools) == NormalizeAll(b, messages, tools)
  {
    hide NormalizeMessage, Filter, OfMessage, Candidate;
    if messages != [] {
      var init, msg := messages[..|messages| - 1], messages[|messages| - 1];
      assert messages == init + [msg];
      PartOfExtended(a, b, init, tools);
      FilterConcat(a.rows, b.rows, OfMessage(msg.messageId));
      FilterConcat(a.fields, b.fields, Candidate(msg.messageId));
      if Unrelated(b, messages) {
        NothingOf(b, msg);
        MessageOfOwnRows(Extend(a, b), a, msg, tools);
      }
      if Unrelated(a, messages) {
        NothingOf(a, msg);
        MessageOfOwnRows(Extend(a, b), b, msg, tools);
      }
    }
  }

  lemma NothingOf(batch: Batch, msg: RawMessage)
    requires Unrelated(batch, [msg])
    ensures Filter(batch.rows, OfMessage(msg.messageId)) == []
    ensures Filter(batch.fields, Candidate(msg.messageId)) == []
  {
    hide Filter;
    assert msg in [msg];
    FilterNone(batch.rows, OfMessage(msg.messageId));
    FilterNone(batch.fields, Candidate(msg.messageId));
  }

  lemma {:induction false} NormalizeAllConcat(batch: Batch, x: seq<RawMessage>, y: seq<RawMessage>, tools: Tools)
    ensures NormalizeAll(batch, x + y, tools) == NormalizeAll(batch, x, tools) + NormalizeAll(batch, y, tools)
  {
    hide NormalizeMessage;
    if y == [] {
      assert x + y == x;
    } else {
      assert (x + y)[..|x + y| - 1] == x + y[..|y| - 1];
      NormalizeAllConcat(batch, x, y[..|y| - 1], tools);
    }
  }

  /** Batches of different messages can be normalised together or apart. */
  lemma NormalizeIsHomomorphic(a: Batch, b: Batch, tools: Tools)
    requires Unrelated(b, a.raw) && Unrelated(a, b.raw)
    ensures Normalize(Extend(a, b), tools) == Normalize(a, tools) + Normalize(b, tools)
  {
    hide NormalizeAll, Unrelated;
    NormalizeAllConcat(Extend(a, b), a.raw, b.raw, tools);
    PartOfExtended(a, b, a.raw, tools);
    PartOfExtended(a, b, b.raw, tools);
  }
}
