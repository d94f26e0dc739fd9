/**
 * The `:61:` statement line of MT 940 (SWIFT Standards Category 9, field 61):
 * a cursor-driven parser over a line without separators, and its printer.
 * Text is ASCII, so character and byte offsets agree. `toNumber` stands for the
 * conversion of decimal text to a number.
 */
module StatementLine {
  import opened Bytes
  import opened Text
  import Trimming

  datatype Direction = Credit | Debit | ReversalCredit | ReversalDebit {
    function Sign(): real {
      match this
      case Credit | ReversalDebit => 1.0
      case Debit | ReversalCredit => -1.0
    }

    /** The effect on the balance: credit positive, debit negative. */
    function Signed(amount: real): (r: real)
      ensures this == Credit || this == ReversalDebit ==> r == amount
      ensures this == Debit || this == ReversalCredit ==> r == -amount
    {
      Sign() * amount
    }
  }

  datatype CashEntry = CashEntry(
    valueDate: Option<string>,
    entryDate: Option<string>,
    direction: Direction,
    amount: real,
    signedAmount: real,
    transactionType: Option<string>,
    customerRef: Option<string>,
    bankRef: Option<string>,
    info: Option<string>)

  predicate IsLetter(c: char) {
    'A' <= c <= 'Z' || 'a' <= c <= 'z'
  }

  lemma LetterIff(c: char)
    ensures IsLetter(c) <==> c in CAPITALS || c in SMALL_LETTERS
  {
    CapitalIff(c);
    SmallLetterIff(c);
  }

  /** Index of the first `c` in `s`, or `|s|`. */
  function Find(s: string, c: char): (i: nat)
    ensures i <= |s| && (i < |s| ==> s[i] == c)
    ensures forall k :: 0 <= k < i ==> s[k] != c
  {
    if s == [] || s[0] == c then 0 else 1 + Find(s[1..], c)
  }

  /** Index of the first `//` in `s`, or `|s|`. */
  function FindSlashes(s: string): (i: nat)
    ensures i <= |s| && (i < |s| ==> i + 1 < |s| && s[i] == '/' && s[i + 1] == '/')
    ensures forall k :: 0 <= k < i && k + 1 < |s| ==> !(s[k] == '/' && s[k + 1] == '/')
  {
    if |s| < 2 then |s| else if s[0] == '/' && s[1] == '/' then 0 else 1 + FindSlashes(s[1..])
  }

  function NonEmpty(s: string): Option<string> {
    if Strip(s) == [] then None else Some(Strip(s))
  }

  function ToIso(s: string): Option<string> {
    if |s| == 6 && AllDigits(s) then Some("20" + s[0..2] + "-" + s[2..4] + "-" + s[4..6]) else None
  }

  /** Decimal commas become points. */
  function Points(s: string): string {
    seq(|s|, i requires 0 <= i < |s| => if s[i] == ',' then '.' else s[i])
  }

  function ParseAmount(s: string, toNumber: string -> Option<real>): Option<real> {
    var t := Points(Strip(s));
    if t == [] then None else toNumber(t)
  }

  // ---- The parser, piece by piece ----

  /** The optional entry date is skipped only in front of a mark. */
  predicate HasEntryDate(head: string) {
    |head| >= 11 && AllDigits(head[6..10]) && (head[10] == 'C' || head[10] == 'D' || head[10] == 'R')
  }

  function ReadMark(s: string): Option<(Direction, nat)> {
    if |s| >= 2 && s[0] == 'R' && s[1] == 'C' then Some((ReversalCredit, 2))
    else if |s| >= 2 && s[0] == 'R' && s[1] == 'D' then Some((ReversalDebit, 2))
    else if |s| >= 1 && s[0] == 'C' then Some((Credit, 1))
    else if |s| >= 1 && s[0] == 'D' then Some((Debit, 1))
    else None
  }

  function References(refs: string): (Option<string>, Option<string>) {
    var i := FindSlashes(refs);
    if i < |refs| then (NonEmpty(refs[..i]), NonEmpty(refs[i + 2..])) else (NonEmpty(refs), None)
  }

  /** From the amount on: up to the first `N` the amount, then a type of three and the references. */
  function ReadTail(rest: string, toNumber: string -> Option<real>): Option<(real, Option<string>, Option<string>, Option<string>)> {
    var n := Find(rest, 'N');
    if n == |rest| then None
    else match ParseAmount(rest[..n], toNumber)
      case None => None
      case Some(amount) =>
        var after := rest[n + 1..];
        if |after| >= 3 then
          var refs := References(after[3..]);
          Some((amount, Some(after[..3]), refs.0, refs.1))
        else Some((amount, None, None, None))
  }

  function ReadHead(head: string, info: Option<string>, toNumber: string -> Option<real>): Option<CashEntry> {
    if |head| < 7 then None
    else
      var afterDates := head[if HasEntryDate(head) then 10 else 6..];
      match ReadMark(afterDates)
      case None => None
      case Some(mark) =>
        var afterMark := afterDates[mark.1..];
        var rest := if afterMark != [] && IsLetter(afterMark[0]) then afterMark[1..] else afterMark;
        match ReadTail(rest, toNumber)
        case None => None
        case Some(t) =>
          Some(CashEntry(ToIso(head[0..6]), None, mark.0, t.0, mark.0.Signed(t.0), t.1, t.2, t.3, info))
  }

  function ReadLine(s: string, toNumber: string -> Option<real>): Option<CashEntry> {
    var i := Find(s, '\n');
    ReadHead(Strip(s[..i]), if i < |s| then NonEmpty(s[i + 1..]) else None, toNumber)
  }

  // ---- The parser with its cursor ----

  /** Reads the mark at `pos` and moves past it. */
  method MarkAt(head: string, pos: nat) returns (direction: Option<Direction>, pos': nat)
    requires pos <= |head|
    ensures pos <= pos' <= |head|
    ensures match ReadMark(head[pos..])
      case None => direction == None
      case Some(m) => direction == Some(m.0) && pos' == pos + m.1
  {
    pos' := pos;
    if |head| >= pos + 2 && head[pos] == 'R' && head[pos + 1] == 'C' {
      direction, pos' := Some(ReversalCredit), pos + 2;
    } else if |head| >= pos + 2 && head[pos] == 'R' && head[pos + 1] == 'D' {
      direction, pos' := Some(ReversalDebit), pos + 2;
    } else if |head| >= pos + 1 && head[pos] == 'C' {
      direction, pos' := Some(Credit), pos + 1;
    } else if |head| >= pos + 1 && head[pos] == 'D' {
      direction, pos' := Some(Debit), pos + 1;
    } else {
      direction := None;
    }
  }

  method TailAt(rest: string, toNumber: string -> Option<real>)
    returns (tail: Option<(real, Option<string>, Option<string>, Option<string>)>)
    ensures tail == ReadTail(rest, toNumber)
  {
    hide ParseAmount;
    var n := Find(rest, 'N');
    if n == |rest| {
      return None;
    }
    var amount := ParseAmount(rest[..n], toNumber);
    if amount.None? {
      return None;
    }
    var afterN := rest[n + 1..];
    if |afterN| >= 3 {
      var refs := References(afterN[3..]);
      return Some((amount.value, Some(afterN[..3]), refs.0, refs.1));
    }
    return Some((amount.value, None, None, None));
  }

  method ParseStatementLine(s: string, toNumber: string -> Option<real>) returns (r: Option<CashEntry>)
    ensures r == ReadLine(s, toNumber)
  {
    hide Strip, NonEmpty, ReadTail, ReadMark;
    var split := Find(s, '\n');
    var head := Strip(s[..split]);
    var info := if split < |s| then NonEmpty(s[split + 1..]) else None;
    if |head| < 7 {
      return None;
    }
    var valueDate := ToIso(head[0..6]);
    var pos := 6;
    if HasEntryDate(head) {
      pos := pos + 4;
    }
    ghost var dates := pos;
    var direction;
    direction, pos := MarkAt(head, pos);
    if direction.None? {
      return None;
    }
    ghost var afterMark := head[dates..][pos - dates..];
    assert afterMark == head[pos..];
    if pos < |head| && IsLetter(head[pos]) {
      pos := pos + 1;
    }
    assert head[pos..] == if afterMark != [] && IsLetter(afterMark[0]) then afterMark[1..] else afterMark;
    var tail := TailAt(head[pos..], toNumber);
    if tail.None? {
      return None;
    }
    var t := tail.value;
    return Some(CashEntry(valueDate, None, direction.value, t.0, direction.value.Signed(t.0), t.1, t.2, t.3, info));
  }

  // ---- The printer ----

  /** A statement line as the standard lays it out; the transaction type is of the `N` kind. */
  datatype Line = Line(
    valueDate: string,
    entryDate: Option<string>,
    mark: Direction,
    funds: Option<char>,
    amount: string,
    kind: string,
    customerRef: string,
    bankRef: Option<string>)

  function MarkText(d: Direction): string {
    match d
    case Credit => "C"
    case Debit => "D"
    case ReversalCredit => "RC"
    case ReversalDebit => "RD"
  }

  function RefsText(customer: string, bank: Option<string>): string {
    customer + if bank.Some? then "//" + bank.value else ""
  }

  function TailText(l: Line): string {
    l.amount + ("N" + (l.kind + RefsText(l.customerRef, l.bankRef)))
  }

  function FundsText(funds: Option<char>): string {
    if funds.Some? then [funds.value] else ""
  }

  function DateText(l: Line): string {
    l.valueDate + if l.entryDate.Some? then l.entryDate.value else ""
  }

  function PrintHead(l: Line): string {
    DateText(l) + (MarkText(l.mark) + (FundsText(l.funds) + TailText(l)))
  }

  /** The line, then any supplementary details on a line of their own. */
  function PrintLine(l: Line, info: Option<string>): string {
    PrintHead(l) + if info.Some? then "\n" + info.value else ""
  }

  /** One physical line, no blank at either end. */
  predicate Clean(s: string) {
    Trimming.Trimmed(s, IsBlank) && Find(s, '\n') == |s|
  }

  predicate LineOk(l: Line) {
    && |l.valueDate| == 6 && AllDigits(l.valueDate)
    && (l.entryDate.Some? ==> |l.entryDate.value| == 4 && AllDigits(l.entryDate.value))
    && (l.funds.Some? ==> IsLetter(l.funds.value))
    && |l.amount| > 0 && IsDigitChar(l.amount[0])
    && (forall k :: 0 <= k < |l.amount| ==> IsDigitChar(l.amount[k]) || l.amount[k] == ',')
    && |l.kind| == 3 && (forall k :: 0 <= k < 3 ==> !IsBlank(l.kind[k]))
    && Clean(l.customerRef) && FindSlashes(l.customerRef) == |l.customerRef|
    && (l.bankRef.Some? ==> Clean(l.bankRef.value) && (l.customerRef != "" ==> l.customerRef[|l.customerRef| - 1] != '/'))
  }

  function Given(s: string): Option<string> {
    if s == "" then None else Some(s)
  }

  function Entry(l: Line, amount: real, info: Option<string>): CashEntry
    requires |l.valueDate| == 6
  {
    CashEntry(
      Some("20" + l.valueDate[0..2] + "-" + l.valueDate[2..4] + "-" + l.valueDate[4..6]),
      None, l.mark, amount, l.mark.Signed(amount), Some(l.kind),
      Given(l.customerRef), if l.bankRef.Some? then Given(l.bankRef.value) else None,
      if info.Some? then Given(info.value) else None)
  }

  // ---- Reading a printed line ----

  lemma {:induction false} FindFirst(s: string, c: char, i: nat)
    requires i < |s| && s[i] == c && forall k :: 0 <= k < i ==> s[k] != c
    ensures Find(s, c) == i
  {}

  lemma FindNone(s: string, c: char)
    requires forall k :: 0 <= k < |s| ==> s[k] != c
    ensures Find(s, c) == |s|
  {}

  lemma NonEmptyOfTrimmed(s: string)
    requires Trimming.Trimmed(s, IsBlank)
    ensures NonEmpty(s) == Given(s)
  {}

  /** The first `//` is the one printed between the references. */
  lemma SlashesBetween(customer: string, bank: string)
    requires FindSlashes(customer) == |customer|
    requires customer != "" ==> customer[|customer| - 1] != '/'
    ensures FindSlashes(customer + ("//" + bank)) == |customer|
  {
    var s := customer + ("//" + bank);
    var n := |customer|;
    assert s[n] == '/' && s[n + 1] == '/';
    forall k | 0 <= k < n ensures !(s[k] == '/' && s[k + 1] == '/') {
      assert s[k] == customer[k];
      if k + 1 < n { assert s[k + 1] == customer[k + 1]; }
    }
    assert FindSlashes(s) <= n;
  }

  lemma ReferencesReadBack(customer: string, bank: Option<string>)
    requires Trimming.Trimmed(customer, IsBlank) && FindSlashes(customer) == |customer|
    requires bank.Some? ==> Trimming.Trimmed(bank.value, IsBlank)
    requires bank.Some? && customer != "" ==> customer[|customer| - 1] != '/'
    ensures References(RefsText(customer, bank)) == (Given(customer), if bank.Some? then Given(bank.value) else None)
  {
    hide NonEmpty, FindSlashes, Given, Trimming.Trimmed;
    var s := RefsText(customer, bank);
    NonEmptyOfTrimmed(customer);
    if bank.Some? {
      assert s == customer + ("//" + bank.value);
      SlashesBetween(customer, bank.value);
      assert s[..|customer|] == customer && s[|customer| + 2..] == bank.value;
      NonEmptyOfTrimmed(bank.value);
    } else {
      assert s == customer;
    }
  }

  lemma AmountIsTrimmed(l: Line)
    requires LineOk(l)
    ensures Strip(l.amount) == l.amount
  {}

  /** `t` is `s` with points for commas. */
  ghost predicate Pointed(s: string, t: string) {
    |s| == |t| && forall k :: 0 <= k < |s| ==> if s[k] == ',' then t[k] == '.' else t[k] == s[k]
  }

  lemma PointsIff(s: string, t: string)
    ensures Pointed(s, t) <==> t == Points(s)
  {}

  lemma TailReadsBack(l: Line, toNumber: string -> Option<real>, amount: real)
    requires LineOk(l) && toNumber(Points(l.amount)) == Some(amount)
    ensures ReadTail(TailText(l), toNumber)
         == Some((amount, Some(l.kind), Given(l.customerRef), if l.bankRef.Some? then Given(l.bankRef.value) else None))
  {
    hide Strip, Clean, References;
    var s := TailText(l);
    var n := |l.amount|;
    var refs := RefsText(l.customerRef, l.bankRef);
    assert s[n] == 'N' && forall k :: 0 <= k < n ==> s[k] == l.amount[k];
    FindFirst(s, 'N', n);
    assert s[..n] == l.amount && s[n + 1..] == l.kind + refs;
    assert (l.kind + refs)[..3] == l.kind && (l.kind + refs)[3..] == refs;
    AmountIsTrimmed(l);
    CleanRefs(l);
    ReferencesReadBack(l.customerRef, l.bankRef);
  }

  lemma CleanRefs(l: Line)
    requires LineOk(l)
    ensures Trimming.Trimmed(l.customerRef, IsBlank)
    ensures l.bankRef.Some? ==> Trimming.Trimmed(l.bankRef.value, IsBlank)
  {}

  lemma MarkReadsBack(mark: Direction, after: string)
    ensures ReadMark(MarkText(mark) + after) == Some((mark, |MarkText(mark)|))
    ensures (MarkText(mark) + after)[|MarkText(mark)|..] == after
  {}

  /** An entry date is seen exactly when it was printed. */
  lemma DatesReadBack(l: Line, after: string)
    requires LineOk(l)
    requires |after| > 0
    ensures var head := DateText(l) + (MarkText(l.mark) + after);
      && |head| >= 7 && (l.entryDate.Some? ==> |head| >= 11)
      && HasEntryDate(head) == l.entryDate.Some?
      && head[if l.entryDate.Some? then 10 else 6..] == MarkText(l.mark) + after
      && head[0..6] == l.valueDate && ToIso(l.valueDate) == Entry(l, 0.0, None).valueDate
  {
    var mark := MarkText(l.mark);
    var head := DateText(l) + (mark + after);
    if l.entryDate.Some? {
      assert head[6..10] == l.entryDate.value;
      assert head[10] == mark[0];
    } else {
      assert head[6] == mark[0];
      if |head| >= 11 {
        assert head[6..10][0] == mark[0];
      }
    }
  }

  lemma FundsReadBack(funds: Option<char>, tail: string)
    requires tail != "" && IsDigitChar(tail[0]) && (funds.Some? ==> IsLetter(funds.value))
    ensures var s := FundsText(funds) + tail;
      s != "" && (if IsLetter(s[0]) then s[1..] else s) == tail
  {}

  lemma PartsOk(l: Line)
    requires LineOk(l)
    ensures |l.valueDate| == 6 && (l.funds.Some? ==> IsLetter(l.funds.value))
    ensures TailText(l) != "" && IsDigitChar(TailText(l)[0])
  {}

  /** The printed head is read back: each optional part is recognised exactly when present. */
  lemma HeadReadsBack(l: Line, info: Option<string>, toNumber: string -> Option<real>, amount: real)
    requires LineOk(l) && toNumber(Points(l.amount)) == Some(amount)
    ensures ReadHead(PrintHead(l), (if info.Some? then Given(info.value) else None), toNumber) == Some(Entry(l, amount, info))
  {
    hide ReadTail, ReadMark, HasEntryDate, LineOk, Given, DateText, MarkText, FundsText, TailText, ToIso;
    var tail := TailText(l);
    PartsOk(l);
    var after := FundsText(l.funds) + tail;
    DatesReadBack(l, after);
    MarkReadsBack(l.mark, after);
    FundsReadBack(l.funds, tail);
    TailReadsBack(l, toNumber, amount);
    var head := PrintHead(l);
    assert head == DateText(l) + (MarkText(l.mark) + after);
    var afterDates := head[if HasEntryDate(head) then 10 else 6..];
    assert afterDates == MarkText(l.mark) + after;
    assert ReadMark(afterDates) == Some((l.mark, |MarkText(l.mark)|));
    assert afterDates[|MarkText(l.mark)|..] == after;
    assert head[0..6] == l.valueDate;
  }

  lemma {:induction false} AppendClean(a: string, b: string)
    requires Find(a, '\n') == |a| && Find(b, '\n') == |b|
    ensures Find(a + b, '\n') == |a + b|
  {}

  /** The printed head is one line without blanks at its ends. */
  lemma HeadIsClean(l: Line)
    requires LineOk(l)
    ensures PrintHead(l) != "" && Clean(PrintHead(l))
  {
    var head := PrintHead(l);
    var refs := RefsText(l.customerRef, l.bankRef);
    var bank := if l.bankRef.Some? then "//" + l.bankRef.value else "";
    assert Find(bank, '\n') == |bank| by {
      if l.bankRef.Some? {
        FindNone("//", '\n');
        AppendClean("//", l.bankRef.value);
      } else {
        FindNone("", '\n');
      }
    }
    AppendClean(l.customerRef, bank);
    var front := DateText(l) + (MarkText(l.mark) + (FundsText(l.funds) + (l.amount + ("N" + l.kind))));
    assert head == front + refs;
    FrontIsClean(l, front);
    AppendClean(front, refs);
    assert head[0] == l.valueDate[0];
    LastNotBlank(l, front, refs);
  }

  lemma PartsAreLines(l: Line)
    requires LineOk(l)
    ensures forall s :: s in {DateText(l), MarkText(l.mark), FundsText(l.funds), l.amount, "N" + l.kind} ==> Find(s, '\n') == |s|
  {
    FindNone(DateText(l), '\n');
    FindNone(MarkText(l.mark), '\n');
    FindNone(FundsText(l.funds), '\n');
    FindNone(l.amount, '\n');
    FindNone("N" + l.kind, '\n');
  }

  lemma FrontIsClean(l: Line, front: string)
    requires LineOk(l)
    requires front == DateText(l) + (MarkText(l.mark) + (FundsText(l.funds) + (l.amount + ("N" + l.kind))))
    ensures Find(front, '\n') == |front| && |front| >= 7 && front[|front| - 1] == l.kind[2] && front[0] == l.valueDate[0]
  {
    PartsAreLines(l);
    assert |DateText(l)| >= 6 && DateText(l)[0] == l.valueDate[0];
    hide LineOk, DateText, MarkText, FundsText, Find;
    AppendClean(l.amount, "N" + l.kind);
    AppendClean(FundsText(l.funds), l.amount + ("N" + l.kind));
    AppendClean(MarkText(l.mark), FundsText(l.funds) + (l.amount + ("N" + l.kind)));
    AppendClean(DateText(l), MarkText(l.mark) + (FundsText(l.funds) + (l.amount + ("N" + l.kind))));
  }

  lemma LastNotBlank(l: Line, front: string, refs: string)
    requires LineOk(l) && refs == RefsText(l.customerRef, l.bankRef)
    requires front != "" && front[|front| - 1] == l.kind[2]
    ensures !IsBlank((front + refs)[|front + refs| - 1])
  {}

  /**
   * Printing a statement line and reading it back recovers date, direction,
   * amount, type, both references and the supplementary details; the signed
   * amount carries the mark's sign. The amount is what its digits denote with a
   * point for every comma.
   */
  lemma AnyLineReadsBack(l: Line, info: Option<string>, toNumber: string -> Option<real>, amount: real, digits: string)
    requires LineOk(l) && Pointed(l.amount, digits) && toNumber(digits) == Some(amount)
    requires info.Some? ==> Trimming.Trimmed(info.value, IsBlank)
    ensures ReadLine(PrintLine(l, info), toNumber) == Some(Entry(l, amount, info))
  {
    hide ReadHead, PrintHead, LineOk, Entry, NonEmpty, Given, Points, Pointed;
    PointsIff(l.amount, digits);
    var head := PrintHead(l);
    var s := PrintLine(l, info);
    HeadIsClean(l);
    HeadReadsBack(l, info, toNumber, amount);
    assert forall k :: 0 <= k < |head| ==> s[k] == head[k];
    if info.Some? {
      FindFirst(s, '\n', |head|);
      assert s[..|head|] == head && s[|head| + 1..] == info.value;
      NonEmptyOfTrimmed(info.value);
    } else {
      assert s == head && s[..|s|] == head;
    }
  }

  /** A whole amount is the number it spells; with a comma before the cents it is that with a point. */
  lemma LineReadsBack(
      l: Line, info: Option<string>, toNumber: string -> Option<real>, amount: real, whole: string, cents: string)
    requires LineOk(l) && Lacks(whole, ',') && Lacks(cents, ',')
    requires (l.amount == whole && toNumber(whole) == Some(amount)) ||
             (l.amount == whole + ("," + cents) && toNumber(whole + ("." + cents)) == Some(amount))
    requires info.Some? ==> Trimming.Trimmed(info.value, IsBlank)
    ensures ReadLine(PrintLine(l, info), toNumber) == Some(Entry(l, amount, info))
  {
    hide LineOk, PrintLine, ReadLine, Entry;
    var digits := if l.amount == whole then whole else whole + ("." + cents);
    assert Pointed(l.amount, digits);
    AnyLineReadsBack(l, info, toNumber, amount, digits);
  }

  lemma NoEntryDate(date: string, mark: Direction, after: string)
    requires |date| == 6 && after != ""
    ensures var head := date + (MarkText(mark) + after);
      |head| >= 7 && !HasEntryDate(head) && head[6..] == MarkText(mark) + after
  {
    var head := date + (MarkText(mark) + after);
    assert head[6] == MarkText(mark)[0];
    if |head| >= 11 {
      assert head[6..10][0] == head[6];
    }
  }

  lemma NoAmount(blank: string, rest: string, toNumber: string -> Option<real>)
    requires Strip(blank) == "" && Lacks(blank, 'N')
    ensures ReadTail(blank + ("N" + rest), toNumber) == None
  {
    hide Strip, References;
    var tail := blank + ("N" + rest);
    assert tail[|blank|] == 'N' && forall k :: 0 <= k < |blank| ==> tail[k] == blank[k];
    FindFirst(tail, 'N', |blank|);
    assert tail[..|blank|] == blank;
  }

  /** Without an amount there is no entry, whatever number `toNumber` makes of nothing. */
  lemma NoAmountNoEntry(date: string, mark: Direction, funds: char, blank: string, rest: string, toNumber: string -> Option<real>)
    requires |date| == 6 && IsLetter(funds) && Strip(blank) == "" && Lacks(blank, 'N')
    requires Clean(date + (MarkText(mark) + ([funds] + (blank + ("N" + rest)))))
    ensures ReadLine(date + (MarkText(mark) + ([funds] + (blank + ("N" + rest)))), toNumber) == None
  {
    hide Strip, Clean, Find, HasEntryDate, ReadMark, MarkText, ReadTail, ToIso, NonEmpty, IsLetter;
    var tail := blank + ("N" + rest);
    var after := [funds] + tail;
    CleanLine(date + (MarkText(mark) + after));
    NoEntryDate(date, mark, after);
    MarkReadsBack(mark, after);
    assert after[1..] == tail;
    NoAmount(blank, rest, toNumber);
  }

  lemma CleanLine(s: string)
    requires Clean(s)
    ensures Find(s, '\n') == |s| && Strip(s[..|s|]) == s
  {
    assert s[..|s|] == s;
  }

  /** The mark that takes back an entry. */
  function Reversal(d: Direction): Direction {
    match d
    case Credit => ReversalCredit
    case Debit => ReversalDebit
    case ReversalCredit => Credit
    case ReversalDebit => Debit
  }

  /** A printed line and the same line with the reversing mark cancel out on the balance; each keeps its stated amount. */
  lemma ReversalsCancel(l: Line, info: Option<string>, toNumber: string -> Option<real>, amount: real, digits: string)
    requires LineOk(l) && Pointed(l.amount, digits) && toNumber(digits) == Some(amount)
    requires info.Some? ==> Trimming.Trimmed(info.value, IsBlank)
    ensures var e := ReadLine(PrintLine(l, info), toNumber);
      var r := ReadLine(PrintLine(l.(mark := Reversal(l.mark)), info), toNumber);
      && e.Some? && r.Some?
      && e.value.amount == r.value.amount == amount
      && e.value.signedAmount + r.value.signedAmount == 0.0
  {
    hide ReadLine, PrintLine, Pointed;
    AnyLineReadsBack(l, info, toNumber, amount, digits);
    AnyLineReadsBack(l.(mark := Reversal(l.mark)), info, toNumber, amount, digits);
  }
}
