/**
 Invoice headers against their lines (strategyos_mvp/invoice_reconciliation.py): per-invoice
 totals compared at a tolerance, with missing and orphan coverage listed apart.
 */
module InvoiceReconciliation {
  import opened Options
  import opened Sums
  import opened Seqs
  import opened Sorting

  /** A money cell as read by _amount (strategyos_mvp/receivables_aging.py). */
  datatype Money = Finite(value: real) | NonFinite | Unreadable

  datatype Header = Header(id: Option<string>, amount: Money)

  datatype Line = Line(id: Option<string>, number: Option<nat>, amount: Money)

  datatype Mismatch = Mismatch(id: string, header: real, lines: real, difference: real)

  datatype Report = Report(headers: nat, covered: nat, mismatches: seq<Mismatch>, missing: seq<string>,
                           orphans: seq<string>)

  datatype Error = BadHeaderId | MissingLineId | DuplicateLine | NonFiniteMoney | InvalidMoney

  datatype Outcome = Blocked(error: Error) | Reconciled(report: Report)

  const TOLERANCE: real := 0.01

  // ----- What is accepted -----

  predicate Named(id: Option<string>) { id.Some? && id.value != "" }

  function HeaderId(h: Header): string { h.id.Or("") }

  function LineId(l: Line): string { l.id.Or("") }

  function LineKey(l: Line): (string, nat) { (l.id.Or(""), l.number.Or(0)) }

  function LineAmount(l: Line): real { if l.amount.Finite? then l.amount.value else 0.0 }

  predicate GoodHeader(h: Header) { Named(h.id) && h.amount.Finite? }

  predicate GoodLine(l: Line) { Named(l.id) && l.number.Some? && l.amount.Finite? }

  /** Every header names an invoice of its own, every line an invoice and a number of its own; all money is finite. */
  ghost predicate ValidHeaders(headers: seq<Header>) {
    (forall h :: h in headers ==> GoodHeader(h)) && KeysDiffer(headers, HeaderId)
  }

  ghost predicate ValidLines(lines: seq<Line>) {
    (forall l :: l in lines ==> GoodLine(l)) && KeysDiffer(lines, LineKey)
  }

  /** What each header and all the lines of each invoice say. */
  ghost predicate AmountsOf(headers: seq<Header>, amounts: map<string, real>) {
    && amounts.Keys == KeysOf(headers, HeaderId)
    && forall h :: h in headers ==> Finite(amounts[HeaderId(h)]) == h.amount
  }

  ghost predicate TotalsOf(lines: seq<Line>, totals: map<string, real>) {
    && totals.Keys == KeysOf(lines, LineId)
    && forall id :: id in totals ==> totals[id] == Sum(lines, InClass(LineId, id, LineAmount))
  }

  // ----- What is reported -----

  function Abs(x: real): real { if x < 0.0 then -x else x }

  predicate Differs(amounts: map<string, real>, totals: map<string, real>, id: string) {
    id in amounts && id in totals && Abs(totals[id] - amounts[id]) > TOLERANCE
  }

  function MismatchOf(amounts: map<string, real>, totals: map<string, real>, id: string): Mismatch
    requires id in amounts && id in totals
  {
    Mismatch(id, amounts[id], totals[id], totals[id] - amounts[id])
  }

  /** Largest difference first, equal ones by invoice id. */
  predicate Precedes(a: Mismatch, b: Mismatch) {
    Abs(a.difference) > Abs(b.difference) || (Abs(a.difference) == Abs(b.difference) && Lex(a.id, b.id))
  }

  function MismatchId(m: Mismatch): string { m.id }

  ghost predicate IsMismatch(amounts: map<string, real>, totals: map<string, real>, m: Mismatch) {
    Differs(amounts, totals, m.id) && m == MismatchOf(amounts, totals, m.id)
  }

  /** The list holds exactly these invoices, each once, in order. */
  ghost predicate Lists(s: seq<string>, ids: set<string>) {
    && Sorted(s, Lex) && (forall x :: x in s <==> x in ids)
    && forall i, j :: 0 <= i < j < |s| ==> s[i] != s[j]
  }

  ghost predicate MismatchesOf(amounts: map<string, real>, totals: map<string, real>, s: seq<Mismatch>) {
    && (forall m :: m in s <==> IsMismatch(amounts, totals, m)) && KeysDiffer(s, MismatchId)
  }

  ghost predicate Reports(amounts: map<string, real>, totals: map<string, real>, r: Report) {
    && r.headers == |amounts|
    && r.covered == |amounts.Keys * totals.Keys|
    && Lists(r.missing, amounts.Keys - totals.Keys)
    && Lists(r.orphans, totals.Keys - amounts.Keys)
    && MismatchesOf(amounts, totals, r.mismatches)
    && Sorted(r.mismatches, Precedes)
  }

  // ----- The loops -----

  function MoneyError(m: Money): Option<Error> {
    match m
    case Finite(_) => None
    case NonFinite => Some(NonFiniteMoney)
    case Unreadable => Some(InvalidMoney)
  }

  /** The first header that cannot be taken, and what is wrong with it. */
  ghost predicate HeaderBlocks(headers: seq<Header>, i: int, e: Error) {
    && 0 <= i < |headers| && ValidHeaders(headers[..i])
    && Some(e) == if !Named(headers[i].id) || HeaderId(headers[i]) in KeysOf(headers[..i], HeaderId)
                  then Some(BadHeaderId)
                  else MoneyError(headers[i].amount)
  }

  ghost predicate LineBlocks(lines: seq<Line>, i: int, e: Error) {
    && 0 <= i < |lines| && ValidLines(lines[..i])
    && Some(e) == if !Named(lines[i].id) || lines[i].number.None? then Some(MissingLineId)
                  else if LineKey(lines[i]) in KeysOf(lines[..i], LineKey) then Some(DuplicateLine)
                  else MoneyError(lines[i].amount)
  }

  lemma OneMoreHeader(headers: seq<Header>, h: Header, amounts: map<string, real>)
    requires ValidHeaders(headers) && AmountsOf(headers, amounts)
    ensures ValidHeaders(headers + [h]) <==> GoodHeader(h) && HeaderId(h) !in amounts
    ensures GoodHeader(h) && HeaderId(h) !in amounts ==>
              AmountsOf(headers + [h], amounts[HeaderId(h) := h.amount.value])
  {
    KeysDifferAppend(headers, HeaderId, h);
    KeysOfAppend(headers, HeaderId, h);
    assert h in headers + [h];
    assert forall x :: x in headers ==> x in headers + [h];
    if GoodHeader(h) && HeaderId(h) !in amounts {
      forall x | x in headers ensures HeaderId(x) != HeaderId(h) {
        assert HeaderId(x) in KeysOf(headers, HeaderId);
      }
    }
  }

  /** totals[identity] += amount */
  function Posted(totals: map<string, real>, l: Line): map<string, real> {
    totals[LineId(l) := (if LineId(l) in totals then totals[LineId(l)] else 0.0) + LineAmount(l)]
  }

  lemma OneMoreLine(lines: seq<Line>, l: Line, seen: set<(string, nat)>)
    requires ValidLines(lines) && seen == KeysOf(lines, LineKey)
    ensures ValidLines(lines + [l]) <==> GoodLine(l) && LineKey(l) !in seen
    ensures seen + {LineKey(l)} == KeysOf(lines + [l], LineKey)
  {
    KeysDifferAppend(lines, LineKey, l);
    KeysOfAppend(lines, LineKey, l);
    assert l in lines + [l];
    assert forall x :: x in lines ==> x in lines + [l];
  }

  /** Adding a line to the running total of its invoice, which starts at zero. */
  lemma AddLine(lines: seq<Line>, l: Line, totals: map<string, real>)
    requires TotalsOf(lines, totals)
    ensures TotalsOf(lines + [l], Posted(totals, l))
  {
    KeysOfAppend(lines, LineId, l);
    forall id ensures Sum(lines + [l], InClass(LineId, id, LineAmount))
                   == Sum(lines, InClass(LineId, id, LineAmount)) + (if LineId(l) == id then LineAmount(l) else 0.0) {
      SumAppend(lines, l, InClass(LineId, id, LineAmount));
    }
    if LineId(l) !in totals {
      NothingOf(lines, LineId(l));
    }
  }

  lemma {:induction false} NothingOf(lines: seq<Line>, id: string)
    requires id !in KeysOf(lines, LineId)
    ensures Sum(lines, InClass(LineId, id, LineAmount)) == 0.0
  {
    if lines != [] {
      var init, last := lines[..|lines| - 1], lines[|lines| - 1];
      assert lines == init + [last];
      KeysOfAppend(init, LineId, last);
      NothingOf(init, id);
    }
  }

  lemma TwoOfPrefix<T>(s: seq<T>, n: nat, a: T, b: T)
    requires n <= |s| && TwoOf(s[..n], a, b)
    ensures TwoOf(s, a, b)
  {
    assert s == s[..n] + s[n..];
    assert multiset(s) == multiset(s[..n]) + multiset(s[n..]);
  }

  lemma ValidPrefix(headers: seq<Header>, n: nat)
    requires n <= |headers|
    ensures ValidHeaders(headers) ==> ValidHeaders(headers[..n])
  {
    forall a, b | TwoOf(headers[..n], a, b) ensures TwoOf(headers, a, b) {
      TwoOfPrefix(headers, n, a, b);
    }
  }

  lemma ValidLinePrefix(lines: seq<Line>, n: nat)
    requires n <= |lines|
    ensures ValidLines(lines) ==> ValidLines(lines[..n])
  {
    forall a, b | TwoOf(lines[..n], a, b) ensures TwoOf(lines, a, b) {
      TwoOfPrefix(lines, n, a, b);
    }
  }

  lemma NextHeader(headers: seq<Header>, i: nat, amounts: map<string, real>)
    requires i < |headers| && ValidHeaders(headers[..i]) && AmountsOf(headers[..i], amounts)
    ensures var h := headers[i];
            if GoodHeader(h) && HeaderId(h) !in amounts then
              ValidHeaders(headers[..i + 1]) && AmountsOf(headers[..i + 1], amounts[HeaderId(h) := h.amount.value])
            else !ValidHeaders(headers)
  {
    OneMoreHeader(headers[..i], headers[i], amounts);
    assert headers[..i + 1] == headers[..i] + [headers[i]];
    ValidPrefix(headers, i + 1);
  }

  lemma NextLine(lines: seq<Line>, i: nat, seen: set<(string, nat)>)
    requires i < |lines| && ValidLines(lines[..i]) && seen == KeysOf(lines[..i], LineKey)
    ensures seen + {LineKey(lines[i])} == KeysOf(lines[..i + 1], LineKey)
    ensures if GoodLine(lines[i]) && LineKey(lines[i]) !in seen then ValidLines(lines[..i + 1]) else !ValidLines(lines)
  {
    OneMoreLine(lines[..i], lines[i], seen);
    assert lines[..i + 1] == lines[..i] + [lines[i]];
    ValidLinePrefix(lines, i + 1);
  }

  lemma NextTotals(lines: seq<Line>, i: nat, totals: map<string, real>)
    requires i < |lines| && TotalsOf(lines[..i], totals)
    ensures TotalsOf(lines[..i + 1], Posted(totals, lines[i]))
  {
    AddLine(lines[..i], lines[i], totals);
    assert lines[..i + 1] == lines[..i] + [lines[i]];
  }

  method ReadHeaders(headers: seq<Header>) returns (amounts: map<string, real>, error: Option<Error>)
    ensures error.None? <==> ValidHeaders(headers)
    ensures error.None? ==> AmountsOf(headers, amounts)
    ensures error.Some? ==> exists i :: HeaderBlocks(headers, i, error.value)
  {
    amounts := map[];
    for i := 0 to |headers|
      invariant ValidHeaders(headers[..i]) && AmountsOf(headers[..i], amounts)
    {
      var h := headers[i];
      NextHeader(headers, i, amounts);
      if !Named(h.id) || h.id.value in amounts {
        assert HeaderBlocks(headers, i, BadHeaderId);
        return amounts, Some(BadHeaderId);
      }
      if MoneyError(h.amount).Some? {
        assert HeaderBlocks(headers, i, MoneyError(h.amount).value);
        return amounts, MoneyError(h.amount);
      }
      amounts := amounts[h.id.value := h.amount.value];
    }
    assert headers[..|headers|] == headers;
    error := None;
  }

  method ReadLines(lines: seq<Line>) returns (totals: map<string, real>, error: Option<Error>)
    ensures error.None? <==> ValidLines(lines)
    ensures error.None? ==> TotalsOf(lines, totals)
    ensures error.Some? ==> exists i :: LineBlocks(lines, i, error.value)
  {
    totals := map[];
    var seen: set<(string, nat)> := {};
    for i := 0 to |lines|
      invariant ValidLines(lines[..i]) && TotalsOf(lines[..i], totals)
      invariant seen == KeysOf(lines[..i], LineKey)
    {
      var l := lines[i];
      NextLine(lines, i, seen);
      NextTotals(lines, i, totals);
      if !Named(l.id) || l.number.None? {
        assert LineBlocks(lines, i, MissingLineId);
        return totals, Some(MissingLineId);
      }
      var key := (l.id.value, l.number.value);
      if key in seen {
        assert LineBlocks(lines, i, DuplicateLine);
        return totals, Some(DuplicateLine);
      }
      if MoneyError(l.amount).Some? {
        assert LineBlocks(lines, i, MoneyError(l.amount).value);
        return totals, MoneyError(l.amount);
      }
      seen, totals := seen + {key}, Posted(totals, l);
    }
    assert lines[..|lines|] == lines;
    error := None;
  }

  // ----- What acceptance means, row by row -----

  /** A header with a name, first in its list, and a finite amount. */
  ghost predicate Accepted(headers: seq<Header>, i: nat) {
    && i < |headers|
    && (exists name, x :: name != "" && headers[i].id == Some(name) && headers[i].amount == Finite(x))
    && forall j: nat :: j < i ==> headers[j].id != headers[i].id
  }

  /** A line with an invoice and a number that no earlier line has together, and a finite amount. */
  ghost predicate AcceptedLine(lines: seq<Line>, i: nat) {
    && i < |lines|
    && (exists name, n, x :: name != "" && lines[i].id == Some(name) && lines[i].number == Some(n)
                             && lines[i].amount == Finite(x))
    && forall j: nat :: j < i ==> lines[j].id != lines[i].id || lines[j].number != lines[i].number
  }

  lemma GoodHeaderExactly(h: Header)
    ensures GoodHeader(h) <==> exists name, x :: name != "" && h.id == Some(name) && h.amount == Finite(x)
  {
    if GoodHeader(h) {
      assert h.id == Some(h.id.value) && h.amount == Finite(h.amount.value);
    }
  }

  lemma GoodLineExactly(l: Line)
    ensures GoodLine(l) <==>
            exists name, n, x :: name != "" && l.id == Some(name) && l.number == Some(n) && l.amount == Finite(x)
  {
    if GoodLine(l) {
      assert l.id == Some(l.id.value) && l.number == Some(l.number.value) && l.amount == Finite(l.amount.value);
    }
  }

  lemma AcceptedNext(headers: seq<Header>, i: nat)
    requires i < |headers| && ValidHeaders(headers[..i])
    ensures Accepted(headers, i) <==>
            GoodHeader(headers[i]) && HeaderId(headers[i]) !in KeysOf(headers[..i], HeaderId)
  {
    GoodHeaderExactly(headers[i]);
    forall j: nat | j < i
      ensures GoodHeader(headers[j]) && HeaderId(headers[j]) in KeysOf(headers[..i], HeaderId)
    {
      assert headers[..i][j] == headers[j] && headers[j] in headers[..i];
    }
  }

  lemma AcceptedLineNext(lines: seq<Line>, i: nat)
    requires i < |lines| && ValidLines(lines[..i])
    ensures AcceptedLine(lines, i) <==> GoodLine(lines[i]) && LineKey(lines[i]) !in KeysOf(lines[..i], LineKey)
  {
    GoodLineExactly(lines[i]);
    forall j: nat | j < i ensures GoodLine(lines[j]) && LineKey(lines[j]) in KeysOf(lines[..i], LineKey) {
      assert lines[..i][j] == lines[j] && lines[j] in lines[..i];
    }
  }

  /** The rows up to a place are valid exactly when each of them is accepted. */
  lemma {:induction false} ValidExactly(headers: seq<Header>, n: nat)
    requires n <= |headers|
    ensures ValidHeaders(headers[..n]) <==> forall i: nat :: i < n ==> Accepted(headers, i)
  {
    if n > 0 {
      ValidExactly(headers, n - 1);
      assert headers[..n] == headers[..n - 1] + [headers[n - 1]] && headers[..n][..n - 1] == headers[..n - 1];
      ValidPrefix(headers[..n], n - 1);
      if ValidHeaders(headers[..n - 1]) {
        AcceptedNext(headers, n - 1);
        StillValid(headers[..n - 1], headers[n - 1]);
      }
    }
  }

  lemma StillValid(headers: seq<Header>, h: Header)
    requires ValidHeaders(headers)
    ensures ValidHeaders(headers + [h]) <==> GoodHeader(h) && HeaderId(h) !in KeysOf(headers, HeaderId)
  {
    KeysDifferAppend(headers, HeaderId, h);
    assert h in headers + [h];
    assert forall x :: x in headers ==> x in headers + [h];
  }

  lemma {:induction false} ValidLinesExactly(lines: seq<Line>, n: nat)
    requires n <= |lines|
    ensures ValidLines(lines[..n]) <==> forall i: nat :: i < n ==> AcceptedLine(lines, i)
  {
    if n > 0 {
      ValidLinesExactly(lines, n - 1);
      assert lines[..n] == lines[..n - 1] + [lines[n - 1]] && lines[..n][..n - 1] == lines[..n - 1];
      ValidLinePrefix(lines[..n], n - 1);
      if ValidLines(lines[..n - 1]) {
        AcceptedLineNext(lines, n - 1);
        OneMoreLine(lines[..n - 1], lines[n - 1], KeysOf(lines[..n - 1], LineKey));
      }
    }
  }

  /** The first header that is not accepted is blamed for its name, or else for its money. */
  lemma HeaderBlame(headers: seq<Header>, i: nat, e: Error)
    ensures HeaderBlocks(headers, i, e) <==>
            && i < |headers| && !Accepted(headers, i) && (forall j: nat :: j < i ==> Accepted(headers, j))
            && e == (if headers[i].id == None || headers[i].id == Some("")
                        || (exists j: nat :: j < i && headers[j].id == headers[i].id) then BadHeaderId
                     else if headers[i].amount == NonFinite then NonFiniteMoney else InvalidMoney)
  {
    if i < |headers| {
      ValidExactly(headers, i);
      if ValidHeaders(headers[..i]) {
        AcceptedNext(headers, i);
        if Named(headers[i].id) {
          NamesSoFar(headers, i);
        }
      }
    }
  }

  lemma NamesSoFar(headers: seq<Header>, i: nat)
    requires i < |headers| && ValidHeaders(headers[..i]) && Named(headers[i].id)
    ensures HeaderId(headers[i]) in KeysOf(headers[..i], HeaderId) <==>
            exists j: nat :: j < i && headers[j].id == headers[i].id
  {
    forall j: nat | j < i
      ensures GoodHeader(headers[j]) && HeaderId(headers[j]) in KeysOf(headers[..i], HeaderId)
    {
      assert headers[..i][j] == headers[j] && headers[j] in headers[..i];
    }
    if HeaderId(headers[i]) in KeysOf(headers[..i], HeaderId) {
      var h :| h in headers[..i] && HeaderId(h) == HeaderId(headers[i]);
      var j: nat :| j < i && headers[..i][j] == h;
      assert headers[j].id == headers[i].id;
    }
  }

  /** So is the first line: for its invoice or number, for repeating both, or else for its money. */
  lemma LineBlame(lines: seq<Line>, i: nat, e: Error)
    ensures LineBlocks(lines, i, e) <==>
            && i < |lines| && !AcceptedLine(lines, i) && (forall j: nat :: j < i ==> AcceptedLine(lines, j))
            && e == (if lines[i].id == None || lines[i].id == Some("") || lines[i].number == None then MissingLineId
                     else if exists j: nat :: j < i && SameLine(lines[j], lines[i]) then DuplicateLine
                     else if lines[i].amount == NonFinite then NonFiniteMoney else InvalidMoney)
  {
    if i < |lines| {
      ValidLinesExactly(lines, i);
      if ValidLines(lines[..i]) {
        AcceptedLineNext(lines, i);
        if Named(lines[i].id) && lines[i].number.Some? {
          LinesSoFar(lines, i);
        }
      }
    }
  }

  ghost predicate SameLine(l: Line, m: Line) { l.id == m.id && l.number == m.number }

  lemma LinesSoFar(lines: seq<Line>, i: nat)
    requires i < |lines| && ValidLines(lines[..i]) && Named(lines[i].id) && lines[i].number.Some?
    ensures LineKey(lines[i]) in KeysOf(lines[..i], LineKey) <==> exists j: nat :: j < i && SameLine(lines[j], lines[i])
  {
    forall j: nat | j < i ensures GoodLine(lines[j]) && LineKey(lines[j]) in KeysOf(lines[..i], LineKey) {
      assert lines[..i][j] == lines[j] && lines[j] in lines[..i];
    }
    if LineKey(lines[i]) in KeysOf(lines[..i], LineKey) {
      var l :| l in lines[..i] && LineKey(l) == LineKey(lines[i]);
      var j: nat :| j < i && lines[..i][j] == l;
      assert SameLine(lines[j], lines[i]);
    }
  }

  /** What a line of an invoice adds to its total. */
  function Charged(id: string): Line -> real {
    (l: Line) => if l.id == Some(id) && l.amount.Finite? then l.amount.value else 0.0
  }

  /** An invoice whose lines, of which there are some, sum to more than a hundredth above or below its header. */
  ghost predicate Mismatched(headers: seq<Header>, lines: seq<Line>, m: Mismatch) {
    && (exists h :: h in headers && h.id == Some(m.id) && h.amount == Finite(m.header))
    && (exists l :: l in lines && l.id == Some(m.id))
    && m.lines == Sum(lines, Charged(m.id)) && m.difference == m.lines - m.header
    && (m.difference > 0.01 || m.difference < -0.01)
  }

  /** The mismatches of a report, told from the rows. */
  lemma MismatchesTell(headers: seq<Header>, lines: seq<Line>, amounts: map<string, real>, totals: map<string, real>,
                       m: Mismatch)
    requires ValidHeaders(headers) && ValidLines(lines) && AmountsOf(headers, amounts) && TotalsOf(lines, totals)
    ensures IsMismatch(amounts, totals, m) <==> Mismatched(headers, lines, m)
  {
    TotalIsCharged(lines, m.id);
    HeadersByName(headers, amounts, m.id, m.header);
    assert m.id in totals <==> exists l :: l in lines && l.id == Some(m.id) by {
      forall l | l in lines ensures LineId(l) == m.id <==> l.id == Some(m.id) {
        assert GoodLine(l);
      }
    }
  }

  lemma HeadersByName(headers: seq<Header>, amounts: map<string, real>, id: string, x: real)
    requires ValidHeaders(headers) && AmountsOf(headers, amounts)
    ensures id in amounts && amounts[id] == x <==>
            exists h :: h in headers && h.id == Some(id) && h.amount == Finite(x)
  {
    forall h | h in headers ensures HeaderId(h) == id <==> h.id == Some(id) {
      assert GoodHeader(h);
    }
  }

  lemma TotalIsCharged(lines: seq<Line>, id: string)
    requires forall l :: l in lines ==> GoodLine(l)
    ensures Sum(lines, InClass(LineId, id, LineAmount)) == Sum(lines, Charged(id))
  {
    forall l | l in lines ensures InClass(LineId, id, LineAmount)(l) == Charged(id)(l) {
      assert GoodLine(l) && l.id == Some(LineId(l));
      assert InClass(LineId, id, LineAmount)(l) == if LineId(l) == id then LineAmount(l) else 0.0;
    }
    SumCongruence(lines, InClass(LineId, id, LineAmount), Charged(id));
  }

  /** The mismatches of a report come by size, largest first, and equal ones by invoice id. */
  lemma MismatchesInOrder(amounts: map<string, real>, totals: map<string, real>, r: Report, i: nat, j: nat)
    requires Reports(amounts, totals, r) && i < j < |r.mismatches|
    ensures var a, b := r.mismatches[i], r.mismatches[j];
            && Abs(a.difference) >= Abs(b.difference)
            && (Abs(a.difference) == Abs(b.difference) ==> a.id != b.id && Lex(a.id, b.id))
  {
    var a, b := r.mismatches[i], r.mismatches[j];
    assert Precedes(a, b);
    PlacesAreTwo(r.mismatches, i, j);
    assert MismatchId(a) != MismatchId(b);
  }

  /** sorted(ids), whatever order the set is visited in. */
  method SortedIds(ids: set<string>) returns (s: seq<string>)
    ensures Lists(s, ids)
  {
    LexIsTotalOrder();
    s := [];
    var rest := ids;
    while rest != {}
      invariant rest <= ids && Lists(s, ids - rest)
    {
      var id :| id in rest;
      InsertLists(s, ids - rest, id);
      s := Insert(id, s, Lex);
      rest := rest - {id};
      assert ids - rest == ids - (rest + {id}) + {id};
    }
    assert ids - rest == ids;
  }

  lemma InsertLists(s: seq<string>, ids: set<string>, id: string)
    requires Lists(s, ids) && id !in ids
    ensures Lists(Insert(id, s, Lex), ids + {id})
  {
    LexIsTotalOrder();
    InsertKeepsSorted(id, s, Lex);
    InsertDistinct(id, s);
  }

  lemma InsertDistinct(id: string, s: seq<string>)
    requires id !in s && forall i, j :: 0 <= i < j < |s| ==> s[i] != s[j]
    ensures forall i, j :: 0 <= i < j < |Insert(id, s, Lex)| ==> Insert(id, s, Lex)[i] != Insert(id, s, Lex)[j]
    ensures forall x :: x in Insert(id, s, Lex) <==> x in s || x == id
  {
    var t := Insert(id, s, Lex);
    assert forall x :: x in t <==> x in multiset(t);
    assert forall x :: x in s <==> x in multiset(s);
    forall i, j | 0 <= i < j < |t| ensures t[i] != t[j] {
      PlacesAreTwo(t, i, j);
      if t[i] == t[j] && t[i] != id {
        assert TwoOf(s, t[i], t[i]);
        var k, l := PlacesOf(s, t[i], t[i]);
      }
    }
  }

  // ----- The report -----

  lemma PrecedesIsOrder()
    ensures Connected(Precedes) && Transitive(Precedes)
  {
    LexIsTotalOrder();
    forall a, b ensures Precedes(a, b) || Precedes(b, a) {
      assert Lex(a.id, b.id) || Lex(b.id, a.id);
    }
    forall a, b, c | Precedes(a, b) && Precedes(b, c) ensures Precedes(a, c) {
      if Lex(a.id, b.id) && Lex(b.id, c.id) {
        LexTransitive(a.id, b.id, c.id);
      }
    }
  }

  function MismatchIn(amounts: map<string, real>, totals: map<string, real>): Header -> Option<Mismatch> {
    h => if Differs(amounts, totals, HeaderId(h)) then Some(MismatchOf(amounts, totals, HeaderId(h))) else None
  }

  /** The comprehension over the headers finds every mismatch once. */
  lemma CollectedMismatches(headers: seq<Header>, amounts: map<string, real>, totals: map<string, real>)
    requires ValidHeaders(headers) && AmountsOf(headers, amounts)
    ensures MismatchesOf(amounts, totals, Collect(headers, MismatchIn(amounts, totals)))
  {
    var f := MismatchIn(amounts, totals);
    forall m ensures m in Collect(headers, f) <==> IsMismatch(amounts, totals, m) {
      if IsMismatch(amounts, totals, m) {
        assert m.id in KeysOf(headers, HeaderId);
        var h :| h in headers && HeaderId(h) == m.id;
        assert f(h) == Some(m);
      }
    }
    CollectKeepsKeys(headers, f, HeaderId, MismatchId);
  }

  lemma SortKeepsMismatches(amounts: map<string, real>, totals: map<string, real>, s: seq<Mismatch>)
    requires MismatchesOf(amounts, totals, s)
    ensures MismatchesOf(amounts, totals, SortBy(s, Precedes)) && Sorted(SortBy(s, Precedes), Precedes)
  {
    PrecedesIsOrder();
    SortBySorts(s, Precedes);
    var t := SortBy(s, Precedes);
    assert forall m :: m in s <==> m in multiset(s);
    assert forall m :: m in t <==> m in multiset(t);
    forall a, b | TwoOf(t, a, b) ensures TwoOf(s, a, b) {
    }
  }

  method Reconcile(headers: seq<Header>, lines: seq<Line>)
    returns (r: Outcome, ghost amounts: map<string, real>, ghost totals: map<string, real>)
    ensures r.Reconciled? <==> ValidHeaders(headers) && ValidLines(lines)
    ensures r.Reconciled? ==>
              AmountsOf(headers, amounts) && TotalsOf(lines, totals) && Reports(amounts, totals, r.report)
    ensures r.Blocked? ==>
              || (exists i :: HeaderBlocks(headers, i, r.error))
              || (ValidHeaders(headers) && exists i :: LineBlocks(lines, i, r.error))
  {
    var headerAmounts, headerError := ReadHeaders(headers);
    var lineTotals: map<string, real> := map[];
    amounts, totals := headerAmounts, lineTotals;
    if headerError.Some? {
      return Blocked(headerError.value), amounts, totals;
    }
    var lineError;
    lineTotals, lineError := ReadLines(lines);
    totals := lineTotals;
    if lineError.Some? {
      return Blocked(lineError.value), amounts, totals;
    }
    CollectedMismatches(headers, amounts, totals);
    var report := WriteReport(Collect(headers, MismatchIn(headerAmounts, lineTotals)), headerAmounts, lineTotals);
    r := Reconciled(report);
  }

  method WriteReport(found: seq<Mismatch>, amounts: map<string, real>, totals: map<string, real>) returns (r: Report)
    requires MismatchesOf(amounts, totals, found)
    ensures Reports(amounts, totals, r)
  {
    SortKeepsMismatches(amounts, totals, found);
    var missing := SortedIds(amounts.Keys - totals.Keys);
    var orphans := SortedIds(totals.Keys - amounts.Keys);
    r := Report(|amounts|, |amounts.Keys * totals.Keys|, SortBy(found, Precedes), missing, orphans);
  }

  // ----- Row order does not matter -----

  lemma SameRows<T(!new), K(!new)>(a: seq<T>, b: seq<T>, key: T -> K)
    requires SameBag(a, b)
    ensures KeysOf(a, key) == KeysOf(b, key)
    ensures KeysDiffer(a, key) <==> KeysDiffer(b, key)
  {
    SameBagMembers(a, b);
    assert forall x, y :: TwoOf(a, x, y) <==> TwoOf(b, x, y);
  }

  /** Whether a report is given does not depend on the order of the rows. */
  lemma VerdictForgetsOrder(headers: seq<Header>, headers': seq<Header>, lines: seq<Line>, lines': seq<Line>)
    requires SameBag(headers, headers') && SameBag(lines, lines')
    ensures ValidHeaders(headers) && ValidLines(lines) <==> ValidHeaders(headers') && ValidLines(lines')
  {
    SameBagMembers(headers, headers');
    SameBagMembers(lines, lines');
    SameRows(headers, headers', HeaderId);
    SameRows(lines, lines', LineKey);
  }

  lemma AmountsForgetOrder(headers: seq<Header>, headers': seq<Header>, amounts: map<string, real>,
                           amounts': map<string, real>)
    requires SameBag(headers, headers') && AmountsOf(headers, amounts) && AmountsOf(headers', amounts')
    ensures amounts == amounts'
  {
    SameBagMembers(headers, headers');
    SameRows(headers, headers', HeaderId);
    forall id | id in amounts ensures amounts[id] == amounts'[id] {
      var h :| h in headers && HeaderId(h) == id;
      assert h in headers';
    }
  }

  lemma TotalsForgetOrder(lines: seq<Line>, lines': seq<Line>, totals: map<string, real>, totals': map<string, real>)
    requires SameBag(lines, lines') && TotalsOf(lines, totals) && TotalsOf(lines', totals')
    ensures totals == totals'
  {
    SameRows(lines, lines', LineId);
    forall id | id in totals ensures totals[id] == totals'[id] {
      SumPermutation(lines, lines', InClass(LineId, id, LineAmount));
    }
  }

  lemma DistinctCounts<T>(s: seq<T>, x: T)
    requires forall i, j :: 0 <= i < j < |s| ==> s[i] != s[j]
    ensures multiset(s)[x] == if x in s then 1 else 0
  {
    if multiset(s)[x] >= 2 {
      assert TwoOf(s, x, x);
      var i, j := PlacesOf(s, x, x);
    }
  }

  lemma ListsIsUnique(a: seq<string>, b: seq<string>, ids: set<string>)
    requires Lists(a, ids) && Lists(b, ids)
    ensures a == b
  {
    LexIsTotalOrder();
    forall x ensures multiset(a)[x] == multiset(b)[x] {
      DistinctCounts(a, x);
      DistinctCounts(b, x);
    }
    assert multiset(a) == multiset(b);
    SortedIsUnique(a, b, Lex);
  }

  lemma KeysDifferCounts<T(!new), K>(s: seq<T>, key: T -> K, x: T)
    requires KeysDiffer(s, key)
    ensures multiset(s)[x] == if x in s then 1 else 0
  {
    assert !TwoOf(s, x, x);
  }

  lemma MismatchesAreUnique(amounts: map<string, real>, totals: map<string, real>, a: seq<Mismatch>, b: seq<Mismatch>)
    requires MismatchesOf(amounts, totals, a) && MismatchesOf(amounts, totals, b)
    requires Sorted(a, Precedes) && Sorted(b, Precedes)
    ensures a == b
  {
    PrecedesIsOrder();
    forall m ensures multiset(a)[m] == multiset(b)[m] {
      KeysDifferCounts(a, MismatchId, m);
      KeysDifferCounts(b, MismatchId, m);
    }
    assert multiset(a) == multiset(b);
    forall m, n | m in a && n in a && Precedes(m, n) && Precedes(n, m) ensures m == n {
      LexTotal(m.id, n.id);
    }
    SortedIsUnique(a, b, Precedes);
  }

  /** The whole report is the same for any order of the headers and of the lines. */
  lemma ReportForgetsOrder(headers: seq<Header>, headers': seq<Header>, lines: seq<Line>, lines': seq<Line>,
                           amounts: map<string, real>, amounts': map<string, real>,
                           totals: map<string, real>, totals': map<string, real>, r: Report, r': Report)
    requires SameBag(headers, headers') && SameBag(lines, lines')
    requires AmountsOf(headers, amounts) && TotalsOf(lines, totals) && Reports(amounts, totals, r)
    requires AmountsOf(headers', amounts') && TotalsOf(lines', totals') && Reports(amounts', totals', r')
    ensures r == r'
  {
    AmountsForgetOrder(headers, headers', amounts, amounts');
    TotalsForgetOrder(lines, lines', totals, totals');
    ListsIsUnique(r.missing, r'.missing, amounts.Keys - totals.Keys);
    ListsIsUnique(r.orphans, r'.orphans, totals.Keys - amounts.Keys);
    MismatchesAreUnique(amounts, totals, r.mismatches, r'.mismatches);
  }

  // ----- The balance -----

  function Difference(amounts: map<string, real>, totals: map<string, real>): string -> real {
    id => At(totals)(id) - At(amounts)(id)
  }

  /** The tolerance, n times. */
  function Slack(n: int): real { 0.01 * n as real }

  predicate Within(a: real, b: real, bound: real) { b - bound <= a <= b + bound }

  function DifferenceOf(m: Mismatch): real { m.difference }

  lemma {:induction false} TotalOfUnion<T>(a: set<T>, b: set<T>, f: T -> real)
    requires a !! b
    ensures Total(a + b, f) == Total(a, f) + Total(b, f)
    decreases |b|
  {
    if b == {} {
      assert a + b == a;
    } else {
      var x :| x in b;
      TotalOfUnion(a, b - {x}, f);
      TotalWithout(b, x, f);
      TotalWithout(a + b, x, f);
      assert a + b - {x} == a + (b - {x});
    }
  }

  lemma {:induction false} TotalIsSmall<T>(s: set<T>, f: T -> real)
    requires forall x :: x in s ==> Abs(f(x)) <= TOLERANCE
    ensures Within(Total(s, f), 0.0, Slack(|s|))
    decreases |s|
  {
    if s != {} {
      var x :| x in s;
      TotalWithout(s, x, f);
      TotalIsSmall(s - {x}, f);
      assert |s - {x}| == |s| - 1;
    }
  }

  /** The differences of the listed rows add up as those of their invoices do. */
  lemma {:induction false} ListedDifferences(s: seq<Mismatch>, f: string -> real)
    requires KeysDiffer(s, MismatchId) && forall m :: m in s ==> f(m.id) == m.difference
    ensures Sum(s, DifferenceOf) == Total(KeysOf(s, MismatchId), f) && |KeysOf(s, MismatchId)| == |s|
  {
    if s != [] {
      var init, last := s[..|s| - 1], s[|s| - 1];
      assert s == init + [last];
      KeysDifferAppend(init, MismatchId, last);
      KeysOfAppend(init, MismatchId, last);
      ListedDifferences(init, f);
      TotalWith(KeysOf(init, MismatchId), last.id, f);
    }
  }

  lemma SplitOff<T>(listed: set<T>, covered: set<T>, d: T -> real)
    requires listed <= covered && forall x :: x in covered && x !in listed ==> Abs(d(x)) <= TOLERANCE
    ensures |listed| <= |covered|
    ensures Within(Total(covered, d), Total(listed, d), Slack(|covered| - |listed|))
  {
    var rest := covered - listed;
    TotalOfUnion(listed, rest, d);
    TotalIsSmall(rest, d);
    assert covered == listed + rest;
    assert |covered| == |listed| + |rest|;
  }

  /** Lines against headers over the covered invoices, the orphans apart; `sum` is all line money, `shown` the
      differences of n - m fewer invoices than are covered. */
  lemma Balance<T>(covered: set<T>, orphans: set<T>, listed: set<T>, lines: T -> real, headers: T -> real, d: T -> real,
                   sum: real, shown: real, n: int, m: int)
    requires covered !! orphans && listed <= covered
    requires forall x :: x in covered ==> lines(x) == d(x) + headers(x)
    requires forall x :: x in covered && x !in listed ==> Abs(d(x)) <= TOLERANCE
    requires sum == Total(covered + orphans, lines) && shown == Total(listed, d) && n == |covered| && m == |listed|
    ensures m <= n
    ensures Within(sum, Total(covered, headers) + Total(orphans, lines) + shown, Slack(n - m))
  {
    TotalOfUnion(covered, orphans, lines);
    TotalIsAdditive(covered, d, headers, lines);
    SplitOff(listed, covered, d);
  }

  lemma ListedAgree(amounts: map<string, real>, totals: map<string, real>, s: seq<Mismatch>)
    requires MismatchesOf(amounts, totals, s)
    ensures forall m :: m in s ==> Difference(amounts, totals)(m.id) == m.difference
  {
    forall m | m in s ensures Difference(amounts, totals)(m.id) == m.difference {
      assert IsMismatch(amounts, totals, m);
      DifferenceAt(amounts, totals, m.id);
    }
  }

  lemma DifferenceAt(amounts: map<string, real>, totals: map<string, real>, id: string)
    requires id in amounts && id in totals
    ensures Difference(amounts, totals)(id) == totals[id] - amounts[id]
  {
    assert At(totals)(id) == totals[id] && At(amounts)(id) == amounts[id];
  }

  lemma OthersAreSmall(listed: set<string>, amounts: map<string, real>, totals: map<string, real>)
    requires forall id :: id in listed <==> Differs(amounts, totals, id)
    ensures listed <= amounts.Keys * totals.Keys
    ensures forall id :: id in amounts.Keys * totals.Keys && id !in listed ==>
              Abs(Difference(amounts, totals)(id)) <= TOLERANCE
  {
    forall id | id in amounts.Keys * totals.Keys && id !in listed
      ensures Abs(Difference(amounts, totals)(id)) <= TOLERANCE
    {
      DifferenceAt(amounts, totals, id);
    }
  }

  /** The invoices of the listed rows. */
  lemma ListedFacts(amounts: map<string, real>, totals: map<string, real>, s: seq<Mismatch>)
    returns (listed: set<string>)
    requires MismatchesOf(amounts, totals, s)
    ensures |listed| == |s| && listed <= amounts.Keys * totals.Keys
    ensures Sum(s, DifferenceOf) == Total(listed, Difference(amounts, totals))
    ensures forall id :: id in amounts.Keys * totals.Keys && id !in listed ==>
              Abs(Difference(amounts, totals)(id)) <= TOLERANCE
  {
    listed := KeysOf(s, MismatchId);
    ListedAgree(amounts, totals, s);
    ListedDifferences(s, Difference(amounts, totals));
    ListedAreCovered(amounts, totals, s);
    OthersAreSmall(listed, amounts, totals);
  }

  /** All line money is the covered header money, the orphan totals, the listed differences, and a rest of at most
      the tolerance for each covered invoice that is not listed. */
  lemma ReconciliationBalances(lines: seq<Line>, amounts: map<string, real>, totals: map<string, real>, r: Report)
    requires TotalsOf(lines, totals) && Reports(amounts, totals, r)
    ensures |r.mismatches| <= r.covered
    ensures var covered, orphans := amounts.Keys * totals.Keys, totals.Keys - amounts.Keys;
            Within(Sum(lines, LineAmount),
                   Total(covered, At(amounts)) + Total(orphans, At(totals)) + Sum(r.mismatches, DifferenceOf),
                   Slack(r.covered - |r.mismatches|))
  {
    var listed := ListedFacts(amounts, totals, r.mismatches);
    AllLines(lines, totals);
    BalanceOfMaps(amounts, totals, listed, Sum(lines, LineAmount), Sum(r.mismatches, DifferenceOf),
                  r.covered, |r.mismatches|);
  }

  lemma BalanceOfMaps(amounts: map<string, real>, totals: map<string, real>, listed: set<string>, sum: real,
                      shown: real, n: int, m: int)
    requires sum == Total(totals.Keys, At(totals)) && shown == Total(listed, Difference(amounts, totals))
    requires n == |amounts.Keys * totals.Keys| && m == |listed| && listed <= amounts.Keys * totals.Keys
    requires forall id :: id in amounts.Keys * totals.Keys && id !in listed ==>
               Abs(Difference(amounts, totals)(id)) <= TOLERANCE
    ensures m <= n
    ensures Within(sum,
                   Total(amounts.Keys * totals.Keys, At(amounts)) + Total(totals.Keys - amounts.Keys, At(totals))
                   + shown,
                   Slack(n - m))
  {
    SetSplit(totals.Keys, amounts.Keys);
    Balance(amounts.Keys * totals.Keys, totals.Keys - amounts.Keys, listed, At(totals), At(amounts),
            Difference(amounts, totals), sum, shown, n, m);
  }

  lemma SetSplit<T>(a: set<T>, b: set<T>)
    ensures b * a + (a - b) == a
  {
  }

  lemma AllLines(lines: seq<Line>, totals: map<string, real>)
    requires TotalsOf(lines, totals)
    ensures Sum(lines, LineAmount) == Total(totals.Keys, At(totals))
  {
    forall l | l in lines ensures LineId(l) in totals.Keys {
      assert LineId(l) in KeysOf(lines, LineId);
    }
    SumByClass(lines, totals.Keys, LineId, LineAmount);
    TotalCongruence(totals.Keys, ClassSum(lines, LineId, LineAmount), At(totals));
  }

  lemma ListedAreCovered(amounts: map<string, real>, totals: map<string, real>, s: seq<Mismatch>)
    requires MismatchesOf(amounts, totals, s)
    ensures forall id :: id in KeysOf(s, MismatchId) <==> Differs(amounts, totals, id)
  {
    forall id ensures id in KeysOf(s, MismatchId) <==> Differs(amounts, totals, id) {
      if Differs(amounts, totals, id) {
        var m := MismatchOf(amounts, totals, id);
        assert IsMismatch(amounts, totals, m) && m in s && MismatchId(m) == id;
      }
    }
  }

  lemma PartsAddUp(a: set<string>, b: set<string>, s: seq<string>)
    requires Lists(s, a - b)
    ensures |a * b| + |s| == |a|
  {
    ListLength(s, a - b);
    assert a == a * b + (a - b);
  }

  /** Covered and missing invoices make up the headers, covered and orphan ones the lines. */
  lemma CoverageAddsUp(amounts: map<string, real>, totals: map<string, real>, r: Report)
    requires Reports(amounts, totals, r)
    ensures r.covered + |r.missing| == r.headers && r.covered + |r.orphans| == |totals|
    ensures forall id :: id in r.missing <==> id in amounts && id !in totals
    ensures forall id :: id in r.orphans <==> id in totals && id !in amounts
  {
    PartsAddUp(amounts.Keys, totals.Keys, r.missing);
    PartsAddUp(totals.Keys, amounts.Keys, r.orphans);
    assert totals.Keys * amounts.Keys == amounts.Keys * totals.Keys;
    assert |amounts| == |amounts.Keys| && |totals| == |totals.Keys|;
  }

  lemma {:induction false} ListLength(s: seq<string>, ids: set<string>)
    requires Lists(s, ids)
    ensures |s| == |ids|
  {
    if s == [] {
      assert ids == {};
    } else {
      var init, last := s[..|s| - 1], s[|s| - 1];
      assert s == init + [last];
      ListLength(init, ids - {last});
    }
  }
}
