/**
 The recovery ledger (strategyos_mvp/recovery_ledger.py): reviewed receipts and reversals are
 deduplicated, checked and folded in stream order.  `Reconcile` is that loop.  Its contract is
 stated on the set of events only, so neither the order nor a replay of the stream matters.
 */
module RecoveryLedger {
  import opened Options
  import opened Sums

  datatype Kind = Receipt | Reversal | Other(name: string)

  datatype Evidence = Evidence(path: string, sha256: string)

  /** `amount` is None when the text is no positive-finite candidate (unparsable, NaN or infinite);
      `reviewed` says that the status is "reviewed"; `rest` stands for the raw text of these fields and for every other
      field of the mapping, which equality of events compares too. */
  datatype Event = Event(
    id: string, caseId: string, amount: Option<real>, reviewed: bool, reviewedBy: string,
    kind: Kind, reverses: Option<string>, evidence: Evidence, rest: string)

  datatype Complaint =
    | Conflict(id: string)
    | BadAmount(id: string)
    | OutOfScope(id: string)
    | BadEvidence(id: string)
    | Unsupported(id: string)
    | BadReversal(id: string)

  /** The locals of the source's loops. */
  datatype Book = Book(
    seen: map<string, Event>, receipts: map<string, Claim>, reversals: seq<Event>,
    errors: seq<Complaint>, cited: seq<Cited>)

  datatype Claim = Claim(caseId: string, amount: real, remaining: real)

  datatype Cited = Cited(id: string, caseId: string, evidence: Evidence)

  datatype Outcome =
    | NeedsReview(errors: seq<Complaint>, cited: seq<Cited>)
    | Reconciled(recovered: real, byCase: map<string, real>, uniqueEvents: nat, cited: seq<Cited>)

  /** The files below the evidence root, by path, with the digest of their bytes. */
  type Files = map<string, string>

  // ----- What the ledger means, on the set of events -----

  function Amount(e: Event): real { e.amount.Or(0.0) }
  function CaseOf(e: Event): string { e.caseId }
  function Received(e: Event): real { if e.kind.Receipt? then Amount(e) else 0.0 }
  function Returned(e: Event): real { if e.kind.Reversal? then Amount(e) else 0.0 }

  function ReturnedFrom(receipt: string): Event -> real {
    (e: Event) => if e.reverses == Some(receipt) then Returned(e) else 0.0
  }

  ghost function EventsOf(rows: seq<Event>): set<Event> {
    set e | e in rows
  }

  predicate Sound(e: Event, eligible: set<string>, files: Files) {
    && e.amount.Some? && e.amount.value > 0.0
    && e.id != "" && e.caseId in eligible && e.reviewed && e.reviewedBy != ""
    && e.evidence.path in files && files[e.evidence.path] == e.evidence.sha256
    && !e.kind.Other?
  }

  /** Equal identifiers carry equal events. */
  ghost predicate OneEventPerId(events: set<Event>) {
    forall e, f :: e in events && f in events && e.id == f.id ==> e == f
  }

  ghost predicate NamesReceipt(e: Event, events: set<Event>) {
    exists r :: r in events && r.kind.Receipt? && e.reverses == Some(r.id) && r.caseId == e.caseId
  }

  ghost predicate Covered(r: Event, events: set<Event>) {
    Total(events, ReturnedFrom(r.id)) <= Amount(r)
  }

  /** The ledger balances: the condition is about the set of events alone. */
  ghost predicate Balanced(events: set<Event>, eligible: set<string>, files: Files) {
    && OneEventPerId(events)
    && (forall e :: e in events ==> Sound(e, eligible, files))
    && (forall e :: e in events && e.kind.Reversal? ==> NamesReceipt(e, events))
    && (forall r :: r in events && r.kind.Receipt? ==> Covered(r, events))
  }

  ghost function CaseBalance(events: set<Event>, caseId: string): real {
    Total(events, InClass(CaseOf, caseId, Received)) - Total(events, InClass(CaseOf, caseId, Returned))
  }

  function EntryOf(e: Event): Cited { Cited(e.id, e.caseId, e.evidence) }

  /** The first complaint the validation raises about an event seen for the first time. */
  function Objection(e: Event, eligible: set<string>, files: Files): (c: Option<Complaint>)
    ensures c == None <==> Sound(e, eligible, files)
    ensures c.Some? ==> c.value.id == e.id && !c.value.Conflict? && !c.value.BadReversal?
  {
    if !(e.amount.Some? && e.amount.value > 0.0) then Some(BadAmount(e.id))
    else if e.id == "" || e.caseId !in eligible || !e.reviewed || e.reviewedBy == "" then
      Some(OutOfScope(e.id))
    else if !(e.evidence.path in files && files[e.evidence.path] == e.evidence.sha256) then
      Some(BadEvidence(e.id))
    else if e.kind.Other? then Some(Unsupported(e.id))
    else None
  }

  // ----- The validating pass -----

  /** One event of the stream: a replay is dropped, a conflict is reported, a new event is checked and filed. */
  function Enter(book: Book, e: Event, eligible: set<string>, files: Files): Book {
    if e.id in book.seen then
      if e != book.seen[e.id] then book.(errors := book.errors + [Conflict(e.id)]) else book
    else
      var book := book.(seen := book.seen[e.id := e]);
      match Objection(e, eligible, files)
      case Some(complaint) =>
        book.(errors := book.errors + [complaint],
              cited := if complaint.Unsupported? then book.cited + [EntryOf(e)] else book.cited)
      case None =>
        book.(cited := book.cited + [EntryOf(e)],
              receipts := File(book.receipts, e),
              reversals := if e.kind.Reversal? then book.reversals + [e] else book.reversals)
  }

  function Entered(rows: seq<Event>, eligible: set<string>, files: Files): Book {
    if rows == [] then Book(map[], map[], [], [], [])
    else Enter(Entered(rows[..|rows| - 1], eligible, files), rows[|rows| - 1], eligible, files)
  }

  function File(receipts: map<string, Claim>, e: Event): map<string, Claim> {
    if e.kind.Receipt? then receipts[e.id := Claim(e.caseId, Amount(e), Amount(e))] else receipts
  }

  /** The earliest event of the stream with a given identifier. */
  ghost function FirstWith(rows: seq<Event>, id: string): (r: Option<Event>)
    ensures r.Some? ==> r.value in rows && r.value.id == id
    ensures r == None <==> forall e :: e in rows ==> e.id != id
  {
    if rows == [] then None
    else if rows[0].id == id then Some(rows[0])
    else FirstWith(rows[1..], id)
  }

  lemma {:induction false} FirstWithAppend(rows: seq<Event>, e: Event, id: string)
    ensures FirstWith(rows + [e], id) ==
            if FirstWith(rows, id).Some? then FirstWith(rows, id) else if e.id == id then Some(e) else None
  {
    if rows != [] {
      assert (rows + [e])[1..] == rows[1..] + [e];
      FirstWithAppend(rows[1..], e, id);
    }
  }

  ghost predicate Remembers(seen: map<string, Event>, rows: seq<Event>) {
    && (forall e :: e in rows ==> e.id in seen)
    && (forall id :: id in seen ==> seen[id] in rows && seen[id].id == id)
  }

  lemma RememberNext(book: Book, rows: seq<Event>, e: Event, eligible: set<string>, files: Files)
    requires Remembers(book.seen, rows)
    ensures Remembers(Enter(book, e, eligible, files).seen, rows + [e])
  {
  }

  lemma {:induction false} Remembering(rows: seq<Event>, eligible: set<string>, files: Files)
    ensures Remembers(Entered(rows, eligible, files).seen, rows)
  {
    if rows != [] {
      var earlier, e := rows[..|rows| - 1], rows[|rows| - 1];
      Remembering(earlier, eligible, files);
      RememberNext(Entered(earlier, eligible, files), earlier, e, eligible, files);
      assert rows == earlier + [e];
    }
  }

  /** The pass remembers the first event of every identifier. */
  lemma {:induction false} SeenAreFirsts(rows: seq<Event>, eligible: set<string>, files: Files, id: string)
    ensures FirstWith(rows, id) == Lookup(Entered(rows, eligible, files).seen, id)
  {
    if rows != [] {
      var earlier, e := rows[..|rows| - 1], rows[|rows| - 1];
      SeenAreFirsts(earlier, eligible, files, id);
      FirstWithAppend(earlier, e, id);
      assert rows == earlier + [e];
      SeenNext(Entered(earlier, eligible, files), e, eligible, files, id);
    }
  }

  lemma SeenNext(book: Book, e: Event, eligible: set<string>, files: Files, id: string)
    ensures Lookup(Enter(book, e, eligible, files).seen, id) ==
            if Lookup(book.seen, id).Some? then Lookup(book.seen, id) else if e.id == id then Some(e) else None
  {
  }

  function Lookup(seen: map<string, Event>, id: string): Option<Event> {
    if id in seen then Some(seen[id]) else None
  }

  /** Adding an event keeps a pass silent exactly when it is sound and agrees with what was seen. */
  lemma SilentEnter(rows: seq<Event>, book: Book, e: Event, eligible: set<string>, files: Files)
    requires Remembers(book.seen, rows)
    requires book.errors == [] <==>
             OneEventPerId(EventsOf(rows)) && forall f :: f in rows ==> Sound(f, eligible, files)
    ensures Enter(book, e, eligible, files).errors == [] <==>
            OneEventPerId(EventsOf(rows + [e])) && forall f :: f in rows + [e] ==> Sound(f, eligible, files)
  {
    assert EventsOf(rows + [e]) == EventsOf(rows) + {e};
    assert forall f :: f in rows ==> f in rows + [e];
    assert e in rows + [e];
    if e.id in book.seen {
      assert book.seen[e.id] in EventsOf(rows);
    }
  }

  /** The pass is silent exactly when identifiers are unambiguous and every event is sound. */
  lemma {:induction false} SilentWhenSound(rows: seq<Event>, eligible: set<string>, files: Files)
    ensures Entered(rows, eligible, files).errors == [] <==>
            OneEventPerId(EventsOf(rows)) && forall e :: e in rows ==> Sound(e, eligible, files)
  {
    if rows != [] {
      var earlier, e := rows[..|rows| - 1], rows[|rows| - 1];
      SilentWhenSound(earlier, eligible, files);
      Remembering(earlier, eligible, files);
      SilentEnter(earlier, Entered(earlier, eligible, files), e, eligible, files);
      assert rows == earlier + [e];
    }
  }

  /** A conflict is reported for an identifier exactly when it carries two different events. */
  lemma {:induction false} ConflictsAreReported(rows: seq<Event>, eligible: set<string>, files: Files, id: string)
    ensures Conflict(id) in Entered(rows, eligible, files).errors <==> Ambiguous(rows, id)
  {
    if rows != [] {
      var earlier, e := rows[..|rows| - 1], rows[|rows| - 1];
      ConflictsAreReported(earlier, eligible, files, id);
      Remembering(earlier, eligible, files);
      ConflictNext(earlier, Entered(earlier, eligible, files), e, eligible, files, id);
      assert rows == earlier + [e];
    }
  }

  ghost predicate Ambiguous(rows: seq<Event>, id: string) {
    exists e, f :: e in rows && f in rows && e.id == id == f.id && e != f
  }

  lemma ConflictNext(rows: seq<Event>, book: Book, e: Event, eligible: set<string>, files: Files, id: string)
    requires Remembers(book.seen, rows) && (Conflict(id) in book.errors <==> Ambiguous(rows, id))
    ensures Conflict(id) in Enter(book, e, eligible, files).errors <==> Ambiguous(rows + [e], id)
  {
    assert e in rows + [e] && forall f :: f in rows ==> f in rows + [e];
  }

  /** Every other complaint is the first objection to the first event of some identifier. */
  lemma {:induction false} ObjectionsAreReported(rows: seq<Event>, eligible: set<string>, files: Files, c: Complaint)
    requires !c.Conflict?
    ensures c in Entered(rows, eligible, files).errors <==>
            FirstWith(rows, c.id).Some? && Objection(FirstWith(rows, c.id).value, eligible, files) == Some(c)
  {
    if rows != [] {
      var earlier, e := rows[..|rows| - 1], rows[|rows| - 1];
      ObjectionsAreReported(earlier, eligible, files, c);
      SeenAreFirsts(earlier, eligible, files, c.id);
      FirstWithAppend(earlier, e, c.id);
      ObjectionNext(Entered(earlier, eligible, files), e, eligible, files, c);
      assert rows == earlier + [e];
      SeenAreFirsts(rows, eligible, files, c.id);
    }
  }

  ghost predicate Objected(seen: map<string, Event>, eligible: set<string>, files: Files, c: Complaint) {
    c.id in seen && Objection(seen[c.id], eligible, files) == Some(c)
  }

  lemma ObjectionNext(book: Book, e: Event, eligible: set<string>, files: Files, c: Complaint)
    requires !c.Conflict? && (c in book.errors <==> Objected(book.seen, eligible, files, c))
    ensures c in Enter(book, e, eligible, files).errors <==>
            Objected(Enter(book, e, eligible, files).seen, eligible, files, c)
  {
  }

  /** What a silent pass has gained: one event more, never met before and sound, or a replay. */
  lemma SilentStep(rows: seq<Event>, eligible: set<string>, files: Files)
    requires rows != [] && Entered(rows, eligible, files).errors == []
    ensures var earlier, e := rows[..|rows| - 1], rows[|rows| - 1];
            && Entered(earlier, eligible, files).errors == []
            && if e.id in Entered(earlier, eligible, files).seen
               then EventsOf(rows) == EventsOf(earlier) &&
                    Entered(rows, eligible, files) == Entered(earlier, eligible, files)
               else EventsOf(rows) == EventsOf(earlier) + {e} && e !in EventsOf(earlier) && Sound(e, eligible, files)
                    && forall f :: f in EventsOf(earlier) ==> f.id != e.id
  {
    var earlier, e := rows[..|rows| - 1], rows[|rows| - 1];
    Remembering(earlier, eligible, files);
    SilentGain(earlier, Entered(earlier, eligible, files), e, eligible, files);
    assert rows == earlier + [e];
  }

  lemma SilentGain(rows: seq<Event>, book: Book, e: Event, eligible: set<string>, files: Files)
    requires Remembers(book.seen, rows) && Enter(book, e, eligible, files).errors == []
    ensures book.errors == []
    ensures if e.id in book.seen
            then EventsOf(rows + [e]) == EventsOf(rows) && Enter(book, e, eligible, files) == book
            else EventsOf(rows + [e]) == EventsOf(rows) + {e} && e !in EventsOf(rows) && Sound(e, eligible, files)
                 && forall f :: f in EventsOf(rows) ==> f.id != e.id
  {
    if e.id in book.seen {
      assert book.seen[e.id] in rows;
    }
  }

  ghost predicate ReceiptsFiled(events: set<Event>, receipts: map<string, Claim>) {
    && (forall id :: id in receipts ==> exists e :: e in events && e.kind.Receipt? && e.id == id)
    && (forall e :: e in events && e.kind.Receipt? ==>
          e.id in receipts && receipts[e.id] == Claim(e.caseId, Amount(e), Amount(e)))
  }

  lemma {:induction false} ReceiptsAreFiled(rows: seq<Event>, eligible: set<string>, files: Files)
    requires Entered(rows, eligible, files).errors == []
    ensures ReceiptsFiled(EventsOf(rows), Entered(rows, eligible, files).receipts)
  {
    if rows != [] {
      var earlier, e := rows[..|rows| - 1], rows[|rows| - 1];
      SilentStep(rows, eligible, files);
      ReceiptsAreFiled(earlier, eligible, files);
      var receipts, filed := Entered(earlier, eligible, files).receipts, Entered(rows, eligible, files).receipts;
      forall id | id in filed ensures exists f :: f in EventsOf(rows) && f.kind.Receipt? && f.id == id {
        if id in receipts {
          var f :| f in EventsOf(earlier) && f.kind.Receipt? && f.id == id;
          assert f in EventsOf(rows);
        } else {
          assert e in EventsOf(rows);
        }
      }
    }
  }

  lemma {:induction false} ReversalsAreFiled(rows: seq<Event>, eligible: set<string>, files: Files)
    requires Entered(rows, eligible, files).errors == []
    ensures var reversals := Entered(rows, eligible, files).reversals;
            && (forall e :: e in reversals <==> e in EventsOf(rows) && e.kind.Reversal?)
            && (forall i, j :: 0 <= i < j < |reversals| ==> reversals[i] != reversals[j])
  {
    if rows != [] {
      SilentStep(rows, eligible, files);
      ReversalsAreFiled(rows[..|rows| - 1], eligible, files);
    }
  }

  /** Each unique event is cited once, and counted once. */
  lemma {:induction false} EventsAreCited(rows: seq<Event>, eligible: set<string>, files: Files)
    requires Entered(rows, eligible, files).errors == []
    ensures var book := Entered(rows, eligible, files);
            && |book.seen| == |book.cited| == |EventsOf(rows)|
            && EntriesOf(book.cited) == Entries(EventsOf(rows))
  {
    if rows != [] {
      var earlier, e := rows[..|rows| - 1], rows[|rows| - 1];
      SilentStep(rows, eligible, files);
      EventsAreCited(earlier, eligible, files);
      var book := Entered(earlier, eligible, files);
      if e.id !in book.seen {
        CiteEvent(EventsOf(earlier), book.seen, book.cited, e);
      }
    }
  }

  lemma CiteEvent(events: set<Event>, seen: map<string, Event>, cited: seq<Cited>, e: Event)
    requires |seen| == |cited| == |events| && EntriesOf(cited) == Entries(events)
    requires e !in events && e.id !in seen
    ensures |seen[e.id := e]| == |cited + [EntryOf(e)]| == |events + {e}|
    ensures EntriesOf(cited + [EntryOf(e)]) == Entries(events + {e})
  {
    assert |seen[e.id := e]| == |seen| + 1 by {
      assert seen[e.id := e].Keys == seen.Keys + {e.id};
    }
    assert EntriesOf(cited + [EntryOf(e)]) == EntriesOf(cited) + {EntryOf(e)} by {
      assert forall c :: c in cited + [EntryOf(e)] <==> c in cited || c == EntryOf(e);
    }
    EntriesWith(events, e);
  }

  lemma EntriesWith(events: set<Event>, e: Event)
    ensures Entries(events + {e}) == Entries(events) + {EntryOf(e)}
  {
    assert e in events + {e};
    assert EntryOf(e) in Entries(events + {e});
  }

  ghost function Entries(events: set<Event>): set<Cited> {
    set e | e in events :: EntryOf(e)
  }

  ghost function EntriesOf(cited: seq<Cited>): set<Cited> {
    set c | c in cited
  }

  /** What is still outstanding on the receipts of one case. */
  ghost function Outstanding(receipts: map<string, Claim>, caseId: string): real {
    Total(receipts.Keys, OutstandingOn(receipts, caseId))
  }

  function CaseOfClaim(receipts: map<string, Claim>): string -> string {
    id => if id in receipts then receipts[id].caseId else ""
  }

  function RemainingOn(receipts: map<string, Claim>): string -> real {
    id => if id in receipts then receipts[id].remaining else 0.0
  }

  function OutstandingOn(receipts: map<string, Claim>, caseId: string): string -> real {
    InClass(CaseOfClaim(receipts), caseId, RemainingOn(receipts))
  }

  lemma OutstandingUpdate(receipts: map<string, Claim>, id: string, receipt: Claim, caseId: string)
    ensures Outstanding(receipts[id := receipt], caseId)
         == Outstanding(receipts, caseId) - OutstandingOn(receipts, caseId)(id)
            + (if receipt.caseId == caseId then receipt.remaining else 0.0)
  {
    var updated := receipts[id := receipt];
    assert updated.Keys - {id} == receipts.Keys - {id};
    TotalWithout(updated.Keys, id, OutstandingOn(updated, caseId));
    TotalCongruence(receipts.Keys - {id}, OutstandingOn(updated, caseId), OutstandingOn(receipts, caseId));
    if id in receipts {
      TotalWithout(receipts.Keys, id, OutstandingOn(receipts, caseId));
    } else {
      assert receipts.Keys - {id} == receipts.Keys;
    }
  }

  lemma FileCaseTotal(events: set<Event>, receipts: map<string, Claim>, e: Event, caseId: string)
    requires Outstanding(receipts, caseId) == Total(events, InClass(CaseOf, caseId, Received))
    requires e.id !in receipts && e !in events
    ensures Outstanding(File(receipts, e), caseId) == Total(events + {e}, InClass(CaseOf, caseId, Received))
  {
    var f := InClass(CaseOf, caseId, Received);
    TotalWith(events, e, f);
    assert f(e) == if CaseOf(e) == caseId then Received(e) else 0.0;
    if e.kind.Receipt? {
      OutstandingUpdate(receipts, e.id, Claim(e.caseId, Amount(e), Amount(e)), caseId);
      assert OutstandingOn(receipts, caseId)(e.id) == 0.0;
    }
  }

  lemma {:induction false} CaseTotalsAreFiled(rows: seq<Event>, eligible: set<string>, files: Files, caseId: string)
    requires Entered(rows, eligible, files).errors == []
    ensures Outstanding(Entered(rows, eligible, files).receipts, caseId)
         == Total(EventsOf(rows), InClass(CaseOf, caseId, Received))
  {
    if rows != [] {
      var earlier, e := rows[..|rows| - 1], rows[|rows| - 1];
      SilentStep(rows, eligible, files);
      CaseTotalsAreFiled(earlier, eligible, files, caseId);
      var book := Entered(earlier, eligible, files);
      if e.id !in book.seen {
        ReceiptsAreFiled(earlier, eligible, files);
        FileCaseTotal(EventsOf(earlier), book.receipts, e, caseId);
      }
    }
  }

  // ----- The reversal pass -----

  /** The reversal pass: a reversal is taken off its receipt, or complained about. */
  function Settle(receipts: map<string, Claim>, errors: seq<Complaint>, e: Event)
    : (map<string, Claim>, seq<Complaint>)
  {
    if e.reverses.Some? && e.reverses.value in receipts && receipts[e.reverses.value].caseId == e.caseId
       && Amount(e) <= receipts[e.reverses.value].remaining
    then
      var receipt := receipts[e.reverses.value];
      (receipts[e.reverses.value := receipt.(remaining := receipt.remaining - Amount(e))], errors)
    else (receipts, errors + [BadReversal(e.id)])
  }

  function Settled(receipts: map<string, Claim>, errors: seq<Complaint>, reversals: seq<Event>)
    : (map<string, Claim>, seq<Complaint>)
  {
    if reversals == [] then (receipts, errors)
    else
      var (receipts, errors) := Settled(receipts, errors, reversals[..|reversals| - 1]);
      Settle(receipts, errors, reversals[|reversals| - 1])
  }

  ghost predicate Names(e: Event, receipts: map<string, Claim>) {
    e.reverses.Some? && e.reverses.value in receipts && receipts[e.reverses.value].caseId == e.caseId
  }

  /** Every reversal names a receipt of its case, and no receipt is reversed beyond what remained. */
  ghost predicate Affordable(receipts: map<string, Claim>, reversals: seq<Event>) {
    && (forall e :: e in reversals ==> Names(e, receipts))
    && (forall id :: id in receipts ==> Sum(reversals, ReturnedFrom(id)) <= receipts[id].remaining)
  }

  ghost predicate Lowered(before: map<string, Claim>, after: map<string, Claim>, reversals: seq<Event>) {
    && after.Keys == before.Keys
    && forall id :: id in before ==>
         after[id] == before[id].(remaining := before[id].remaining - Sum(reversals, ReturnedFrom(id)))
  }

  lemma LowerOnce(before: map<string, Claim>, after: map<string, Claim>, init: seq<Event>, e: Event,
                  errors: seq<Complaint>)
    requires Lowered(before, after, init) && e.kind.Reversal? && Amount(e) >= 0.0 && Affordable(before, init)
    ensures Settle(after, errors, e).1 == errors <==> Affordable(before, init + [e])
    ensures Affordable(before, init + [e]) ==> Lowered(before, Settle(after, errors, e).0, init + [e])
  {
    forall id ensures Sum(init + [e], ReturnedFrom(id)) == Sum(init, ReturnedFrom(id)) + ReturnedFrom(id)(e) {
      SumAppend(init, e, ReturnedFrom(id));
    }
    assert e in init + [e];
  }

  lemma AffordablePrefix(before: map<string, Claim>, init: seq<Event>, e: Event)
    requires e.kind.Reversal? && Amount(e) >= 0.0 && Affordable(before, init + [e])
    ensures Affordable(before, init)
  {
    forall id | id in before ensures Sum(init, ReturnedFrom(id)) <= before[id].remaining {
      SumAppend(init, e, ReturnedFrom(id));
    }
    assert forall f :: f in init ==> f in init + [e];
  }

  lemma {:induction false} SettledKeepsErrors(receipts: map<string, Claim>, errors: seq<Complaint>,
                                              reversals: seq<Event>)
    ensures errors <= Settled(receipts, errors, reversals).1
  {
    if reversals != [] {
      SettledKeepsErrors(receipts, errors, reversals[..|reversals| - 1]);
    }
  }

  /** The greedy pass refuses nothing exactly when the reversals are affordable, whatever their order. */
  lemma {:induction false} SettlesWhenAffordable(receipts: map<string, Claim>, errors: seq<Complaint>,
                                                 reversals: seq<Event>)
    requires forall e :: e in reversals ==> e.kind.Reversal? && Amount(e) >= 0.0
    requires forall id :: id in receipts ==> receipts[id].remaining >= 0.0
    ensures Settled(receipts, errors, reversals).1 == errors <==> Affordable(receipts, reversals)
    ensures Affordable(receipts, reversals) ==>
              Lowered(receipts, Settled(receipts, errors, reversals).0, reversals)
  {
    if reversals != [] {
      var init, e := reversals[..|reversals| - 1], reversals[|reversals| - 1];
      assert reversals == init + [e];
      SettlesWhenAffordable(receipts, errors, init);
      SettledKeepsErrors(receipts, errors, init);
      var (after, complaints) := Settled(receipts, errors, init);
      if complaints == errors {
        LowerOnce(receipts, after, init, e, errors);
      } else if Affordable(receipts, reversals) {
        AffordablePrefix(receipts, init, e);
      }
    }
  }

  lemma SettleByCase(receipts: map<string, Claim>, errors: seq<Complaint>, e: Event, caseId: string)
    requires e.kind.Reversal? && Settle(receipts, errors, e).1 == errors
    ensures Outstanding(Settle(receipts, errors, e).0, caseId)
         == Outstanding(receipts, caseId) - InClass(CaseOf, caseId, Returned)(e)
  {
    SilentSettle(receipts, errors, e);
    var receipt := receipts[e.reverses.value];
    OutstandingUpdate(receipts, e.reverses.value, receipt.(remaining := receipt.remaining - Amount(e)), caseId);
    assert InClass(CaseOf, caseId, Returned)(e) == if CaseOf(e) == caseId then Returned(e) else 0.0;
  }

  lemma SilentSettle(receipts: map<string, Claim>, errors: seq<Complaint>, e: Event)
    requires Settle(receipts, errors, e).1 == errors
    ensures e.reverses.Some? && e.reverses.value in receipts && receipts[e.reverses.value].caseId == e.caseId
    ensures var id, receipt := e.reverses.value, receipts[e.reverses.value];
            Settle(receipts, errors, e).0 == receipts[id := receipt.(remaining := receipt.remaining - Amount(e))]
  {
    assert errors + [BadReversal(e.id)] != errors;
  }

  lemma {:induction false} SettledByCase(receipts: map<string, Claim>, errors: seq<Complaint>,
                                         reversals: seq<Event>, caseId: string)
    requires forall e :: e in reversals ==> e.kind.Reversal?
    requires Settled(receipts, errors, reversals).1 == errors
    ensures Outstanding(Settled(receipts, errors, reversals).0, caseId)
         == Outstanding(receipts, caseId) - Sum(reversals, InClass(CaseOf, caseId, Returned))
  {
    if reversals != [] {
      var init, e := reversals[..|reversals| - 1], reversals[|reversals| - 1];
      SettledKeepsErrors(receipts, errors, init);
      SettledByCase(receipts, errors, init, caseId);
      SettleByCase(Settled(receipts, errors, init).0, errors, e, caseId);
    }
  }

  /** A sum over the filed reversals is a sum over the events. */
  lemma ReversalsAsEvents(events: set<Event>, reversals: seq<Event>, f: Event -> real)
    requires forall e :: e in reversals <==> e in events && e.kind.Reversal?
    requires forall i, j :: 0 <= i < j < |reversals| ==> reversals[i] != reversals[j]
    requires forall e :: e in events && !e.kind.Reversal? ==> f(e) == 0.0
    ensures Sum(reversals, f) == Total(events, f)
  {
    SumOfDistinct(reversals, f);
    TotalOfPart((set e | e in reversals), events, f);
  }

  /** Both passes are silent exactly when the set of events balances. */
  lemma SilentWhenBalanced(rows: seq<Event>, eligible: set<string>, files: Files)
    ensures var book := Entered(rows, eligible, files);
            Settled(book.receipts, book.errors, book.reversals).1 == []
            <==> Balanced(EventsOf(rows), eligible, files)
  {
    var book, events := Entered(rows, eligible, files), EventsOf(rows);
    SilentWhenSound(rows, eligible, files);
    SettledKeepsErrors(book.receipts, book.errors, book.reversals);
    if book.errors == [] {
      ReceiptsAreFiled(rows, eligible, files);
      ReversalsAreFiled(rows, eligible, files);
      SettlesWhenAffordable(book.receipts, [], book.reversals);
      AffordableWhenBalanced(events, book.receipts, book.reversals);
    }
  }

  lemma AffordableWhenBalanced(events: set<Event>, receipts: map<string, Claim>, reversals: seq<Event>)
    requires ReceiptsFiled(events, receipts)
    requires forall e :: e in reversals <==> e in events && e.kind.Reversal?
    requires forall i, j :: 0 <= i < j < |reversals| ==> reversals[i] != reversals[j]
    ensures Affordable(receipts, reversals) <==>
            && (forall e :: e in events && e.kind.Reversal? ==> NamesReceipt(e, events))
            && (forall r :: r in events && r.kind.Receipt? ==> Covered(r, events))
  {
    forall e ensures Names(e, receipts) <==> NamesReceipt(e, events) {
      if Names(e, receipts) {
        var r :| r in events && r.kind.Receipt? && r.id == e.reverses.value;
        assert r.caseId == e.caseId;
      }
    }
    forall id ensures Sum(reversals, ReturnedFrom(id)) == Total(events, ReturnedFrom(id)) {
      ReversalsAsEvents(events, reversals, ReturnedFrom(id));
    }
    forall r | r in events && r.kind.Receipt?
      ensures Covered(r, events) <==> Sum(reversals, ReturnedFrom(r.id)) <= receipts[r.id].remaining
    {
    }
  }

  // ----- The totals -----

  /** What the ledger reports about one case is its receipts less its reversals. */
  lemma CaseBalanceIsOutstanding(rows: seq<Event>, eligible: set<string>, files: Files, caseId: string)
    requires var book := Entered(rows, eligible, files);
             book.errors == [] && Settled(book.receipts, [], book.reversals).1 == []
    ensures var book := Entered(rows, eligible, files);
            Outstanding(Settled(book.receipts, [], book.reversals).0, caseId) == CaseBalance(EventsOf(rows), caseId)
  {
    var book, events := Entered(rows, eligible, files), EventsOf(rows);
    ReversalsAreFiled(rows, eligible, files);
    CaseTotalsAreFiled(rows, eligible, files, caseId);
    SettledByCase(book.receipts, [], book.reversals, caseId);
    var f := InClass(CaseOf, caseId, Returned);
    forall e | e in events && !e.kind.Reversal? ensures f(e) == 0.0 {
      assert Returned(e) == 0.0;
    }
    ReversalsAsEvents(events, book.reversals, f);
  }

  /** The case balances add up to all receipts less all reversals. */
  lemma CaseBalancesAddUp(events: set<Event>, eligible: set<string>, totals: map<string, real>)
    requires forall e :: e in events ==> e.caseId in eligible
    requires totals.Keys == eligible && forall c :: c in eligible ==> totals[c] == CaseBalance(events, c)
    ensures Total(eligible, At(totals)) == Total(events, Received) - Total(events, Returned)
  {
    TotalByClass(events, eligible, CaseOf, Received);
    TotalByClass(events, eligible, CaseOf, Returned);
    TotalIsAdditive(eligible, At(totals), ClassTotal(events, CaseOf, Returned), ClassTotal(events, CaseOf, Received));
  }

  /** The whole reconciliation. */
  method Reconcile(rows: seq<Event>, eligible: set<string>, files: Files) returns (r: Outcome)
    ensures r.Reconciled? <==> Balanced(EventsOf(rows), eligible, files)
    ensures r.Reconciled? ==>
              && r.recovered == Total(EventsOf(rows), Received) - Total(EventsOf(rows), Returned)
              && r.byCase.Keys == eligible
              && (forall c :: c in eligible ==> r.byCase[c] == CaseBalance(EventsOf(rows), c))
              && r.recovered == Total(eligible, At(r.byCase))
              && r.uniqueEvents == |r.cited| == |EventsOf(rows)|
              && EntriesOf(r.cited) == Entries(EventsOf(rows))
    ensures r.NeedsReview? ==> r.errors != []
    ensures CitesFirsts(r.cited, rows, eligible, files)
    ensures r.NeedsReview? ==> forall id :: Conflict(id) in r.errors <==> Ambiguous(rows, id)
    ensures r.NeedsReview? ==> forall c: Complaint :: !c.Conflict? && !c.BadReversal? ==>
              (c in r.errors <==>
               FirstWith(rows, c.id).Some? && Objection(FirstWith(rows, c.id).value, eligible, files) == Some(c))
  {
    var book := Book(map[], map[], [], [], []);
    for i := 0 to |rows|
      invariant book == Entered(rows[..i], eligible, files)
    {
      assert rows[..i + 1][..i] == rows[..i];
      book := Enter(book, rows[i], eligible, files);
    }
    assert rows[..|rows|] == rows;
    CitedExactly(rows, eligible, files);
    var receipts, errors := book.receipts, book.errors;
    for i := 0 to |book.reversals|
      invariant (receipts, errors) == Settled(book.receipts, book.errors, book.reversals[..i])
    {
      assert book.reversals[..i + 1][..i] == book.reversals[..i];
      var (receipts', errors') := Settle(receipts, errors, book.reversals[i]);
      receipts, errors := receipts', errors';
    }
    assert book.reversals[..|book.reversals|] == book.reversals;
    SilentWhenBalanced(rows, eligible, files);
    if errors != [] {
      ReportedErrors(rows, eligible, files);
      return NeedsReview(errors, book.cited);
    }
    SilentWhenSound(rows, eligible, files);
    SettledKeepsErrors(book.receipts, book.errors, book.reversals);
    EventsAreCited(rows, eligible, files);
    EligibleCases(rows, eligible, files);
    // The running total of each case starts at zero and collects what remains on its receipts.
    var totals := GroupTotals(receipts.Keys, eligible, CaseOfClaim(receipts), RemainingOn(receipts));
    forall c | c in eligible ensures totals[c] == CaseBalance(EventsOf(rows), c) {
      CaseBalanceIsOutstanding(rows, eligible, files, c);
    }
    CaseBalancesAddUp(EventsOf(rows), eligible, totals);
    var recovered := AddUp(totals);
    return Reconciled(recovered, totals, |book.seen|, book.cited);
  }

  lemma EligibleCases(rows: seq<Event>, eligible: set<string>, files: Files)
    requires Balanced(EventsOf(rows), eligible, files)
    ensures var book := Entered(rows, eligible, files);
            var receipts := Settled(book.receipts, book.errors, book.reversals).0;
            forall id :: id in receipts ==> receipts[id].caseId in eligible
  {
    var book := Entered(rows, eligible, files);
    SilentWhenSound(rows, eligible, files);
    ReceiptsAreFiled(rows, eligible, files);
    ReversalsAreFiled(rows, eligible, files);
    SettlesWhenAffordable(book.receipts, book.errors, book.reversals);
    AffordableWhenBalanced(EventsOf(rows), book.receipts, book.reversals);
    forall id | id in book.receipts ensures book.receipts[id].caseId in eligible {
      var e :| e in EventsOf(rows) && e.kind.Receipt? && e.id == id;
    }
  }

  lemma ReportedErrors(rows: seq<Event>, eligible: set<string>, files: Files)
    ensures var book := Entered(rows, eligible, files);
            var errors := Settled(book.receipts, book.errors, book.reversals).1;
            && (forall id :: Conflict(id) in errors <==> Ambiguous(rows, id))
            && (forall c: Complaint :: !c.Conflict? && !c.BadReversal? ==>
                  (c in errors <==>
                   FirstWith(rows, c.id).Some? && Objection(FirstWith(rows, c.id).value, eligible, files) == Some(c)))
  {
    var book := Entered(rows, eligible, files);
    var errors := Settled(book.receipts, book.errors, book.reversals).1;
    forall c: Complaint | !c.BadReversal? ensures c in errors <==> c in book.errors {
      SettlementComplaints(book.receipts, book.errors, book.reversals, c);
    }
    forall id ensures Conflict(id) in errors <==> Ambiguous(rows, id) {
      ConflictsAreReported(rows, eligible, files, id);
    }
    forall c: Complaint | !c.Conflict? && !c.BadReversal?
      ensures c in errors <==>
              FirstWith(rows, c.id).Some? && Objection(FirstWith(rows, c.id).value, eligible, files) == Some(c)
    {
      ObjectionsAreReported(rows, eligible, files, c);
    }
  }

  lemma {:induction false} SettlementComplaints(receipts: map<string, Claim>, errors: seq<Complaint>,
                                                reversals: seq<Event>, c: Complaint)
    requires !c.BadReversal?
    ensures c in Settled(receipts, errors, reversals).1 <==> c in errors
  {
    if reversals != [] {
      SettlementComplaints(receipts, errors, reversals[..|reversals| - 1], c);
    }
  }

  /** A positive finite amount. */
  ghost predicate Pays(e: Event) { exists x :: x > 0.0 && e.amount == Some(x) }

  /** A reviewed event of an eligible case, with an identifier. */
  ghost predicate InScope(e: Event, eligible: set<string>) {
    e.id != "" && e.reviewed && e.reviewedBy != "" && e.caseId in eligible
  }

  ghost predicate Evidenced(e: Event, files: Files) {
    e.evidence.path in files && files[e.evidence.path] == e.evidence.sha256
  }

  /** The complaint about an identifier, from the first event that carries it: amount, scope, evidence and kind are
      checked in this order, and the first failure is the one reported. */
  lemma ComplaintsExactly(rows: seq<Event>, eligible: set<string>, files: Files, e: Event)
    requires FirstWith(rows, e.id) == Some(e)
    ensures var book := Entered(rows, eligible, files);
            var errors := Settled(book.receipts, book.errors, book.reversals).1;
            && (BadAmount(e.id) in errors <==> !Pays(e))
            && (OutOfScope(e.id) in errors <==> Pays(e) && !InScope(e, eligible))
            && (BadEvidence(e.id) in errors <==> Pays(e) && InScope(e, eligible) && !Evidenced(e, files))
            && (Unsupported(e.id) in errors <==>
                Pays(e) && InScope(e, eligible) && Evidenced(e, files) && e.kind != Receipt && e.kind != Reversal)
  {
    ReportedErrors(rows, eligible, files);
    ObjectionOf(e, eligible, files);
  }

  lemma ObjectionOf(e: Event, eligible: set<string>, files: Files)
    ensures Objection(e, eligible, files) == Some(BadAmount(e.id)) <==> !Pays(e)
    ensures Objection(e, eligible, files) == Some(OutOfScope(e.id)) <==> Pays(e) && !InScope(e, eligible)
    ensures Objection(e, eligible, files) == Some(BadEvidence(e.id)) <==>
            Pays(e) && InScope(e, eligible) && !Evidenced(e, files)
    ensures Objection(e, eligible, files) == Some(Unsupported(e.id)) <==>
            Pays(e) && InScope(e, eligible) && Evidenced(e, files) && e.kind != Receipt && e.kind != Reversal
  {
    assert e.amount.Some? ==> e.amount == Some(e.amount.value);
  }

  /** The evidence of an event is cited once its amount, scope and evidence have passed, of whatever kind it is. */
  ghost predicate Citable(e: Event, eligible: set<string>, files: Files) {
    Pays(e) && InScope(e, eligible) && Evidenced(e, files)
  }

  ghost predicate CitedFrom(seen: map<string, Event>, eligible: set<string>, files: Files, c: Cited) {
    c.id in seen && Citable(seen[c.id], eligible, files) && c == EntryOf(seen[c.id])
  }

  lemma CitedNext(rows: seq<Event>, book: Book, e: Event, eligible: set<string>, files: Files, c: Cited)
    requires Remembers(book.seen, rows) && (c in book.cited <==> CitedFrom(book.seen, eligible, files, c))
    ensures c in Enter(book, e, eligible, files).cited <==>
            CitedFrom(Enter(book, e, eligible, files).seen, eligible, files, c)
  {
    ObjectionOf(e, eligible, files);
  }

  /** The list cites exactly the first events that are citable. */
  ghost predicate CitesFirsts(cited: seq<Cited>, rows: seq<Event>, eligible: set<string>, files: Files) {
    forall c :: c in cited <==>
      exists e :: FirstWith(rows, c.id) == Some(e) && Citable(e, eligible, files) && c == EntryOf(e)
  }

  /** What is cited, also when the ledger needs review. */
  lemma CitedExactly(rows: seq<Event>, eligible: set<string>, files: Files)
    ensures CitesFirsts(Entered(rows, eligible, files).cited, rows, eligible, files)
  {
    var seen := Entered(rows, eligible, files).seen;
    forall c
      ensures c in Entered(rows, eligible, files).cited <==>
              exists e :: FirstWith(rows, c.id) == Some(e) && Citable(e, eligible, files) && c == EntryOf(e)
    {
      SeenAreFirsts(rows, eligible, files, c.id);
      CitedFromSeen(rows, eligible, files, c);
      assert c.id in seen ==> Lookup(seen, c.id) == Some(seen[c.id]);
    }
  }

  lemma {:induction false} CitedFromSeen(rows: seq<Event>, eligible: set<string>, files: Files, c: Cited)
    ensures c in Entered(rows, eligible, files).cited <==>
            CitedFrom(Entered(rows, eligible, files).seen, eligible, files, c)
  {
    if rows != [] {
      var earlier, e := rows[..|rows| - 1], rows[|rows| - 1];
      CitedFromSeen(earlier, eligible, files, c);
      Remembering(earlier, eligible, files);
      CitedNext(earlier, Entered(earlier, eligible, files), e, eligible, files, c);
    }
  }

  /** Reordering the stream, or replaying any of its events, leaves the set of events and so the verdict alone. */
  lemma ReorderedOrReplayed(rows: seq<Event>, shuffled: seq<Event>, replayed: seq<Event>)
    requires multiset(shuffled) == multiset(rows + replayed) && forall e :: e in replayed ==> e in rows
    ensures EventsOf(shuffled) == EventsOf(rows)
  {
    forall e ensures e in shuffled <==> e in rows {
      assert e in shuffled <==> e in multiset(shuffled);
      assert e in rows + replayed <==> e in multiset(rows + replayed);
    }
  }
}
