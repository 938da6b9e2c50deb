/**
 * The reconciliation run: every paid-out, non-excluded event of every closed
 * shift is matched against the invoices and filed, in input order, into
 * exactly one of `matched`, `alreadyPaid` and `unmatched`; one payment object
 * is then built per matched entry.
 *
 * The specification is stated on values: `Worklist` lists the events the run
 * considers, `FileEvent` decides where one event goes, and `Classify` files
 * the whole worklist, handing the operator's answers to the prompts in turn.
 * `ReconcileShifts` is the run itself, a nested loop over shifts and events.
 */
module Driver {
  import opened Wrappers
  import opened Records
  import opened Matcher
  import opened Selection

  type MatchedEntry = (Shift, ShiftEvent, Invoice)
  type UnmatchedEntry = (Shift, ShiftEvent)

  /** The reference every payment carries. */
  const REFERENCE: string := "Auto-reconciled using cashtx tool"

  /** An exclusion pattern applies only when it is not empty; `isExcluded` is the
      pattern test, supplied from outside. */
  predicate Excluded(event: ShiftEvent, exclusions: string, isExcluded: (ShiftEvent, string) -> bool)
  {
    exclusions != [] && isExcluded(event, exclusions)
  }

  /** An event of a closed shift that the run matches. */
  predicate IsReconciled(event: ShiftEvent, exclusions: string, isExcluded: (ShiftEvent, string) -> bool)
  {
    event.eventType == PaidOut && !Excluded(event, exclusions, isExcluded)
  }

  /** The events of one shift that the run matches, paired with the shift, in order. */
  function ShiftWork(shift: Shift, events: seq<ShiftEvent>, exclusions: string,
                     isExcluded: (ShiftEvent, string) -> bool): seq<UnmatchedEntry>
  {
    if events == [] then []
    else
      var last := events[|events| - 1];
      ShiftWork(shift, events[..|events| - 1], exclusions, isExcluded)
      + (if IsReconciled(last, exclusions, isExcluded) then [(shift, last)] else [])
  }

  /** All events the run matches, shift by shift; only closed shifts' events are read. */
  function Worklist(shifts: seq<Shift>, eventsOf: Shift -> seq<ShiftEvent>, exclusions: string,
                    isExcluded: (ShiftEvent, string) -> bool): seq<UnmatchedEntry>
  {
    if shifts == [] then []
    else
      var last := shifts[|shifts| - 1];
      Worklist(shifts[..|shifts| - 1], eventsOf, exclusions, isExcluded)
      + (if last.state == Closed then ShiftWork(last, eventsOf(last), exclusions, isExcluded) else [])
  }

  /** Where one event is filed. */
  datatype Filing =
    | ToMatched(entry: MatchedEntry)
    | ToAlreadyPaid(event: ShiftEvent)
    | ToUnmatched(pending: UnmatchedEntry)

  /** The `k`-th line the operator answers; past the end of the input, an empty line. */
  function LineAt(lines: seq<string>, k: nat): string
  {
    if k < |lines| then lines[k] else ""
  }

  /**
   * The filing of one event, given the matcher's verdict on it. A single unpaid
   * candidate is matched; several go to the operator, whose answer `line` either
   * picks one or leaves the event unmatched.
   */
  function Verdict(verdict: InvoiceMatchResult, shift: Shift, event: ShiftEvent, line: string): Filing
  {
    match verdict
    case NoMatch => ToUnmatched((shift, event))
    case AlreadyPaid => ToAlreadyPaid(event)
    case UnpaidSingle(invoice) => ToMatched((shift, event, invoice))
    case UnpaidMultiple(candidates) =>
      match PromptInvoiceMatch(line, candidates)
      case Picked(invoice) => ToMatched((shift, event, invoice))
      case _ => ToUnmatched((shift, event))
  }

  /** The filing of one event against the invoices. */
  function FileEvent(invoices: seq<Invoice>, shift: Shift, event: ShiftEvent, line: string): Filing
  {
    Verdict(FindMatch(invoices, event), shift, event, line)
  }

  /** A matched entry pairs the event with a qualifying unpaid invoice; an event is
      filed as already paid exactly when the matcher says so; anything else is left
      unmatched, after no match or an undecided prompt. */
  lemma FileEventSound(invoices: seq<Invoice>, shift: Shift, event: ShiftEvent, line: string)
    ensures var f := FileEvent(invoices, shift, event, line);
      (f.ToMatched? ==>
        f.entry.0 == shift && f.entry.1 == event && f.entry.2 in invoices
        && Qualifies(event, f.entry.2) && !IsPaid(f.entry.2))
      && (f.ToAlreadyPaid? <==> FindMatch(invoices, event) == AlreadyPaid)
      && (f.ToAlreadyPaid? ==> f.event == event)
      && (f.ToUnmatched? ==>
        f.pending == (shift, event)
        && (FindMatch(invoices, event).NoMatch? || FindMatch(invoices, event).UnpaidMultiple?))
  {
  }

  /** How many prompts filing `work` asks, that is, how many operator lines it reads. */
  function Prompts(invoices: seq<Invoice>, work: seq<UnmatchedEntry>): nat
  {
    if work == [] then 0
    else
      Prompts(invoices, work[..|work| - 1])
      + (if FindMatch(invoices, work[|work| - 1].1).UnpaidMultiple? then 1 else 0)
  }

  /** The filings of the worklist, in order; each prompt reads the next line. */
  function Classify(invoices: seq<Invoice>, work: seq<UnmatchedEntry>, lines: seq<string>): seq<Filing>
  {
    if work == [] then []
    else
      var init, last := work[..|work| - 1], work[|work| - 1];
      Classify(invoices, init, lines)
      + [FileEvent(invoices, last.0, last.1, LineAt(lines, Prompts(invoices, init)))]
  }

  function MatchedOf(fs: seq<Filing>): seq<MatchedEntry>
  {
    if fs == [] then []
    else
      var f := fs[|fs| - 1];
      MatchedOf(fs[..|fs| - 1]) + (if f.ToMatched? then [f.entry] else [])
  }

  function AlreadyPaidOf(fs: seq<Filing>): seq<ShiftEvent>
  {
    if fs == [] then []
    else
      var f := fs[|fs| - 1];
      AlreadyPaidOf(fs[..|fs| - 1]) + (if f.ToAlreadyPaid? then [f.event] else [])
  }

  function UnmatchedOf(fs: seq<Filing>): seq<UnmatchedEntry>
  {
    if fs == [] then []
    else
      var f := fs[|fs| - 1];
      UnmatchedOf(fs[..|fs| - 1]) + (if f.ToUnmatched? then [f.pending] else [])
  }

  /** One payment object per matched entry, in the same order. */
  function PaymentObjects(matched: seq<MatchedEntry>, accountCode: string): (r: seq<PaymentRequestObject>)
    ensures |r| == |matched|
    ensures forall k :: 0 <= k < |r| ==>
      r[k].invoice.invoiceId == matched[k].2.invoiceId
      && r[k].account.code == accountCode
      && r[k].date == DateNaive(matched[k].0.createdAt)
      && r[k].amount == matched[k].1.eventMoney.amount
      && r[k].reference == REFERENCE
  {
    seq(|matched|, k requires 0 <= k < |matched| =>
      PaymentRequestObject(
        PaymentRequestObjectInvoice(matched[k].2.invoiceId),
        PaymentRequestObjectAccount(accountCode),
        DateNaive(matched[k].0.createdAt),
        matched[k].1.eventMoney.amount,
        REFERENCE))
  }

  /** The three lists the run fills, and how many operator lines it has read so far. */
  datatype Books = Books(
    matched: seq<MatchedEntry>,
    alreadyPaid: seq<ShiftEvent>,
    unmatched: seq<UnmatchedEntry>,
    asked: nat)

  const NoBooks: Books := Books([], [], [], 0)

  /** Pushing filing `f` onto the list it names; `prompted` says whether filing it
      read an operator line. */
  function Push(b: Books, f: Filing, prompted: bool): Books
  {
    Books(
      b.matched + (if f.ToMatched? then [f.entry] else []),
      b.alreadyPaid + (if f.ToAlreadyPaid? then [f.event] else []),
      b.unmatched + (if f.ToUnmatched? then [f.pending] else []),
      b.asked + (if prompted then 1 else 0))
  }

  /** Filing event `p`: it is matched against the invoices, with the next operator
      line as the answer should the matcher prompt. */
  function FileStep(invoices: seq<Invoice>, lines: seq<string>, b: Books, p: UnmatchedEntry): Books
  {
    Push(b, FileEvent(invoices, p.0, p.1, LineAt(lines, b.asked)), FindMatch(invoices, p.1).UnpaidMultiple?)
  }

  /** Filing the events of `work` one after the other, starting from `b`. */
  function Replay(invoices: seq<Invoice>, lines: seq<string>, b: Books, work: seq<UnmatchedEntry>): Books
  {
    if work == [] then b
    else FileStep(invoices, lines, Replay(invoices, lines, b, work[..|work| - 1]), work[|work| - 1])
  }

  /** The run: filters shifts and events, matches each remaining event and files it
      into one of three lists, then builds the payment objects. `lines` are the
      operator's answers to the prompts, in order. */
  method ReconcileShifts(
    invoices: seq<Invoice>,
    shifts: seq<Shift>,
    eventsOf: Shift -> seq<ShiftEvent>,
    exclusions: string,
    isExcluded: (ShiftEvent, string) -> bool,
    lines: seq<string>,
    accountCode: string)
    returns (matched: seq<MatchedEntry>, alreadyPaid: seq<ShiftEvent>, unmatched: seq<UnmatchedEntry>,
             paymentObjects: seq<PaymentRequestObject>)
    ensures var fs := Classify(invoices, Worklist(shifts, eventsOf, exclusions, isExcluded), lines);
      matched == MatchedOf(fs) && alreadyPaid == AlreadyPaidOf(fs) && unmatched == UnmatchedOf(fs)
    ensures paymentObjects == PaymentObjects(matched, accountCode)
  {
    matched, alreadyPaid, unmatched := [], [], [];
    var asked := 0;
    ghost var done: seq<UnmatchedEntry> := [];
    for i := 0 to |shifts|
      invariant done == Worklist(shifts[..i], eventsOf, exclusions, isExcluded)
      invariant Books(matched, alreadyPaid, unmatched, asked) == Replay(invoices, lines, NoBooks, done)
    {
      var shift := shifts[i];
      WorklistStep(shifts, i, eventsOf, exclusions, isExcluded);
      if shift.state != Closed {
        assert done + [] == done;
        continue;
      }
      var events := eventsOf(shift);
      ghost var work := ShiftWork(shift, events, exclusions, isExcluded);
      ReplayAppend(invoices, lines, NoBooks, done, work);
      matched, alreadyPaid, unmatched, asked := ReconcileShift(
        invoices, shift, events, exclusions, isExcluded, lines, matched, alreadyPaid, unmatched, asked);
      done := done + work;
    }
    assert shifts[..|shifts|] == shifts;
    ReplayClassify(invoices, Worklist(shifts, eventsOf, exclusions, isExcluded), lines);
    paymentObjects := PaymentObjects(matched, accountCode);
  }

  /** The events of one closed shift, in order: events other than paid-out ones, and
      excluded ones, are skipped; each other event is matched and filed. */
  method ReconcileShift(
    invoices: seq<Invoice>, shift: Shift, events: seq<ShiftEvent>, exclusions: string,
    isExcluded: (ShiftEvent, string) -> bool, lines: seq<string>,
    matched: seq<MatchedEntry>, alreadyPaid: seq<ShiftEvent>, unmatched: seq<UnmatchedEntry>, asked: nat)
    returns (matched': seq<MatchedEntry>, alreadyPaid': seq<ShiftEvent>, unmatched': seq<UnmatchedEntry>, asked': nat)
    ensures Books(matched', alreadyPaid', unmatched', asked') ==
      Replay(invoices, lines, Books(matched, alreadyPaid, unmatched, asked), ShiftWork(shift, events, exclusions, isExcluded))
  {
    ghost var start := Books(matched, alreadyPaid, unmatched, asked);
    ghost var work: seq<UnmatchedEntry> := [];
    matched', alreadyPaid', unmatched', asked' := matched, alreadyPaid, unmatched, asked;
    for j := 0 to |events|
      invariant work == ShiftWork(shift, events[..j], exclusions, isExcluded)
      invariant Books(matched', alreadyPaid', unmatched', asked') == Replay(invoices, lines, start, work)
    {
      var event := events[j];
      ShiftWorkStep(shift, events, j, exclusions, isExcluded);
      if event.eventType != PaidOut {
        assert work + [] == work;
        continue;
      }
      if exclusions != [] && isExcluded(event, exclusions) {
        assert Excluded(event, exclusions, isExcluded);
        assert work + [] == work;
        continue;
      }
      assert IsReconciled(event, exclusions, isExcluded);
      ReplayStep(invoices, lines, start, work, (shift, event));
      var verdict := FindMatch(invoices, event);
      matched', alreadyPaid', unmatched', asked' :=
        FileInto(verdict, shift, event, lines, matched', alreadyPaid', unmatched', asked');
      work := work + [(shift, event)];
    }
    assert events[..|events|] == events;
  }

  /** The matcher's verdict on one event, pushed onto the list it belongs to; a
      prompt reads the next operator line, and an empty line once they run out. */
  method FileInto(
    verdict: InvoiceMatchResult, shift: Shift, event: ShiftEvent, lines: seq<string>,
    matched: seq<MatchedEntry>, alreadyPaid: seq<ShiftEvent>, unmatched: seq<UnmatchedEntry>, asked: nat)
    returns (matched': seq<MatchedEntry>, alreadyPaid': seq<ShiftEvent>, unmatched': seq<UnmatchedEntry>, asked': nat)
    ensures Books(matched', alreadyPaid', unmatched', asked') ==
      Push(Books(matched, alreadyPaid, unmatched, asked), Verdict(verdict, shift, event, LineAt(lines, asked)),
           verdict.UnpaidMultiple?)
  {
    matched', alreadyPaid', unmatched', asked' := matched, alreadyPaid, unmatched, asked;
    match verdict
    case NoMatch =>
      unmatched' := unmatched + [(shift, event)];
    case AlreadyPaid =>
      alreadyPaid' := alreadyPaid + [event];
    case UnpaidSingle(invoice) =>
      matched' := matched + [(shift, event, invoice)];
    case UnpaidMultiple(candidates) =>
      var line := LineAt(lines, asked);
      asked' := asked + 1;
      match PromptInvoiceMatch(line, candidates)
      case Picked(invoice) =>
        matched' := matched + [(shift, event, invoice)];
      case _ =>
        unmatched' := unmatched + [(shift, event)];
  }

  lemma ReplayStep(invoices: seq<Invoice>, lines: seq<string>, b: Books, work: seq<UnmatchedEntry>, p: UnmatchedEntry)
    ensures Replay(invoices, lines, b, work + [p]) == FileStep(invoices, lines, Replay(invoices, lines, b, work), p)
  {
    assert (work + [p])[..|work|] == work;
  }

  /** Filing two pieces of work one after the other is filing them together. */
  lemma {:induction false} ReplayAppend(invoices: seq<Invoice>, lines: seq<string>, b: Books,
                                        w1: seq<UnmatchedEntry>, w2: seq<UnmatchedEntry>)
    ensures Replay(invoices, lines, b, w1 + w2) == Replay(invoices, lines, Replay(invoices, lines, b, w1), w2)
    decreases |w2|
  {
    if w2 == [] {
      assert w1 + w2 == w1;
    } else {
      var init, last := w2[..|w2| - 1], w2[|w2| - 1];
      assert w1 + w2 == (w1 + init) + [last];
      ReplayStep(invoices, lines, b, w1 + init, last);
      ReplayAppend(invoices, lines, b, w1, init);
    }
  }

  /** Filing event by event, as the run does, agrees with the per-event
      classification: the lists are the projections of `Classify`, and the
      operator lines read are the prompts asked. */
  lemma {:induction false} ReplayClassify(invoices: seq<Invoice>, work: seq<UnmatchedEntry>, lines: seq<string>)
    ensures var fs := Classify(invoices, work, lines);
      Replay(invoices, lines, NoBooks, work) ==
        Books(MatchedOf(fs), AlreadyPaidOf(fs), UnmatchedOf(fs), Prompts(invoices, work))
  {
    if work != [] {
      var init, last := work[..|work| - 1], work[|work| - 1];
      ReplayClassify(invoices, init, lines);
      var fs := Classify(invoices, init, lines);
      var n := Prompts(invoices, init);
      var f := FileEvent(invoices, last.0, last.1, LineAt(lines, n));
      var m := FindMatch(invoices, last.1).UnpaidMultiple?;
      assert Replay(invoices, lines, NoBooks, work) ==
        Push(Books(MatchedOf(fs), AlreadyPaidOf(fs), UnmatchedOf(fs), n), f, m);
      assert Classify(invoices, work, lines) == fs + [f];
      assert Prompts(invoices, work) == n + if m then 1 else 0;
      PushProjections(fs, f, n, m);
    }
  }

  /** Pushing a filing extends the projections of the filings by it. */
  lemma PushProjections(fs: seq<Filing>, f: Filing, n: nat, m: bool)
    ensures Push(Books(MatchedOf(fs), AlreadyPaidOf(fs), UnmatchedOf(fs), n), f, m) ==
      Books(MatchedOf(fs + [f]), AlreadyPaidOf(fs + [f]), UnmatchedOf(fs + [f]), n + if m then 1 else 0)
  {
    assert (fs + [f])[..|fs|] == fs;
  }

  lemma WorklistStep(shifts: seq<Shift>, i: nat, eventsOf: Shift -> seq<ShiftEvent>, exclusions: string,
                     isExcluded: (ShiftEvent, string) -> bool)
    requires i < |shifts|
    ensures Worklist(shifts[..i + 1], eventsOf, exclusions, isExcluded) ==
      Worklist(shifts[..i], eventsOf, exclusions, isExcluded)
      + (if shifts[i].state == Closed then ShiftWork(shifts[i], eventsOf(shifts[i]), exclusions, isExcluded) else [])
  {
    assert shifts[..i + 1][..i] == shifts[..i];
  }

  lemma ShiftWorkStep(shift: Shift, events: seq<ShiftEvent>, j: nat, exclusions: string,
                      isExcluded: (ShiftEvent, string) -> bool)
    requires j < |events|
    ensures ShiftWork(shift, events[..j + 1], exclusions, isExcluded) ==
      ShiftWork(shift, events[..j], exclusions, isExcluded)
      + (if IsReconciled(events[j], exclusions, isExcluded) then [(shift, events[j])] else [])
  {
    assert events[..j + 1][..j] == events[..j];
  }

  /** Filing one more event appends its filing to exactly one of the three lists. */
  lemma ClassifyStep(invoices: seq<Invoice>, done: seq<UnmatchedEntry>, next: UnmatchedEntry, lines: seq<string>)
    ensures var fs := Classify(invoices, done, lines);
      var f := FileEvent(invoices, next.0, next.1, LineAt(lines, Prompts(invoices, done)));
      Classify(invoices, done + [next], lines) == fs + [f]
      && Prompts(invoices, done + [next]) == Prompts(invoices, done) + (if FindMatch(invoices, next.1).UnpaidMultiple? then 1 else 0)
      && MatchedOf(fs + [f]) == MatchedOf(fs) + (if f.ToMatched? then [f.entry] else [])
      && AlreadyPaidOf(fs + [f]) == AlreadyPaidOf(fs) + (if f.ToAlreadyPaid? then [f.event] else [])
      && UnmatchedOf(fs + [f]) == UnmatchedOf(fs) + (if f.ToUnmatched? then [f.pending] else [])
  {
    assert (done + [next])[..|done|] == done;
    var fs := Classify(invoices, done, lines);
    var f := FileEvent(invoices, next.0, next.1, LineAt(lines, Prompts(invoices, done)));
    assert (fs + [f])[..|fs|] == fs;
  }

  /** The event a filing records. */
  function FiledEvent(f: Filing): ShiftEvent
  {
    match f
    case ToMatched(entry) => entry.1
    case ToAlreadyPaid(event) => event
    case ToUnmatched(pending) => pending.1
  }

  lemma {:induction false} ClassifyLength(invoices: seq<Invoice>, work: seq<UnmatchedEntry>, lines: seq<string>)
    ensures |Classify(invoices, work, lines)| == |work|
  {
    if work != [] {
      ClassifyLength(invoices, work[..|work| - 1], lines);
    }
  }

  /** Every event of the worklist is filed exactly once, at its own position: the
      `k`-th filing is the `k`-th event's, with the operator line after the prompts
      of the earlier events. */
  lemma {:induction false} ClassifyAt(invoices: seq<Invoice>, work: seq<UnmatchedEntry>, lines: seq<string>, k: nat)
    requires k < |work|
    ensures |Classify(invoices, work, lines)| == |work|
    ensures Classify(invoices, work, lines)[k] ==
      FileEvent(invoices, work[k].0, work[k].1, LineAt(lines, Prompts(invoices, work[..k])))
    ensures FiledEvent(Classify(invoices, work, lines)[k]) == work[k].1
  {
    var init := work[..|work| - 1];
    ClassifyLength(invoices, init, lines);
    ClassifyLength(invoices, work, lines);
    if k < |init| {
      ClassifyAt(invoices, init, lines, k);
      assert init[..k] == work[..k];
      assert Classify(invoices, work, lines)[k] == Classify(invoices, init, lines)[k];
    } else {
      assert init == work[..k];
    }
    var f := Classify(invoices, work, lines)[k];
    FileEventSound(invoices, work[k].0, work[k].1, LineAt(lines, Prompts(invoices, work[..k])));
  }

  /** The three lists together hold one entry per filing. */
  lemma {:induction false} Tally(fs: seq<Filing>)
    ensures |MatchedOf(fs)| + |AlreadyPaidOf(fs)| + |UnmatchedOf(fs)| == |fs|
  {
    if fs != [] {
      Tally(fs[..|fs| - 1]);
    }
  }

  /** Each list keeps input order: the entries of earlier filings come first. */
  lemma {:induction false} ProjectionsAppend(fs: seq<Filing>, gs: seq<Filing>)
    ensures MatchedOf(fs + gs) == MatchedOf(fs) + MatchedOf(gs)
    ensures AlreadyPaidOf(fs + gs) == AlreadyPaidOf(fs) + AlreadyPaidOf(gs)
    ensures UnmatchedOf(fs + gs) == UnmatchedOf(fs) + UnmatchedOf(gs)
  {
    if gs == [] {
      assert fs + gs == fs;
    } else {
      var init := gs[..|gs| - 1];
      assert (fs + gs)[..|fs + gs| - 1] == fs + init;
      assert (fs + gs)[|fs + gs| - 1] == gs[|gs| - 1];
      ProjectionsAppend(fs, init);
    }
  }

  /** A filing's entry is in the list its constructor names. */
  lemma {:induction false} ProjectionsHold(fs: seq<Filing>, k: nat)
    requires k < |fs|
    ensures fs[k].ToMatched? ==> fs[k].entry in MatchedOf(fs)
    ensures fs[k].ToAlreadyPaid? ==> fs[k].event in AlreadyPaidOf(fs)
    ensures fs[k].ToUnmatched? ==> fs[k].pending in UnmatchedOf(fs)
  {
    if k < |fs| - 1 {
      var init := fs[..|fs| - 1];
      ProjectionsHold(init, k);
      assert init[k] == fs[k];
    }
  }

  /** The run's totals: the three lists' lengths add up to the worklist's, and the
      k-th worklist event's filing records that event and is in the list it names. */
  lemma ReconcileTally(invoices: seq<Invoice>, work: seq<UnmatchedEntry>, lines: seq<string>)
    ensures var fs := Classify(invoices, work, lines);
      |MatchedOf(fs)| + |AlreadyPaidOf(fs)| + |UnmatchedOf(fs)| == |work| == |fs|
    ensures var fs := Classify(invoices, work, lines);
      forall k :: 0 <= k < |work| ==>
        FiledEvent(fs[k]) == work[k].1
        && (fs[k].ToMatched? ==> fs[k].entry in MatchedOf(fs))
        && (fs[k].ToAlreadyPaid? ==> fs[k].event in AlreadyPaidOf(fs))
        && (fs[k].ToUnmatched? ==> fs[k].pending in UnmatchedOf(fs))
  {
    var fs := Classify(invoices, work, lines);
    ClassifyLength(invoices, work, lines);
    Tally(fs);
    forall k | 0 <= k < |work|
      ensures FiledEvent(fs[k]) == work[k].1
      ensures fs[k].ToMatched? ==> fs[k].entry in MatchedOf(fs)
      ensures fs[k].ToAlreadyPaid? ==> fs[k].event in AlreadyPaidOf(fs)
      ensures fs[k].ToUnmatched? ==> fs[k].pending in UnmatchedOf(fs)
    {
      ClassifyAt(invoices, work, lines, k);
      ProjectionsHold(fs, k);
    }
  }

  /** What each list holds: matched entries pair a worklist event with a qualifying
      unpaid invoice, already-paid events are worklist events the matcher calls paid, and
      unmatched entries are worklist events with no match or an undecided prompt. */
  lemma {:induction false} ClassifySound(invoices: seq<Invoice>, work: seq<UnmatchedEntry>, lines: seq<string>)
    ensures var fs := Classify(invoices, work, lines);
      (forall m :: m in MatchedOf(fs) ==>
        (m.0, m.1) in work && m.2 in invoices && Qualifies(m.1, m.2) && !IsPaid(m.2))
      && (forall e :: e in AlreadyPaidOf(fs) ==>
        (exists sh :: (sh, e) in work) && FindMatch(invoices, e) == AlreadyPaid)
      && (forall u :: u in UnmatchedOf(fs) ==>
        u in work && (FindMatch(invoices, u.1).NoMatch? || FindMatch(invoices, u.1).UnpaidMultiple?))
  {
    if work != [] {
      var init, last := work[..|work| - 1], work[|work| - 1];
      ClassifySound(invoices, init, lines);
      ClassifyStep(invoices, init, last, lines);
      FileEventSound(invoices, last.0, last.1, LineAt(lines, Prompts(invoices, init)));
      assert work == init + [last];
    }
  }

  lemma {:induction false} ShiftWorkMembers(shift: Shift, events: seq<ShiftEvent>, exclusions: string,
                                            isExcluded: (ShiftEvent, string) -> bool)
    ensures forall p :: p in ShiftWork(shift, events, exclusions, isExcluded) <==>
      p.0 == shift && p.1 in events && IsReconciled(p.1, exclusions, isExcluded)
  {
    if events != [] {
      var init := events[..|events| - 1];
      ShiftWorkMembers(shift, init, exclusions, isExcluded);
      assert events == init + [events[|events| - 1]];
    }
  }

  /** Only paid-out, non-excluded events of closed shifts are matched, and all of them are. */
  lemma {:induction false} WorklistMembers(shifts: seq<Shift>, eventsOf: Shift -> seq<ShiftEvent>,
                                           exclusions: string, isExcluded: (ShiftEvent, string) -> bool)
    ensures forall p :: p in Worklist(shifts, eventsOf, exclusions, isExcluded) <==>
      p.0 in shifts && p.0.state == Closed && p.1 in eventsOf(p.0) && IsReconciled(p.1, exclusions, isExcluded)
  {
    if shifts != [] {
      var init, last := shifts[..|shifts| - 1], shifts[|shifts| - 1];
      WorklistMembers(init, eventsOf, exclusions, isExcluded);
      ShiftWorkMembers(last, eventsOf(last), exclusions, isExcluded);
      assert shifts == init + [last];
    }
  }

  /** Shifts are worked in input order: the events of earlier shifts come first. */
  lemma {:induction false} WorklistAppend(shifts: seq<Shift>, more: seq<Shift>, eventsOf: Shift -> seq<ShiftEvent>,
                                          exclusions: string, isExcluded: (ShiftEvent, string) -> bool)
    ensures Worklist(shifts + more, eventsOf, exclusions, isExcluded) ==
      Worklist(shifts, eventsOf, exclusions, isExcluded) + Worklist(more, eventsOf, exclusions, isExcluded)
  {
    if more == [] {
      assert shifts + more == shifts;
    } else {
      var init := more[..|more| - 1];
      assert (shifts + more)[..|shifts + more| - 1] == shifts + init;
      assert (shifts + more)[|shifts + more| - 1] == more[|more| - 1];
      WorklistAppend(shifts, init, eventsOf, exclusions, isExcluded);
    }
  }
}
