/**
 * The invoice matcher: for one cash-drawer event, which accounts-payable
 * invoice (if any) it pays.
 *
 * The candidates are the payable invoices whose contact is plausible for the
 * event's description and whose amount due or amount paid equals the event's
 * amount. A candidate already carrying a payment makes the whole result
 * `AlreadyPaid`; otherwise one candidate is a single match and several are
 * returned, in their original order, for the operator to choose from.
 */
module Matcher {
  import opened Wrappers
  import opened Records
  import opened Similarity

  /** The source's `InvoiceMatchResult`; its `None` variant is called `NoMatch` here. */
  datatype InvoiceMatchResult =
    | NoMatch
    | AlreadyPaid
    | UnpaidSingle(invoice: Invoice)
    | UnpaidMultiple(invoices: seq<Invoice>)

  /** The elements of `s` satisfying `p`, in their order in `s` (an iterator's `filter`). */
  function Filter<T>(s: seq<T>, p: T -> bool): (r: seq<T>)
    ensures |r| <= |s|
    ensures forall x :: x in r ==> x in s && p(x)
    ensures forall x :: x in s && p(x) ==> x in r
  {
    if s == [] then []
    else (if p(s[0]) then [s[0]] else []) + Filter(s[1..], p)
  }

  /** The elements satisfying `p` and the others, each in order (an iterator's `partition`). */
  function Partition<T>(s: seq<T>, p: T -> bool): (r: (seq<T>, seq<T>))
    ensures |r.0| + |r.1| == |s|
    ensures forall x :: x in r.0 ==> x in s && p(x)
    ensures forall x :: x in r.1 ==> x in s && !p(x)
    ensures forall x :: x in s ==> x in r.0 || x in r.1
  {
    if s == [] then ([], [])
    else
      var rest := Partition(s[1..], p);
      if p(s[0]) then ([s[0]] + rest.0, rest.1) else (rest.0, [s[0]] + rest.1)
  }

  predicate IsPayable(inv: Invoice)
  {
    inv.invoiceType == AccPay
  }

  function PlausibleFor(event: ShiftEvent): Invoice -> bool
  {
    (inv: Invoice) => FuzzyMatchesContact(event, inv.contact)
  }

  /** Amount due or amount paid equals the event's amount (all in cents). */
  predicate AmountMatches(event: ShiftEvent, inv: Invoice)
  {
    inv.amountDue == event.eventMoney.amount || inv.amountPaid == event.eventMoney.amount
  }

  function AmountMatchesFor(event: ShiftEvent): Invoice -> bool
  {
    (inv: Invoice) => AmountMatches(event, inv)
  }

  /** Already (at least partly) settled, whatever its status. */
  predicate IsPaid(inv: Invoice)
  {
    inv.amountPaid > 0
  }

  /** Passes all three of the matcher's filters. */
  predicate Qualifies(event: ShiftEvent, inv: Invoice)
  {
    IsPayable(inv) && FuzzyMatchesContact(event, inv.contact) && AmountMatches(event, inv)
  }

  /** The three chained filters of the matcher. */
  function MatchingByAmount(invoices: seq<Invoice>, event: ShiftEvent): seq<Invoice>
  {
    Filter(Filter(Filter(invoices, IsPayable), PlausibleFor(event)), AmountMatchesFor(event))
  }

  function FindMatch(invoices: seq<Invoice>, event: ShiftEvent): (r: InvoiceMatchResult)
    ensures event.description.None? ==> r == NoMatch
    ensures r.UnpaidSingle? ==>
      r.invoice in invoices && Qualifies(event, r.invoice) && !IsPaid(r.invoice)
    ensures r.UnpaidMultiple? ==>
      |r.invoices| >= 2 &&
      forall inv :: inv in r.invoices ==> inv in invoices && Qualifies(event, inv) && !IsPaid(inv)
  {
    var matchingByAmount := MatchingByAmount(invoices, event);
    if |matchingByAmount| == 0 then NoMatch
    else
      var (paid, unpaid) := Partition(matchingByAmount, IsPaid);
      if |paid| != 0 then AlreadyPaid
      else if |unpaid| == 0 then NoMatch
      else if |unpaid| == 1 then UnpaidSingle(unpaid[0])
      else UnpaidMultiple(unpaid)
  }

  /** Reference: the qualifying invoices, in their original order, by one test per invoice. */
  function Qualifying(invoices: seq<Invoice>, event: ShiftEvent): (r: seq<Invoice>)
    ensures forall inv :: inv in r <==> inv in invoices && Qualifies(event, inv)
  {
    if invoices == [] then []
    else (if Qualifies(event, invoices[0]) then [invoices[0]] else []) + Qualifying(invoices[1..], event)
  }

  /**
   * Reference result: `AlreadyPaid` as soon as a qualifying invoice is paid,
   * otherwise decided by how many invoices qualify.
   */
  function MatchSpec(invoices: seq<Invoice>, event: ShiftEvent): InvoiceMatchResult
  {
    if exists inv :: inv in invoices && Qualifies(event, inv) && IsPaid(inv) then AlreadyPaid
    else
      var q := Qualifying(invoices, event);
      if q == [] then NoMatch
      else if |q| == 1 then UnpaidSingle(q[0])
      else UnpaidMultiple(q)
  }

  lemma {:induction false} FilterAppend<T>(a: seq<T>, b: seq<T>, p: T -> bool)
    ensures Filter(a + b, p) == Filter(a, p) + Filter(b, p)
  {
    if a == [] {
      assert a + b == b;
    } else {
      assert (a + b)[1..] == a[1..] + b;
      FilterAppend(a[1..], b, p);
    }
  }

  lemma {:induction false} PartitionNoneHold<T>(s: seq<T>, p: T -> bool)
    requires forall x :: x in s ==> !p(x)
    ensures Partition(s, p).1 == s
  {
    if s != [] {
      assert s[0] in s;
      assert forall x :: x in s[1..] ==> x in s;
      PartitionNoneHold(s[1..], p);
    }
  }

  /** The negation of a predicate. */
  function Not<T>(p: T -> bool): T -> bool
  {
    x => !p(x)
  }

  /** The two sides of a partition are the two filters, so each keeps input order
      and multiplicity. */
  lemma {:induction false} PartitionIsFilter<T>(s: seq<T>, p: T -> bool)
    ensures Partition(s, p).0 == Filter(s, p)
    ensures Partition(s, p).1 == Filter(s, Not(p))
  {
    if s != [] {
      PartitionIsFilter(s[1..], p);
    }
  }

  /** The chained filters keep exactly the qualifying invoices, in their original order. */
  lemma {:induction false} MatchingByAmountIsQualifying(invoices: seq<Invoice>, event: ShiftEvent)
    ensures MatchingByAmount(invoices, event) == Qualifying(invoices, event)
  {
    if invoices != [] {
      var x, t := invoices[0], invoices[1..];
      var p, q, r := IsPayable, PlausibleFor(event), AmountMatchesFor(event);
      assert invoices == [x] + t;
      FilterAppend([x], t, p);
      FilterAppend(Filter([x], p), Filter(t, p), q);
      FilterAppend(Filter(Filter([x], p), q), Filter(Filter(t, p), q), r);
      assert [x][1..] == [];
      assert Filter(Filter(Filter([x], p), q), r) == if Qualifies(event, x) then [x] else [];
      MatchingByAmountIsQualifying(t, event);
    }
  }

  /** The matcher computes the reference result: in particular an `UnpaidMultiple`
      holds exactly the qualifying invoices in their original order. */
  lemma FindMatchMeetsSpec(invoices: seq<Invoice>, event: ShiftEvent)
    ensures FindMatch(invoices, event) == MatchSpec(invoices, event)
  {
    MatchingByAmountIsQualifying(invoices, event);
    var c := MatchingByAmount(invoices, event);
    if !exists inv :: inv in invoices && Qualifies(event, inv) && IsPaid(inv) {
      PartitionNoneHold(c, IsPaid);
    }
  }

  /** Paid takes precedence: `AlreadyPaid` exactly when some qualifying invoice is paid,
      whether or not unpaid ones qualify too. */
  lemma AlreadyPaidIff(invoices: seq<Invoice>, event: ShiftEvent)
    ensures FindMatch(invoices, event) == AlreadyPaid <==>
      exists inv :: inv in invoices && Qualifies(event, inv) && IsPaid(inv)
  {
    FindMatchMeetsSpec(invoices, event);
  }

  /** `NoMatch` exactly when no invoice passes all three filters; so the
      matcher's `0 =>` arm after the partition is never taken. */
  lemma NoMatchIff(invoices: seq<Invoice>, event: ShiftEvent)
    ensures FindMatch(invoices, event) == NoMatch <==>
      forall inv :: inv in invoices ==> !Qualifies(event, inv)
  {
    FindMatchMeetsSpec(invoices, event);
    var q := Qualifying(invoices, event);
    if q != [] {
      assert q[0] in q;
    }
  }

  /** With no paid candidate, one qualifying invoice is a single match and several are
      all offered, in order. */
  lemma UnpaidResult(invoices: seq<Invoice>, event: ShiftEvent)
    requires forall inv :: inv in invoices && Qualifies(event, inv) ==> !IsPaid(inv)
    ensures var q := Qualifying(invoices, event);
      (|q| == 1 ==> FindMatch(invoices, event) == UnpaidSingle(q[0])) &&
      (|q| >= 2 ==> FindMatch(invoices, event) == UnpaidMultiple(q))
  {
    FindMatchMeetsSpec(invoices, event);
  }
}
