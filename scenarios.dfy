/**
 * Worked scenarios: concrete events and invoices run through the matcher,
 * the prompt and the filing of one event.
 */
module Scenarios {
  import opened Wrappers
  import opened Records
  import opened Similarity
  import opened Matcher
  import opened Selection
  import opened Driver

  const DAY := DateTime(Date(2025, 10, 1), 0)

  function PayableInvoice(id: string, name: string, due: int, paid: int): Invoice
  {
    Invoice(AccPay, id, id, due, paid, Contact(id, name), DAY, DAY, Authorised)
  }

  function PaidOutEvent(cents: int, desc: string): ShiftEvent
  {
    ShiftEvent(PaidOut, ShiftEventMoney(cents, "GBP"), Some(desc))
  }

  /** "ACME SUPPLIES" against "Acme Supplies Ltd" shares "A SL": 4/17, above 0.2. */
  lemma AcmePlausible()
    ensures MeetsThreshold("ACME SUPPLIES", "Acme Supplies Ltd")
  {
    assert "A" + "" == "A" && "A S" + "" == "A S" && "A SL" + "" == "A SL";
    assert "A" + " S" == "A S" && "A S" + "L" == "A SL";
    assert "A" + "CME" == "ACME" && "ACME" + " S" == "ACME S" && "ACME S" + "UPP" == "ACME SUPP";
    assert "ACME SUPP" + "L" == "ACME SUPPL" && "ACME SUPPL" + "IES" == "ACME SUPPLIES";
    assert "A" + "cme" == "Acme" && "Acme" + " S" == "Acme S" && "Acme S" + "upplies " == "Acme Supplies ";
    assert "Acme Supplies " + "L" == "Acme Supplies L" && "Acme Supplies L" + "td" == "Acme Supplies Ltd";
    SubsequenceSelf("A");
    SubsequenceSelf(" S");
    SubsequenceSelf("L");
    SubsequenceAppend("A", "A", "", "CME");
    SubsequenceAppend("A", "ACME", " S", " S");
    SubsequenceAppend("A S", "ACME S", "", "UPP");
    SubsequenceAppend("A S", "ACME SUPP", "L", "L");
    SubsequenceAppend("A SL", "ACME SUPPL", "", "IES");
    SubsequenceAppend("A", "A", "", "cme");
    SubsequenceAppend("A", "Acme", " S", " S");
    SubsequenceAppend("A S", "Acme S", "", "upplies ");
    SubsequenceAppend("A S", "Acme Supplies ", "L", "L");
    SubsequenceAppend("A SL", "Acme Supplies L", "", "td");
    LCSIsLongest("A SL", "ACME SUPPLIES", "Acme Supplies Ltd");
  }

  const ACME := PayableInvoice("inv-acme", "Acme Supplies Ltd", 6038, 0)
  const ACME_PAID := PayableInvoice("inv-acme-2", "Acme Supplies Ltd", 6038, 6038)
  const ACME_EVENT := PaidOutEvent(6038, "ACME SUPPLIES")

  /** One plausible unpaid invoice of the right amount is a single match. */
  lemma AcmeSingle()
    ensures FindMatch([ACME], ACME_EVENT) == UnpaidSingle(ACME)
  {
    AcmePlausible();
    FindMatchMeetsSpec([ACME], ACME_EVENT);
  }

  /** A plausible invoice already paid by that amount wins over an unpaid one. */
  lemma AcmeAlreadyPaid()
    ensures FindMatch([ACME, ACME_PAID], ACME_EVENT) == AlreadyPaid
  {
    AcmePlausible();
    assert ACME_PAID in [ACME, ACME_PAID];
    AlreadyPaidIff([ACME, ACME_PAID], ACME_EVENT);
  }

  /** An invoice for a different amount is not a candidate. */
  lemma AcmeWrongAmount()
    ensures FindMatch([PayableInvoice("inv-acme", "Acme Supplies Ltd", 6000, 0)], ACME_EVENT) == NoMatch
  {
    FindMatchMeetsSpec([PayableInvoice("inv-acme", "Acme Supplies Ltd", 6000, 0)], ACME_EVENT);
  }

  const BAKERY_ONE := PayableInvoice("inv-b1", "Bakery One", 2500, 0)
  const BAKERY_TWO := PayableInvoice("inv-b2", "Bakery Two", 2500, 0)
  const BAKERY_EVENT := PaidOutEvent(2500, "Bakery")

  /** Two plausible unpaid invoices are both offered, in their original order. */
  lemma BakeryMultiple()
    ensures FindMatch([BAKERY_ONE, BAKERY_TWO], BAKERY_EVENT) == UnpaidMultiple([BAKERY_ONE, BAKERY_TWO])
  {
    PrefixThreshold("Bakery", " One");
    PrefixThreshold("Bakery", " Two");
    assert "Bakery" + " One" == "Bakery One" && "Bakery" + " Two" == "Bakery Two";
    assert [BAKERY_ONE, BAKERY_TWO][1..] == [BAKERY_TWO];
    assert Qualifying([BAKERY_TWO], BAKERY_EVENT) == [BAKERY_TWO];
    assert Qualifying([BAKERY_ONE, BAKERY_TWO], BAKERY_EVENT) == [BAKERY_ONE, BAKERY_TWO];
    FindMatchMeetsSpec([BAKERY_ONE, BAKERY_TWO], BAKERY_EVENT);
  }

  const SHIFT := Shift("shift-1", Closed, DAY)

  /** The operator types "1": the event is matched with the second candidate. */
  lemma BakeryPickSecond()
    ensures FileEvent([BAKERY_ONE, BAKERY_TWO], SHIFT, BAKERY_EVENT, "1\n") ==
      ToMatched((SHIFT, BAKERY_EVENT, BAKERY_TWO))
  {
    BakeryMultiple();
    SelectTypedIndex(1, [BAKERY_ONE, BAKERY_TWO]);
    assert ToDecimal(1) + "\n" == "1\n";
  }

  /** The input has run out: the event is left unmatched. */
  lemma BakeryNoAnswer()
    ensures FileEvent([BAKERY_ONE, BAKERY_TWO], SHIFT, BAKERY_EVENT, LineAt([], 0)) ==
      ToUnmatched((SHIFT, BAKERY_EVENT))
  {
    BakeryMultiple();
    SelectBlank("", [BAKERY_ONE, BAKERY_TWO]);
  }

  /** The whole run on one event: the operator's "1" pays the second invoice with
      the event's amount, dated by the shift. */
  lemma BakeryPayment()
    ensures var fs := Classify([BAKERY_ONE, BAKERY_TWO], [(SHIFT, BAKERY_EVENT)], ["1\n"]);
      MatchedOf(fs) == [(SHIFT, BAKERY_EVENT, BAKERY_TWO)]
      && PaymentObjects(MatchedOf(fs), "090") ==
        [PaymentRequestObject(PaymentRequestObjectInvoice("inv-b2"), PaymentRequestObjectAccount("090"),
                              Date(2025, 10, 1), 2500, REFERENCE)]
  {
    BakeryPickSecond();
    var work: seq<UnmatchedEntry> := [(SHIFT, BAKERY_EVENT)];
    assert work[..0] == [];
    ClassifyAt([BAKERY_ONE, BAKERY_TWO], work, ["1\n"], 0);
    var fs := Classify([BAKERY_ONE, BAKERY_TWO], work, ["1\n"]);
    assert fs == [ToMatched((SHIFT, BAKERY_EVENT, BAKERY_TWO))];
    assert fs[..0] == [];
  }
}
