# cashtx reconciliation core, modelled in Dafny

cashtx reconciles a point-of-sale cash drawer against an accounting ledger.
It reads the cash-drawer shifts since a date. For every paid-out event of
every closed shift, it looks for the accounts-payable invoice that event
paid. The matcher keeps the invoices whose contact name is close enough to
the event's description and whose amount due or amount paid equals the
event's amount. Then:

- if any of those invoices already carries a payment, the event counts as
  already paid;
- if a single unpaid invoice is left, it is the match;
- if several unpaid invoices are left, the operator picks one by its
  position, or leaves the event undecided with an empty answer.

Each matched event becomes one payment object, which carries the invoice
id, the payment account, the shift's date, the event's amount and a fixed
reference.

The model has these modules:

- `Records` holds the data model: shifts, events, invoices, contacts and
  payment objects. Money is integer cents.
- `Similarity` holds the contact test. It uses the normalised
  longest-common-subsequence similarity, and the 0.2 threshold is stated
  exactly on integers as `5 * LCS >= max(|desc|, |name|)`.
- `Matcher` holds `FindMatch` and its result type. `FindMatch` is three
  filters in a row, then a partition on "already paid", then the
  precedence and count cases. It is proved equal to `MatchSpec`, an
  independent reference that tests each invoice once.
- `Selection` holds the operator's answer. The line is trimmed as Rust's
  `str::trim` does, parsed as `usize` on a 64-bit target, and used as an
  index into the candidates.
- `Driver` holds the run, written as imperative loops:
  - `ReconcileShifts` loops over the shifts;
  - `ReconcileShift` loops over one shift's events;
  - `FileInto` pushes one verdict onto its list.

  Their specification is stated on values. `Worklist` is the events the
  run considers. `FileEvent` is where one event goes. `Replay` is the
  event-by-event filing the loops perform. `Classify` is the per-event
  classification, which is proved to give the same three lists. The lemmas
  then show that:
  - every considered event lands in exactly one list, at its own position
    and in input order;
  - only paid-out, non-excluded events of closed shifts are considered;
  - there is one payment object per matched entry.
- `Scenarios` holds worked examples:
  - a single match;
  - a paid invoice taking precedence;
  - a wrong amount;
  - two candidates offered in order, where the answer "1" pays the second
    one, an exhausted input leaves the event unmatched, and the resulting
    payment object carries these values.

Outside inputs are parameters:

- the invoices and shifts fetched over HTTP;
- the events of each shift, given as a function from shift to events;
- the exclusion pattern test;
- the operator's answers, given as the sequence of lines read from
  standard input.

## Model

| member | source | states |
|---|---|---|
| Similarity.LCS | src/main.rs:141-142 | the longest common subsequence length is at most the length of either string |
| Similarity.LCSIsLongest | src/main.rs:141-142 | LCS is at least the length of every common subsequence |
| Similarity.LCSAchieved | src/main.rs:141-142 | some common subsequence is exactly LCS long; with LCSIsLongest, LCS is the length of a longest common subsequence |
| Similarity.LCSSelf | src/main.rs:141-142 | a string's LCS with itself is its whole length |
| Similarity.LCSDisjoint | src/main.rs:141-142 | strings with no character in common have LCS 0 |
| Similarity.LCSSingleton | src/main.rs:141-142 | a one-character string has LCS 1 with a string containing that character, else 0 |
| Similarity.MeetsThreshold | src/main.rs:141-144 | definition: similarity LCS / max(length) at least 1/5, written as 5 * LCS >= max, and two empty strings count as similarity 1.0; its properties are stated by the threshold lemmas below |
| Similarity.FuzzyMatchesContact | src/main.rs:136-145 | an event without a description is never plausible; with one, plausible exactly when the similarity is at least 0.2 |
| Similarity.IdenticalMeetsThreshold | src/main.rs:141-144 | identical description and name score 1.0 and are plausible (including both empty) |
| Similarity.DisjointFailsThreshold | src/main.rs:141-144 | strings, not both empty, sharing no character have LCS 0, so score 0.0, and are not plausible |
| Similarity.PrefixThreshold | src/main.rs:141-144 | a description that is a prefix of the name keeps all of itself in common with it, and is plausible exactly when the name is at most five times as long as the description ("Bakery" for "Bakery One" passes, "B" for it fails) |
| Similarity.ThresholdBoundary | src/main.rs:144 | on the exact ratio the comparison is inclusive: 1 of 5 (exactly 0.2) passes, 1 of 6 fails |
| Matcher.Filter | src/main.rs:155-172 | the kept elements are exactly the input's elements that satisfy the predicate, and no more of them |
| Matcher.Partition | src/main.rs:178-180 | every element goes to exactly one side: the first side satisfies the predicate and the second does not |
| Matcher.FilterAppend | src/main.rs:155-172 | filtering distributes over concatenation, so filtering keeps the input order |
| Matcher.PartitionIsFilter | src/main.rs:178-180 | the paid side is the filter by the predicate and the unpaid side the filter by its negation, so both keep input order and multiplicity |
| Matcher.PartitionNoneHold | src/main.rs:178-180 | when no element is paid, the unpaid side is the whole input in order |
| Matcher.IsPayable | src/main.rs:158 | definition: the invoice is accounts payable (`AccPay`); MatchingByAmountIsQualifying and Qualifying use it as the first filter |
| Matcher.AmountMatches | src/main.rs:160-169 | definition: amount due or amount paid equals the event's amount, compared as integer cents where the source compares both sides as Decimals rounded to two places (see "## Left out"); Qualifies builds on it |
| Matcher.IsPaid | src/main.rs:180 | definition: the partition predicate, amount paid above zero, on cents where the source tests `amount_paid > 0.0` (see "## Left out"); AlreadyPaidIff states its role |
| Matcher.Qualifies | src/main.rs:158-169 | definition: all three filters hold of the invoice; Qualifying and MatchSpec are built on it and AlreadyPaidIff and NoMatchIff state results through it |
| Matcher.MatchingByAmount | src/main.rs:155-172 | definition: the three chained filters (payable, plausible contact, amount due or paid equal to the event's amount); MatchingByAmountIsQualifying states what it keeps |
| Matcher.FindMatch | src/main.rs:148-193 | no description gives no match; a single match is a payable, plausible, amount-matching unpaid invoice from the list; a multiple match is at least two such invoices |
| Matcher.Qualifying | src/main.rs:155-172 | the reference candidate list holds exactly the invoices passing all three tests |
| Matcher.MatchSpec | src/main.rs:148-193 | reference definition: already paid if any qualifying invoice is paid, otherwise no match, a single match or all qualifying invoices by their number; FindMatchMeetsSpec equates it with FindMatch |
| Matcher.MatchingByAmountIsQualifying | src/main.rs:155-172 | the chained filters give exactly the qualifying invoices, in their original order |
| Matcher.FindMatchMeetsSpec | src/main.rs:148-193 | the matcher equals the reference: already paid if any qualifying invoice is paid, otherwise no, one or several matches by the number of qualifying invoices |
| Matcher.AlreadyPaidIff | src/main.rs:178-184 | already paid exactly when some qualifying invoice has a payment, whatever unpaid ones also qualify |
| Matcher.NoMatchIff | src/main.rs:174-176 | no match exactly when no invoice qualifies, so the `0 =>` arm at line 189 is never taken |
| Matcher.UnpaidResult | src/main.rs:186-191 | with no paid candidate, one qualifying invoice is a single match and two or more are all offered in their original order |
| Selection.IsWhitespace | src/main.rs:505 | definition: the Unicode White_Space characters, the set `str::trim` strips; TrimStartSound, TrimEndSound and TrimSound state trimming through it |
| Selection.TrimStart | src/main.rs:505 | definition: drops whitespace characters from the front until the first non-whitespace one; TrimStartSound states its contract |
| Selection.TrimEnd | src/main.rs:505 | definition: drops whitespace characters from the back until the last non-whitespace one; TrimEndSound states its contract |
| Selection.Trim | src/main.rs:505 | definition: `str::trim`, both ends; TrimSound and TrimAround state its contract |
| Selection.TrimStartSound | src/main.rs:505 | trimming the start removes a whitespace prefix and stops at the first non-whitespace character |
| Selection.TrimEndSound | src/main.rs:505 | trimming the end removes a whitespace suffix and stops at the last non-whitespace character |
| Selection.TrimSound | src/main.rs:505 | a trimmed answer neither starts nor ends with whitespace |
| Selection.TrimAround | src/main.rs:505 | trimming whitespace, text, whitespace gives back exactly the text |
| Selection.TrimStartWhitespace | src/main.rs:505-509 | a line of nothing but whitespace trims to the empty answer |
| Selection.TrimStartPrefix | src/main.rs:505 | leading whitespace before a non-whitespace character is removed exactly |
| Selection.TrimEndSuffix | src/main.rs:505 | trailing whitespace after a non-whitespace character is removed exactly |
| Selection.DigitsValue | src/main.rs:511 | definition: the number a string of ASCII digits denotes, leading zeros allowed; DigitsValuePadded, DigitsCanonical and DigitsValueToDecimal state its properties |
| Selection.ParseUsize | src/main.rs:511 | a parsed value fits a 64-bit `usize` and comes from a non-empty string of digits with at most a leading '+' |
| Selection.ParseUsizeSound | src/main.rs:511 | an accepted answer is, after an optional '+', some leading zeros followed by the decimal rendering of its value, which is below 2^64 |
| Selection.DigitsCanonical | src/main.rs:511 | every digit string is some zeros followed by the rendering of its value |
| Selection.DigitsValuePadded | src/main.rs:511 | leading zeros do not change a numeral's value |
| Selection.ParsePadded | src/main.rs:511 | a rendering with any number of leading zeros, with or without '+', parses to its value when that is at most 2^64 - 1, and is rejected otherwise |
| Selection.DigitChar | src/main.rs:511 | the digit character for a value below ten is a digit denoting that value |
| Selection.ToDecimal | src/main.rs:492 | the decimal rendering of a position is a non-empty string of digits |
| Selection.DigitsValueToDecimal | src/main.rs:511 | reading a rendered number back gives the number |
| Selection.ParseToDecimal | src/main.rs:511 | parsing inverts rendering, with or without a leading '+' |
| Selection.PromptInvoiceMatch | src/main.rs:505-513 | a picked invoice is one of the candidates offered |
| Selection.SelectBlank | src/main.rs:505-509 | an empty or all-whitespace answer, including the empty read at end of input, leaves the event undecided |
| Selection.SelectIndex | src/main.rs:511-513 | an answer that trims to position n picks the n-th candidate, or nothing when n is past the end |
| Selection.SelectPadded | src/main.rs:505-513 | an answer with leading zeros or a leading '+', such as "01" or "+1", picks the same candidate as the plain number |
| Selection.SelectTypedIndex | src/main.rs:503-513 | a number typed and followed by a newline picks the candidate at that position, or nothing past the end |
| Selection.SelectNotNumeric | src/main.rs:511 | an answer holding anything other than digits and a leading '+' is not an index |
| Driver.Excluded | src/main.rs:345 | definition: the exclusion test applies only when the pattern is non-empty, and then the supplied pattern test decides; ShiftWorkMembers and WorklistMembers state which events it drops |
| Driver.IsReconciled | src/main.rs:341-347 | definition: a paid-out event that is not excluded; ShiftWorkMembers and WorklistMembers state that exactly these events are considered |
| Driver.LineAt | src/main.rs:503 | definition: the k-th operator line, or the empty line once the input has run out, which the empty read at end of input gives; SelectBlank and BakeryNoAnswer state what that empty line does |
| Driver.Replay | src/main.rs:340-370 | definition: the loops' event-by-event filing as a fold; ReplayAppend and ReplayClassify state that it gives Classify's three lists |
| Driver.ShiftWork | src/main.rs:340-347 | definition: the paid-out, non-excluded events of one shift, paired with it, in order; ShiftWorkMembers states its contract |
| Driver.Worklist | src/main.rs:324-347 | definition: the shift work of each closed shift, shift by shift; WorklistMembers and WorklistAppend state its contract |
| Driver.Verdict | src/main.rs:349-368 | definition: the match on the matcher's verdict, with the prompt for several candidates; FileEventSound states its contract |
| Driver.FileEvent | src/main.rs:349-368 | definition: the verdict of FindMatch on the event, filed by Verdict; FileEventSound states its contract |
| Driver.Classify | src/main.rs:340-370 | definition: the filings of the worklist in order, each prompt answered by the next operator line; ClassifyLength, ClassifyAt and ClassifySound state its contract |
| Driver.FileEventSound | src/main.rs:349-368 | a matched entry pairs the event with a qualifying unpaid invoice; an event is filed as already paid exactly when the matcher says so; otherwise it is unmatched, after no match or an undecided prompt |
| Records.DateNaive | src/main.rs:384 | definition: the calendar date part of a timestamp, as `date_naive`; PaymentObjects states that each payment carries its shift's date through it |
| Driver.PaymentObjects | src/main.rs:375-388 | one payment object per matched entry, in order, carrying its invoice id, the account code, the shift's date, the event's amount and the fixed reference |
| Driver.ReconcileShifts | src/main.rs:315-388 | the three lists are the projections of the classification of the worklist of closed shifts' paid-out, non-excluded events, and the payment objects are built from the matched list |
| Driver.ReconcileShift | src/main.rs:340-370 | one shift's loop files exactly that shift's paid-out, non-excluded events, in order, onto the lists it was given |
| Driver.FileInto | src/main.rs:349-368 | the verdict on one event pushes it onto the one list its filing names; a prompt reads one operator line |
| Driver.ReplayStep | src/main.rs:340-370 | loop support: filing one more event extends the filing so far by that event's step; the loops' contract is ReplayClassify |
| Driver.ReplayAppend | src/main.rs:324-371 | filing one shift's work after another's equals filing their concatenation |
| Driver.ReplayClassify | src/main.rs:349-368 | filing event by event gives the projections of the per-event classification, and reads one line per multiple-candidate prompt |
| Driver.PushProjections | src/main.rs:349-368 | pushing one filing extends each projection by exactly that filing's entry |
| Driver.WorklistStep | src/main.rs:324-327 | loop support: one more shift adds its events only when the shift is closed; the contract of Worklist is WorklistMembers and WorklistAppend |
| Driver.ShiftWorkStep | src/main.rs:340-347 | loop support: one more event is added only when it is paid out and not excluded; the contract of ShiftWork is ShiftWorkMembers |
| Driver.ClassifyStep | src/main.rs:349-368 | classifying one more event appends its filing to exactly one list and counts its prompt |
| Driver.ClassifyLength | src/main.rs:340-370 | there is one filing per worklist event |
| Driver.ClassifyAt | src/main.rs:340-370 | the k-th filing is the k-th event's, answered by the operator line after the earlier events' prompts |
| Driver.Tally | src/main.rs:315-371 | the three lists hold one entry per filing between them |
| Driver.ProjectionsAppend | src/main.rs:315-371 | each list keeps input order: the entries of earlier filings come first |
| Driver.ProjectionsHold | src/main.rs:349-368 | a filing's entry is in the list its constructor names |
| Driver.ReconcileTally | src/main.rs:315-371 | the three lists' lengths add up to the worklist's, and the k-th worklist event's filing records that event and is in the list it names |
| Driver.ClassifySound | src/main.rs:349-368 | matched entries pair a worklist event with a qualifying unpaid invoice; already-paid events are worklist events with the matcher's already-paid verdict; unmatched entries are worklist events with no match or an undecided prompt |
| Driver.ShiftWorkMembers | src/main.rs:340-347 | a shift's work is exactly its paid-out, non-excluded events, each paired with the shift |
| Driver.WorklistMembers | src/main.rs:324-347 | the worklist holds exactly the paid-out, non-excluded events of the closed shifts |
| Driver.WorklistAppend | src/main.rs:324 | shifts are worked in input order: earlier shifts' events come first |
| Scenarios.AcmePlausible | src/main.rs:136-145 | "ACME SUPPLIES" is plausible for "Acme Supplies Ltd" (common subsequence "A SL", 4 of 17) |
| Scenarios.AcmeSingle | src/main.rs:148-193 | one plausible unpaid invoice for 60.38 is a single match for a 6038-cent event |
| Scenarios.AcmeAlreadyPaid | src/main.rs:178-184 | an invoice paid by the same amount makes the result already paid, although an unpaid one also matches |
| Scenarios.AcmeWrongAmount | src/main.rs:160-176 | an invoice for another amount is no match |
| Scenarios.BakeryMultiple | src/main.rs:186-191 | two plausible unpaid invoices of the event's amount are both offered, in their original order |
| Scenarios.BakeryPickSecond | src/main.rs:359-363 | the answer "1" matches the event with the second candidate |
| Scenarios.BakeryNoAnswer | src/main.rs:359-366 | when the input has run out the event is left unmatched |
| Scenarios.BakeryPayment | src/main.rs:375-388 | the run on that event with the answer "1" matches the second invoice and builds its payment for 2500 cents on the shift's date |

## Left out

- HTTP, authentication and the ledger and point-of-sale clients (`square_client`, `xero_client`, `get_xero_access_token`, src/http.rs) are not part of this model. The invoices and shifts are inputs, and the events of a shift are a function from shift to events. The page-size warning and the payment submission are output only.
- `is_excluded` compiles a regular expression and matches it against the lower-cased, trimmed description. It is an abstract predicate parameter here. The guard that skips it for an empty pattern is modelled.
- Console output (`print_progress`, the prompt's listing, progress messages) is left out. The standard-input line is a parameter, and a read at end of input gives the empty line.
- Floating point and `Decimal` are left out. Event and invoice amounts are integer cents. The invoice amounts stand for the ledger's values after rounding to two places. The source's "already paid" test is on the raw `amount_paid > 0.0`, here `amountPaid > 0` on cents, so a payment below half a cent is not modelled. `as_dec` and the `Display` of money are not modelled, and payment amounts stay in cents.
- Similarity.FuzzyMatchesContact: the model compares the exact ratio LCS / max with 0.2, while the library computes the similarity in floating point and its code is not part of this model. If it computes 1 - distance / max, then 1 - 4/5 in 64-bit floating point is 0.19999999999999996, so 1 of 5, 2 of 10 and 3 of 15 fail in the program although they pass here. Similarity.ThresholdBoundary holds of the exact-ratio model only.
- The event's currency is carried but never compared, as in the source.
- Selection.PromptInvoiceMatch: on an answer that does not parse as a `usize`, the source's `unwrap` panics and ends the run. The model returns `NotAnIndex` and files the event as unmatched. An index past the end of the list gives nothing, as `get` does, and the event is left unmatched.
- `usize` is 64 bits wide.
- The source's `InvoiceMatchResult::None` is called `NoMatch`, so that it does not clash with `Option`'s `None`.
- The chrono timestamps are opaque records. Only `date_naive`, taking the date part, is used.
