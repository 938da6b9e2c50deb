/**
 * The operator's choice among several unpaid candidates: the line typed at
 * the prompt is trimmed; an empty answer leaves the event undecided, a
 * number picks the candidate at that position, and a number past the end
 * of the list picks nothing.
 *
 * Trimming and number parsing follow Rust's `str::trim` (Unicode White_Space
 * at both ends) and `str::parse::<usize>` on a 64-bit target (an optional
 * leading '+', then decimal digits, at most 2^64 - 1).
 */
module Selection {
  import opened Wrappers
  import opened Records

  /** The Unicode White_Space property, as Rust's `char::is_whitespace`. */
  predicate IsWhitespace(c: char)
  {
    var k := c as int;
    (0x09 <= k <= 0x0D) || k == 0x20 || k == 0x85 || k == 0xA0 || k == 0x1680
    || (0x2000 <= k <= 0x200A) || k == 0x2028 || k == 0x2029 || k == 0x202F
    || k == 0x205F || k == 0x3000
  }

  predicate AllWhitespace(s: string)
  {
    forall i :: 0 <= i < |s| ==> IsWhitespace(s[i])
  }

  /** `s` without its leading whitespace. */
  function TrimStart(s: string): string
  {
    if s != [] && IsWhitespace(s[0]) then TrimStart(s[1..]) else s
  }

  /** `s` without its trailing whitespace. */
  function TrimEnd(s: string): string
  {
    if s != [] && IsWhitespace(s[|s| - 1]) then TrimEnd(s[..|s| - 1]) else s
  }

  /** `s` without the whitespace at either end. */
  function Trim(s: string): string
  {
    TrimEnd(TrimStart(s))
  }

  /** Trimming the start removes a whitespace prefix, and no more. */
  lemma {:induction false} TrimStartSound(s: string)
    ensures var r := TrimStart(s);
      |r| <= |s| && r == s[|s| - |r|..] && AllWhitespace(s[..|s| - |r|])
      && (r == [] || !IsWhitespace(r[0]))
  {
    if s != [] && IsWhitespace(s[0]) {
      TrimStartSound(s[1..]);
      var r := TrimStart(s);
      assert s[..|s| - |r|] == [s[0]] + s[1..][..|s| - 1 - |r|];
    }
  }

  /** Trimming the end removes a whitespace suffix, and no more. */
  lemma {:induction false} TrimEndSound(s: string)
    ensures var r := TrimEnd(s);
      |r| <= |s| && r == s[..|r|] && AllWhitespace(s[|r|..])
      && (r == [] || !IsWhitespace(r[|r| - 1]))
  {
    if s != [] && IsWhitespace(s[|s| - 1]) {
      TrimEndSound(s[..|s| - 1]);
      var r := TrimEnd(s);
      assert s[|r|..] == s[..|s| - 1][|r|..] + [s[|s| - 1]];
    }
  }

  /** A trimmed string neither starts nor ends with whitespace. */
  lemma TrimSound(s: string)
    ensures var r := Trim(s);
      r == [] || (!IsWhitespace(r[0]) && !IsWhitespace(r[|r| - 1]))
  {
    TrimStartSound(s);
    TrimEndSound(TrimStart(s));
  }

  /** Trimming removes exactly the whitespace around the text, and an answer of
      nothing but whitespace trims to the empty string. */
  lemma TrimAround(lead: string, core: string, trail: string)
    requires AllWhitespace(lead) && AllWhitespace(trail)
    requires core == [] || (!IsWhitespace(core[0]) && !IsWhitespace(core[|core| - 1]))
    ensures Trim(lead + core + trail) == core
  {
    var s := lead + core + trail;
    if core == [] {
      assert s == lead + trail;
      TrimStartWhitespace(s);
    } else {
      TrimStartPrefix(lead, core + trail);
      assert s == lead + (core + trail);
      TrimEndSuffix(core, trail);
    }
  }

  lemma {:induction false} TrimStartWhitespace(s: string)
    requires AllWhitespace(s)
    ensures TrimStart(s) == []
  {
    if s != [] {
      TrimStartWhitespace(s[1..]);
    }
  }

  lemma {:induction false} TrimStartPrefix(lead: string, rest: string)
    requires AllWhitespace(lead)
    requires rest != [] && !IsWhitespace(rest[0])
    ensures TrimStart(lead + rest) == rest
  {
    if lead == [] {
      assert lead + rest == rest;
    } else {
      assert (lead + rest)[1..] == lead[1..] + rest;
      TrimStartPrefix(lead[1..], rest);
    }
  }

  lemma {:induction false} TrimEndSuffix(rest: string, trail: string)
    requires AllWhitespace(trail)
    requires rest != [] && !IsWhitespace(rest[|rest| - 1])
    ensures TrimEnd(rest + trail) == rest
  {
    if trail == [] {
      assert rest + trail == rest;
    } else {
      assert (rest + trail)[..|rest + trail| - 1] == rest + trail[..|trail| - 1];
      TrimEndSuffix(rest, trail[..|trail| - 1]);
    }
  }

  /** The largest `usize` on a 64-bit target. */
  const USIZE_MAX: nat := 0xFFFF_FFFF_FFFF_FFFF

  predicate IsDigit(c: char)
  {
    '0' <= c <= '9'
  }

  predicate AllDigits(s: string)
  {
    forall i :: 0 <= i < |s| ==> IsDigit(s[i])
  }

  /** The number a string of decimal digits denotes (leading zeros allowed). */
  function DigitsValue(s: string): nat
    requires AllDigits(s)
  {
    if s == [] then 0
    else DigitsValue(s[..|s| - 1]) * 10 + (s[|s| - 1] as int - '0' as int)
  }

  /** `str::parse::<usize>`: `None` is the parse error. */
  function ParseUsize(s: string): (r: Option<nat>)
    ensures r.Some? ==> r.value <= USIZE_MAX
    ensures r.Some? ==> s != [] && forall i :: 0 <= i < |s| ==> IsDigit(s[i]) || (i == 0 && s[i] == '+')
  {
    var digits := if s != [] && s[0] == '+' then s[1..] else s;
    if digits != [] && AllDigits(digits) && DigitsValue(digits) <= USIZE_MAX
    then Some(DigitsValue(digits))
    else None
  }

  function DigitChar(d: nat): (c: char)
    requires d < 10
    ensures IsDigit(c) && c as int - '0' as int == d
  {
    ('0' as int + d) as char
  }

  /** The decimal rendering of `n`, as the operator would type it. */
  function ToDecimal(n: nat): (s: string)
    ensures s != [] && AllDigits(s)
  {
    if n < 10 then [DigitChar(n)] else ToDecimal(n / 10) + [DigitChar(n % 10)]
  }

  lemma {:induction false} DigitsValueToDecimal(n: nat)
    ensures DigitsValue(ToDecimal(n)) == n
  {
    if n >= 10 {
      var s := ToDecimal(n);
      assert s[..|s| - 1] == ToDecimal(n / 10);
      DigitsValueToDecimal(n / 10);
    }
  }

  /** Parsing inverts rendering, with or without a leading '+'. */
  lemma ParseToDecimal(n: nat)
    requires n <= USIZE_MAX
    ensures ParseUsize(ToDecimal(n)) == Some(n)
    ensures ParseUsize("+" + ToDecimal(n)) == Some(n)
  {
    DigitsValueToDecimal(n);
    assert ("+" + ToDecimal(n))[1..] == ToDecimal(n);
  }

  /** The outcome of one prompt. `NotAnIndex` is an answer that is not a `usize`. */
  datatype Selection = Picked(invoice: Invoice) | Undecided | NotAnIndex

  /** The selection logic of the prompt, from the line the operator typed. */
  function PromptInvoiceMatch(line: string, invoices: seq<Invoice>): (r: Selection)
    ensures r.Picked? ==> r.invoice in invoices
  {
    var chosen := Trim(line);
    if chosen == [] then Undecided
    else
      match ParseUsize(chosen)
      case None => NotAnIndex
      case Some(i) => if i < |invoices| then Picked(invoices[i]) else Undecided
  }

  /** `k` zero digits. */
  function Zeros(k: nat): (z: string)
    ensures |z| == k && AllDigits(z)
  {
    seq(k, i => '0')
  }

  lemma {:induction false} DigitsValueZeros(k: nat)
    ensures DigitsValue(Zeros(k)) == 0
  {
    if k > 0 {
      assert Zeros(k)[..k - 1] == Zeros(k - 1);
      DigitsValueZeros(k - 1);
    }
  }

  /** Leading zeros do not change the value of a numeral. */
  lemma {:induction false} DigitsValuePadded(k: nat, t: string)
    requires AllDigits(t)
    ensures AllDigits(Zeros(k) + t) && DigitsValue(Zeros(k) + t) == DigitsValue(t)
  {
    var s := Zeros(k) + t;
    assert forall i :: 0 <= i < |s| ==> s[i] == if i < k then '0' else t[i - k];
    if t == [] {
      assert s == Zeros(k);
      DigitsValueZeros(k);
    } else {
      assert s[..|s| - 1] == Zeros(k) + t[..|t| - 1];
      DigitsValuePadded(k, t[..|t| - 1]);
    }
  }

  /** Every numeral is its value's rendering after some leading zeros. */
  lemma {:induction false} DigitsCanonical(d: string)
    requires d != [] && AllDigits(d)
    ensures |ToDecimal(DigitsValue(d))| <= |d|
    ensures d == Zeros(|d| - |ToDecimal(DigitsValue(d))|) + ToDecimal(DigitsValue(d))
  {
    var d', c := d[..|d| - 1], d[|d| - 1];
    var v := DigitsValue(d);
    assert d == d' + [c];
    assert AllDigits(d');
    assert v == DigitsValue(d') * 10 + (c as int - '0' as int);
    assert DigitChar(c as int - '0' as int) == c;
    if d' == [] {
      assert v == c as int - '0' as int;
      assert ToDecimal(v) == [c];
    } else {
      DigitsCanonical(d');
      var v' := DigitsValue(d');
      var k' := |d'| - |ToDecimal(v')|;
      if v' == 0 {
        assert d' == Zeros(|d'|) by {
          assert ToDecimal(0) == ['0'];
          assert forall i :: 0 <= i < |d'| ==> d'[i] == (Zeros(k') + ToDecimal(0))[i];
        }
        assert v == c as int - '0' as int;
        assert ToDecimal(v) == [c];
        assert d == Zeros(|d'|) + [c];
      } else {
        assert v / 10 == v' && v % 10 == c as int - '0' as int;
        assert ToDecimal(v) == ToDecimal(v') + [c];
        assert d == Zeros(k') + ToDecimal(v') + [c];
      }
    }
  }

  /** What `ParseUsize` accepts, and with what value: after an optional '+', some
      leading zeros and then the decimal rendering of a value below 2^64. */
  lemma ParseUsizeSound(s: string)
    ensures var digits := if s != [] && s[0] == '+' then s[1..] else s;
      match ParseUsize(s)
      case Some(n) =>
        n <= USIZE_MAX && |ToDecimal(n)| <= |digits|
        && digits == Zeros(|digits| - |ToDecimal(n)|) + ToDecimal(n)
      case None => true
  {
    var digits := if s != [] && s[0] == '+' then s[1..] else s;
    if ParseUsize(s).Some? {
      DigitsCanonical(digits);
    }
  }

  /** Leading zeros and a leading '+' are accepted, as `usize::from_str` does, and a
      value of 2^64 or more is rejected. */
  lemma ParsePadded(k: nat, n: nat)
    ensures ParseUsize(Zeros(k) + ToDecimal(n)) == if n <= USIZE_MAX then Some(n) else None
    ensures ParseUsize("+" + Zeros(k) + ToDecimal(n)) == if n <= USIZE_MAX then Some(n) else None
  {
    DigitsValueToDecimal(n);
    DigitsValuePadded(k, ToDecimal(n));
    var t := Zeros(k) + ToDecimal(n);
    assert t[0] != '+' by {
      if k == 0 { assert t == ToDecimal(n) && IsDigit(t[0]); } else { assert t[0] == '0'; }
    }
    assert ("+" + Zeros(k) + ToDecimal(n))[1..] == t;
  }

  /** A blank answer, such as the empty line read at end of input, picks nothing. */
  lemma SelectBlank(line: string, invoices: seq<Invoice>)
    requires AllWhitespace(line)
    ensures PromptInvoiceMatch(line, invoices) == Undecided
  {
    TrimStartWhitespace(line);
  }

  /** Typing a position picks the candidate there, or nothing when the position is
      past the end of the list; the list itself is only read. */
  lemma SelectIndex(line: string, n: nat, invoices: seq<Invoice>)
    requires n <= USIZE_MAX && Trim(line) == ToDecimal(n)
    ensures PromptInvoiceMatch(line, invoices) == if n < |invoices| then Picked(invoices[n]) else Undecided
  {
    ParseToDecimal(n);
  }

  /** An answer with leading zeros or a leading '+', such as "01" or "+1",
      picks the same candidate as the plain number. */
  lemma SelectPadded(line: string, k: nat, n: nat, invoices: seq<Invoice>)
    requires n <= USIZE_MAX
    requires Trim(line) == Zeros(k) + ToDecimal(n) || Trim(line) == "+" + Zeros(k) + ToDecimal(n)
    ensures PromptInvoiceMatch(line, invoices) == if n < |invoices| then Picked(invoices[n]) else Undecided
  {
    ParsePadded(k, n);
  }

  /** A line as read from the console: the number followed by a newline. */
  lemma SelectTypedIndex(n: nat, invoices: seq<Invoice>)
    requires n <= USIZE_MAX
    ensures PromptInvoiceMatch(ToDecimal(n) + "\n", invoices) ==
      if n < |invoices| then Picked(invoices[n]) else Undecided
  {
    var d := ToDecimal(n);
    assert [] + d + "\n" == d + "\n";
    TrimAround([], d, "\n");
    SelectIndex(d + "\n", n, invoices);
  }

  /** An answer holding a character that is neither a digit nor a leading '+' is not an index. */
  lemma SelectNotNumeric(line: string, k: nat, invoices: seq<Invoice>)
    requires k < |Trim(line)| && !IsDigit(Trim(line)[k]) && !(k == 0 && Trim(line)[k] == '+')
    ensures PromptInvoiceMatch(line, invoices) == NotAnIndex
  {
  }
}
