/** The phone normaliser `cleanPhoneNumber`
    (src/controllers/leadController.js:10-28). */
module Phone {
  import opened Common
  import opened Text

  /** A spreadsheet cell as the sheet reader hands it over: absent, text, or a number. */
  datatype Cell = Blank | Str(s: string) | Num(n: int)

  /** JavaScript falsiness of a cell value (`!raw`). */
  predicate Falsy(c: Cell)
  {
    c.Blank? || (c.Str? && c.s == "") || (c.Num? && c.n == 0)
  }

  /** `String(raw)` for a cell that is not falsy. */
  function CellText(c: Cell): string
  {
    match c
    case Blank => ""
    case Str(s) => s
    case Num(n) => IntToString(n)
  }

  predicate IsTenDigits(s: string)
  {
    |s| == 10 && AllDigits(s)
  }

  /** Strip non-digits; drop a leading "91" while more than ten digits remain,
      then a leading "0" while still more than ten; keep exactly ten digits. */
  function CleanPhoneNumber(raw: Cell): (r: Option<string>)
    ensures Falsy(raw) ==> r == None
    ensures r.Some? ==> IsTenDigits(r.value)
  {
    if Falsy(raw) then None
    else
      var d0 := DigitsOf(CellText(raw));
      var d1 := if |d0| > 10 && StartsWith(d0, "91") then d0[2..] else d0;
      var d2 := if |d1| > 10 && StartsWith(d1, "0") then d1[1..] else d1;
      if |d2| == 10 then Some(d2) else None
  }

  /** The digit strings that clean to the ten-digit number `n`: `n` itself,
      `0n`, `91n` and `910n` — nothing else. */
  predicate AcceptedForm(d: string, n: string)
  {
    d == n || d == "0" + n || d == "91" + n || d == "910" + n
  }

  /** Reference characterisation of the normaliser, both directions. */
  lemma CleanPhoneNumberForms(raw: Cell, n: string)
    ensures CleanPhoneNumber(raw) == Some(n) <==>
      !Falsy(raw) && IsTenDigits(n) && AcceptedForm(DigitsOf(CellText(raw)), n)
  {
    if !Falsy(raw) && IsTenDigits(n) {
      var d := DigitsOf(CellText(raw));
      if d == "0" + n {
        assert d[0] == '0' && "91"[0] == '9';
        assert !StartsWith(d, "91");
        assert d[1..] == n;
      } else if d == "91" + n {
        assert d[2..] == n;
      } else if d == "910" + n {
        assert d[2..] == "0" + n;
        assert ("0" + n)[1..] == n;
      }
    }
    if CleanPhoneNumber(raw) == Some(n) {
      var d0 := DigitsOf(CellText(raw));
      var d1 := if |d0| > 10 && StartsWith(d0, "91") then d0[2..] else d0;
      if |d0| > 10 && StartsWith(d0, "91") {
        assert d0 == d0[..2] + d0[2..];
        if |d1| > 10 {
          assert StartsWith(d1, "0");
          assert d1 == d1[..1] + d1[1..];
          assert d0 == "910" + n;
        } else {
          assert d0 == "91" + n;
        }
      } else if |d0| > 10 {
        assert d0 == d0[..1] + d0[1..];
        assert d0 == "0" + n;
      }
    }
  }

  /** Every form a ten-digit number is written in cleans back to that number;
      with `CleanPhoneNumberForms`, the normaliser is idempotent on its output. */
  lemma CleanPhoneNumberOfTenDigits(n: string)
    requires IsTenDigits(n)
    ensures CleanPhoneNumber(Str(n)) == Some(n)
    ensures CleanPhoneNumber(Str("+91 " + n)) == Some(n)
    ensures CleanPhoneNumber(Str("0" + n)) == Some(n)
  {
    DigitsOfDigits(n);
    DigitsOfAppend("+91 ", n);
    assert DigitsOf("+91 ") == "91";
    DigitsOfAppend("0", n);
    assert DigitsOf("0") == "0";
    CleanPhoneNumberForms(Str(n), n);
    CleanPhoneNumberForms(Str("+91 " + n), n);
    CleanPhoneNumberForms(Str("0" + n), n);
  }

  lemma CleanPhoneNumberIdempotent(raw: Cell)
    requires CleanPhoneNumber(raw).Some?
    ensures CleanPhoneNumber(Str(CleanPhoneNumber(raw).value)) == CleanPhoneNumber(raw)
  {
    CleanPhoneNumberOfTenDigits(CleanPhoneNumber(raw).value);
  }
}
