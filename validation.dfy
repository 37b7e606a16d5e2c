/** ValidateCreateExpense (pkg/services/featureOne/helper/expenses.go) and the
    date check it shares with the update handler: Go's time.Parse with the
    layout "2006-01-02". */
module ExpenseValidation {
  import opened Wrappers
  import opened Text
  import opened Numbers
  import opened ExpenseModel

  function IsLeap(year: int): bool {
    year % 4 == 0 && (year % 100 != 0 || year % 400 == 0)
  }

  /** The number of days of a month (1..12) in a given year. */
  function DaysIn(month: int, year: int): (d: int)
    requires 1 <= month <= 12
    ensures 28 <= d <= 31
    ensures month == 2 ==> (d == 29 <==> IsLeap(year))
  {
    if month == 2 then (if IsLeap(year) then 29 else 28)
    else if month == 4 || month == 6 || month == 9 || month == 11 then 30
    else 31
  }

  /** What time.Parse("2006-01-02", s) accepts: exactly four year digits, a
      dash, two month digits for a month 01..12, a dash and two day digits
      for a day that exists in that month of that year; nothing before or after. */
  predicate IsLayoutDate(s: string) {
    |s| == 10 && s[4] == '-' && s[7] == '-'
    && AllDigits(s[0..4]) && AllDigits(s[5..7]) && AllDigits(s[8..10])
    && var year := DigitsValue(s[0..4]);
       var month := DigitsValue(s[5..7]);
       var day := DigitsValue(s[8..10]);
       1 <= month <= 12 && 1 <= day <= DaysIn(month, year)
  }

  /** The errors ValidateCreateExpense returns, in the order it checks them. */
  datatype ValidationError = TitleRequired | AmountNotPositive | DateRequired | InvalidDateFormat {
    function Message(): string {
      match this
      case TitleRequired => "title is required"
      case AmountNotPositive => "amount must be greater than 0"
      case DateRequired => "date is required"
      case InvalidDateFormat => "invalid date format (expected YYYY-MM-DD)"
    }
  }

  /** The guard chain of ValidateCreateExpense: the first failing check names
      the error, and None (Go's nil) means every check passed. */
  function ValidateCreateExpense(req: CreateExpenseRequest): (r: Option<ValidationError>)
    ensures r.None? <==> TrimSpace(req.title) != "" && req.amount > 0.0
                         && TrimSpace(req.date) != "" && IsLayoutDate(req.date)
    ensures r == Some(TitleRequired) <==> TrimSpace(req.title) == ""
    ensures r == Some(AmountNotPositive) <==> TrimSpace(req.title) != "" && req.amount <= 0.0
    ensures r == Some(DateRequired) <==> TrimSpace(req.title) != "" && req.amount > 0.0 && TrimSpace(req.date) == ""
    ensures r == Some(InvalidDateFormat) <==>
              TrimSpace(req.title) != "" && req.amount > 0.0 && TrimSpace(req.date) != "" && !IsLayoutDate(req.date)
  {
    if TrimSpace(req.title) == "" then Some(TitleRequired)
    else if req.amount <= 0.0 then Some(AmountNotPositive)
    else if TrimSpace(req.date) == "" then Some(DateRequired)
    else if !IsLayoutDate(req.date) then Some(InvalidDateFormat)
    else None
  }

  /** A date the layout accepts has no white space around it: it starts and
      ends with a digit. */
  lemma LayoutDateUnpadded(s: string)
    requires IsLayoutDate(s)
    ensures !IsSpace(s[0]) && !IsSpace(s[|s| - 1])
    ensures TrimSpace(s) == s
  {
    assert IsDigit(s[0..4][0]);
    assert IsDigit(s[8..10][1]);
    assert TrimLeft(s) == s;
  }

  /** The untrimmed date is what is parsed: a valid date with a space before
      or after it passes the "date is required" check and then fails the
      layout check. */
  lemma PaddedDateRejected(req: CreateExpenseRequest, d: string)
    requires IsLayoutDate(d)
    requires TrimSpace(req.title) != "" && req.amount > 0.0
    requires req.date == " " + d || req.date == d + " "
    ensures ValidateCreateExpense(req) == Some(InvalidDateFormat)
  {
    assert TrimSpace(req.date) != "" by {
      LayoutDateUnpadded(d);
      TrimSpaceBlankIff(req.date);
      if req.date == " " + d {
        assert req.date[1] == d[0];
      } else {
        assert req.date[0] == d[0];
      }
    }
  }

  /** Leap days: 29 February is accepted exactly in leap years. */
  lemma LeapDay(s: string)
    requires |s| == 10 && AllDigits(s[0..4]) && s[4..] == "-02-29"
    ensures IsLayoutDate(s) <==> IsLeap(DigitsValue(s[0..4]))
  {
    assert s[4] == s[4..][0] == '-' && s[7] == s[4..][3] == '-';
    assert s[5..7] == "02" && s[8..10] == "29";
    TwoDigits(s[5..7]);
    TwoDigits(s[8..10]);
  }

  lemma TwoDigits(s: string)
    requires |s| == 2 && AllDigits(s)
    ensures DigitsValue(s) == DigitValue(s[0]) * 10 + DigitValue(s[1])
  {
    assert DigitsValue(s) == DigitsValue(s[..1]) * 10 + DigitValue(s[1]);
    assert s[..1][..0] == [] && s[..1][0] == s[0];
  }
}
