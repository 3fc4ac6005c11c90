/** str() and int() on integers: decimal text out, and the forms of it that are read back. */
module Numerals {
  import opened Wrappers

  predicate Without(s: string, c: char) { forall i | 0 <= i < |s| :: s[i] != c }

  function DigitChar(d: int): char
    requires 0 <= d < 10
  {
    ('0' as int + d) as char
  }

  predicate IsDigit(c: char) { '0' <= c <= '9' }

  function DigitValue(c: char): nat
    requires IsDigit(c)
  {
    c as int - '0' as int
  }

  function Digits(n: nat): (r: string)
    ensures r != "" && forall i | 0 <= i < |r| :: IsDigit(r[i])
  {
    if n < 10 then [DigitChar(n)] else Digits(n / 10) + [DigitChar(n % 10)]
  }

  function Decimal(n: int): string { if n < 0 then "-" + Digits(-n) else Digits(n) }

  /** ASCII white space as int() and strip() see it. */
  predicate IsSpace(c: char) { c == ' ' || 9 <= c as int <= 13 || 28 <= c as int <= 31 }

  function LStripSpace(s: string): string { if s != "" && IsSpace(s[0]) then LStripSpace(s[1..]) else s }

  function RStripSpace(s: string): string {
    if s != "" && IsSpace(s[|s| - 1]) then RStripSpace(s[..|s| - 1]) else s
  }

  /** Digits, with single underscores allowed between them. */
  function Number(s: string): Option<int> {
    if s == "" || !IsDigit(s[|s| - 1]) then None
    else
      var d := DigitValue(s[|s| - 1]);
      var front := s[..|s| - 1];
      if front == "" then Some(d)
      else
        match Number(if front[|front| - 1] == '_' then front[..|front| - 1] else front)
        case None => None
        case Some(n) => Some(10 * n + d)
  }

  /** int(): white space around, a sign, digits. */
  function ParseInt(text: string): Option<int> {
    var s := RStripSpace(LStripSpace(text));
    if s == "" then None
    else if s[0] == '-' then
      match Number(s[1..])
      case None => None
      case Some(n) => Some(-n)
    else
      match Number(if s[0] == '+' then s[1..] else s)
      case None => None
      case Some(n) => Some(n)
  }

  lemma {:induction false} NumberOfDigits(n: nat)
    ensures Number(Digits(n)) == Some(n)
  {
    if n >= 10 {
      NumberOfDigits(n / 10);
      var s := Digits(n);
      assert s[..|s| - 1] == Digits(n / 10);
    }
  }

  lemma {:induction false} NothingToStrip(s: string)
    requires s != "" && !IsSpace(s[0]) && !IsSpace(s[|s| - 1])
    ensures RStripSpace(LStripSpace(s)) == s
  {
  }

  /** Every integer is read back from its decimal text. */
  lemma ParsePrinted(n: int)
    ensures ParseInt(Decimal(n)) == Some(n) && Without(Decimal(n), '.')
  {
    var s, digits := Decimal(n), Digits(if n < 0 then -n else n);
    assert IsDigit(digits[0]) && IsDigit(digits[|digits| - 1]);
    assert s == if n < 0 then "-" + digits else digits;
    NothingToStrip(s);
    NumberOfDigits(if n < 0 then -n else n);
    assert n < 0 ==> s[1..] == digits;
  }

  /** The decimal text: the digits from the front, one character each, behind a sign for a negative number. */
  lemma DecimalText(n: int)
    ensures 0 <= n < 10 ==> Decimal(n) == ["0123456789"[n]]
    ensures n >= 10 ==> Decimal(n) == Decimal(n / 10) + Decimal(n % 10)
    ensures n < 0 ==> Decimal(n) == "-" + Decimal(-n)
  {
  }

  lemma {:induction false} NumberSnoc(front: string, c: char)
    ensures Number(front + [c]) ==
            if !IsDigit(c) then None
            else if front == "" then Some(DigitValue(c))
            else
              match Number(if front[|front| - 1] == '_' then front[..|front| - 1] else front)
              case None => None
              case Some(n) => Some(10 * n + DigitValue(c))
  {
    assert (front + [c])[..|front|] == front;
  }

  lemma {:induction false} OneCharacter(c: char)
    ensures Number([c]) == if IsDigit(c) then Some(DigitValue(c)) else None
  {
    NumberSnoc("", c);
    assert "" + [c] == [c];
  }

  lemma {:induction false} NumbersTaken()
    ensures Number("7") == Some(7) && Number("007") == Some(7) && Number("1_0") == Some(10)
  {
    OneCharacter('7');
    OneCharacter('0');
    OneCharacter('1');
    NumberSnoc("0", '0');
    NumberSnoc("00", '7');
    NumberSnoc("1_", '0');
    assert "0" + ['0'] == "00" && "00" + ['7'] == "007" && "1_" + ['0'] == "1_0" && "1_"[..1] == "1";
  }

  lemma {:induction false} NumbersRefused()
    ensures Number("1__0") == None && Number("_1") == None && Number("1_") == None && Number("") == None
    ensures Number("1.0") == None && Number("1 0") == None
  {
    NumberSnoc("1", '_');
    NumberSnoc("1__", '0');
    NumberSnoc("_", '1');
    assert "1" + ['_'] == "1_" && "1__" + ['0'] == "1__0" && "_" + ['1'] == "_1" && "1__"[..2] == "1_" && "_"[..0] == "";
    NumberSnoc("1", '.');
    NumberSnoc("1.", '0');
    NumberSnoc("1", ' ');
    NumberSnoc("1 ", '0');
    assert "1" + ['.'] == "1." && "1." + ['0'] == "1.0" && "1" + [' '] == "1 " && "1 " + ['0'] == "1 0";
  }

  lemma {:induction false} KnownStrips()
    ensures RStripSpace(LStripSpace(" 7\t")) == "7" && RStripSpace(LStripSpace(" ")) == ""
  {
    assert " 7\t"[1..] == "7\t" && "7\t"[..1] == "7" && " "[1..] == "";
    assert LStripSpace("7\t") == "7\t" && RStripSpace("7\t") == RStripSpace("7");
  }

  /** What int() takes besides: white space around, a sign, and single underscores between digits. */
  lemma {:induction false} KnownIntegers()
    ensures ParseInt(" 7\t") == Some(7) && ParseInt("+7") == Some(7) && ParseInt("-7") == Some(-7) && ParseInt("007") == Some(7)
    ensures ParseInt("1_0") == Some(10) && ParseInt("1__0") == None && ParseInt("_1") == None && ParseInt("1_") == None
    ensures ParseInt("") == None && ParseInt(" ") == None && ParseInt("-") == None && ParseInt("1.0") == None && ParseInt("1 0") == None
  {
    NumbersTaken();
    NumbersRefused();
    KnownStrips();
    assert "+7"[1..] == "7" && "-7"[1..] == "7" && "-"[1..] == "";
    forall s | s in {"+7", "-7", "007", "1_0", "1__0", "_1", "1_", "-", "1.0", "1 0"} ensures RStripSpace(LStripSpace(s)) == s {
      NothingToStrip(s);
    }
  }
}
