/** Numbers as they are written, with sign, fraction and power, and what they are read as; character
    classes, and strings between single quotes. */
module Numbers {
  import opened Kson
  import opened Tokenizing
  import opened Reading
  import opened RoundTrip

  // ---------- characters ----------

  /** The classes of characters by their codes: white space, letters and the underscore, digits. */
  lemma CharacterClasses(c: char)
    ensures IsSpace(c) <==> c as int == 32 || 9 <= c as int <= 13
    ensures IsLetter(c) <==> 65 <= c as int <= 90 || 97 <= c as int <= 122 || c as int == 95
    ensures IsDigit(c) <==> 48 <= c as int <= 57
  {
  }

  /** A name goes on with letters and digits, and with other characters, but for these. */
  lemma NamesGoOn(c: char, t: string)
    ensures WordEnd([c] + t) == 0 <==> IsSpace(c) || c as int == 0 || c in ['=', ':', '%', '.', '/', '|', '!', '#', '$', '@', '<', '>', '[', ']', '(', ')', '{', '}', ';']
  {
    assert ([c] + t)[1..] == t;
  }

  // ---------- integers ----------

  function Blanks(n: nat): string { if n == 0 then "" else " " + Blanks(n - 1) }

  lemma {:induction false} BlanksCounted(n: nat, t: string)
    requires t == "" || t[0] != ' '
    ensures |Blanks(n)| == n && Spaces(Blanks(n) + t) == n
  {
    if n > 0 {
      BlanksCounted(n - 1, t);
      assert (Blanks(n) + t)[1..] == Blanks(n - 1) + t && (Blanks(n) + t)[0] == ' ';
    } else {
      assert Blanks(n) + t == t;
    }
  }

  lemma {:induction false} DigitsCounted(lead: string, d: string, tail: string, i: nat, acc: nat)
    requires (forall c <- d :: IsDigit(c)) && (tail == "" || !IsDigit(tail[0])) && i <= |d|
    ensures Value10(lead + d + tail, |lead| + i, acc) == Value10(d, i, acc)
    decreases |d| - i
  {
    if i < |d| {
      assert (lead + d + tail)[|lead| + i] == d[i] && d[i] in d && IsDigit(d[i]);
      DigitsCounted(lead, d, tail, i + 1, 10 * acc + (d[i] - '0') as nat);
    }
  }

  lemma ValueOfDecimal(n: nat)
    ensures Value10(Decimal(n), 0, 0) == n && Decimal(n) != "" && IsDigit(Decimal(n)[0])
  {
    hide Decimal, Value10;
    DecimalReadsBack(n);
  }

  /** Blanks, a sign or none, and digits mean the number with that sign; digits end anywhere. */
  lemma SignedDecimalReads(k: nat, sign: string, n: nat, tail: string)
    requires sign == "" || sign == "+" || sign == "-"
    requires tail == "" || !IsDigit(tail[0])
    ensures IntegerOf(Blanks(k) + sign + Decimal(n) + tail) == (if sign == "-" then -1 else 1) * n
  {
    hide Decimal, Value10, Blanks, Spaces;
    var s, rest := Blanks(k) + sign + Decimal(n) + tail, sign + Decimal(n) + tail;
    ValueOfDecimal(n);
    assert s == Blanks(k) + rest && rest[0] == if sign == "" then Decimal(n)[0] else sign[0];
    BlanksCounted(k, rest);
    assert s[k] == rest[0];
    DigitsCounted(Blanks(k) + sign, Decimal(n), tail, 0, 0);
  }

  /** A sign without digits means 0; neither sign nor digit means 2147483647. */
  lemma NoDecimal(k: nat, sign: string, tail: string)
    requires sign == "" || sign == "+" || sign == "-"
    requires tail == "" || (!IsDigit(tail[0]) && (sign == "" ==> tail[0] != ' ' && tail[0] != '+' && tail[0] != '-'))
    ensures IntegerOf(Blanks(k) + sign + tail) == if sign == "" then 2147483647 else 0
  {
    hide Blanks, Spaces;
    var s, rest := Blanks(k) + sign + tail, sign + tail;
    assert s == Blanks(k) + rest;
    BlanksCounted(k, rest);
    assert rest != "" ==> s[k] == rest[0];
  }

  // ---------- numbers with parts ----------

  predicate Digits(s: string) { forall c <- s :: IsDigit(c) }

  /** Parts that can be written: digits, at least one before the dot, and no sign without a power. */
  predicate WellFormed(num: Number) {
    num.before != "" && Digits(num.before) && Digits(num.after) && Digits(num.power) && (num.power == "" ==> num.powerPositive)
  }

  /** What follows the digits before the dot. */
  function PowerText(num: Number): string {
    if num.power == "" then "" else "e" + (if num.powerPositive then "" else "-") + num.power
  }

  function FractionText(num: Number): string {
    (if num.after == "" then "" else "." + num.after) + PowerText(num)
  }

  /** A number that is not negative may show a sign. */
  function NumberText(num: Number, plus: bool): string {
    (if !num.positive then "-" else if plus then "+" else "") + num.before + FractionText(num)
  }

  predicate Stops(tail: string) { tail == "" || StopsNumber(tail[0]) }

  function Grown(num: Number, part: Part, d: string): Number {
    match part
    case Integer => num.(before := num.before + d)
    case Fraction => num.(after := num.after + d)
    case Power => num.(power := num.power + d)
  }

  lemma ScanStep(t: string, part: Part, num: Number)
    requires t != "" && !StopsNumber(t[0])
    ensures var r := ScanNumber(t[1..], Turn(part, t[0]), Take(num, part, t[0])); ScanNumber(t, part, num) == (r.0, r.1 + 1)
  {
  }

  lemma ScanEnd(tail: string, part: Part, num: Number)
    requires Stops(tail)
    ensures ScanNumber(tail, part, num) == (num, 0)
  {
  }

  lemma DigitTaken(c: char, part: Part, num: Number)
    requires IsDigit(c)
    ensures !StopsNumber(c) && Turn(part, c) == part && Take(num, part, c) == Grown(num, part, [c])
  {
  }

  lemma GrownTwice(num: Number, part: Part, c: char, d: string)
    ensures Grown(Grown(num, part, [c]), part, d) == Grown(num, part, [c] + d)
  {
    assert num.before + [c] + d == num.before + ([c] + d) && num.after + [c] + d == num.after + ([c] + d);
    assert num.power + [c] + d == num.power + ([c] + d);
  }

  lemma {:induction false} ScansPart(d: string, part: Part, num: Number, rest: string)
    requires Digits(d)
    ensures ScanNumber(d + rest, part, num) == (ScanNumber(rest, part, Grown(num, part, d)).0, |d| + ScanNumber(rest, part, Grown(num, part, d)).1)
  {
    hide ScanNumber, Take, Turn, StopsNumber, Grown;
    if d == "" {
      assert d + rest == rest;
      GrownNot(num, part);
    } else {
      var t := d + rest;
      assert t[0] == d[0] && t[1..] == d[1..] + rest && d[0] in d && d == [d[0]] + d[1..];
      DigitTaken(d[0], part, num);
      ScanStep(t, part, num);
      ScansPart(d[1..], part, Grown(num, part, [d[0]]), rest);
      GrownTwice(num, part, d[0], d[1..]);
    }
  }

  lemma GrownNot(num: Number, part: Part)
    ensures Grown(num, part, "") == num
  {
  }

  lemma ScansPower(num: Number, part: Part, tail: string)
    requires WellFormed(num) && Stops(tail) && part != Power
    ensures ScanNumber(PowerText(num) + tail, part, num.(power := "", powerPositive := true)) == (num, |PowerText(num)|)
  {
    hide Digits, ScanNumber, Take, Turn, StopsNumber, Grown, Stops;
    var start := num.(power := "", powerPositive := true);
    if num.power == "" {
      assert PowerText(num) + tail == tail;
      ScanEnd(tail, part, start);
    } else {
      var sign, digits := if num.powerPositive then "" else "-", num.power + tail;
      var signed := start.(powerPositive := num.powerPositive);
      var t := PowerText(num) + tail;
      assert t[0] == 'e' && t[1..] == sign + digits;
      TurnsToPower(part, start);
      ScanStep(t, part, start);
      if !num.powerPositive {
        assert (sign + digits)[0] == '-' && (sign + digits)[1..] == digits;
        ScanStep(sign + digits, Power, start);
      } else {
        assert sign + digits == digits;
      }
      ScansPart(num.power, Power, signed, tail);
      ScanEnd(tail, Power, num);
      PowerGrown(num, signed);
    }
  }

  lemma TurnsToPower(part: Part, num: Number)
    ensures !StopsNumber('e') && !StopsNumber('-') && Turn(part, 'e') == Power && (part != Power ==> Take(num, part, 'e') == num)
    ensures Turn(Power, '-') == Power && Take(num, Power, '-') == num.(powerPositive := false)
  {
  }

  lemma PowerGrown(num: Number, signed: Number)
    requires signed == num.(power := "")
    ensures Grown(signed, Power, num.power) == num
  {
    assert "" + num.power == num.power;
  }

  lemma ScansFraction(num: Number, tail: string)
    requires WellFormed(num) && Stops(tail)
    ensures ScanNumber(FractionText(num) + tail, Integer, num.(after := "", power := "", powerPositive := true)) == (num, |FractionText(num)|)
  {
    hide Digits, PowerText, ScanNumber, Stops, Grown, Take, Turn, StopsNumber;
    var rest := PowerText(num) + tail;
    var start := num.(after := "", power := "", powerPositive := true);
    if num.after == "" {
      assert FractionText(num) + tail == rest;
      ScansPower(num, Integer, tail);
    } else {
      var t := FractionText(num) + tail;
      assert t[0] == '.' && t[1..] == num.after + rest;
      TurnsToFraction(start, num.after);
      ScanStep(t, Integer, start);
      ScansPart(num.after, Fraction, start, rest);
      ScansPower(num, Fraction, tail);
    }
  }

  lemma TurnsToFraction(num: Number, d: string)
    requires num.after == ""
    ensures !StopsNumber('.') && Turn(Integer, '.') == Fraction && Take(num, Integer, '.') == num
    ensures Grown(num, Fraction, d) == num.(after := d)
  {
    assert "" + d == d;
  }

  lemma FirstLook(num: Number, plus: bool, tail: string)
    requires WellFormed(num)
    ensures var t := NumberText(num, plus) + tail;
      var shown := !num.positive || plus;
      t != "" && !IsSpace(t[0]) && LookAt(t) == ScanNumeral
      && (shown ==> t[1..] == num.before + (FractionText(num) + tail) && FirstOf(t[0]) == Number(num.positive, "", "", true, ""))
      && (!shown ==> t[1..] == num.before[1..] + (FractionText(num) + tail) && FirstOf(t[0]) == Number(true, [num.before[0]], "", true, ""))
  {
    hide FractionText, IsStopWord, LookAtHash, LookAtDollar, LookAtAt;
    var t := NumberText(num, plus) + tail;
    assert num.before[0] in num.before;
    if !num.positive || plus {
      assert t[1..] == num.before + (FractionText(num) + tail) && t[1] == num.before[0];
    } else {
      assert t[1..] == num.before[1..] + (FractionText(num) + tail) && t[0] == num.before[0];
    }
  }

  /** The text of a number is one token, which has its parts. */
  lemma NumberIsRead(num: Number, plus: bool, tail: string)
    requires WellFormed(num) && Stops(tail)
    ensures NextToken(NumberText(num, plus) + tail) == (NumberLiteral(num), |NumberText(num, plus)|)
  {
    hide LookAt, FractionText, Digits, IsSpace, StopsNumber;
    var t, rest := NumberText(num, plus) + tail, FractionText(num) + tail;
    FirstLook(num, plus, tail);
    var digits := if !num.positive || plus then num.before else num.before[1..];
    DigitsLeft(num.before);
    ScansPart(digits, Integer, FirstOf(t[0]), rest);
    assert [num.before[0]] + num.before[1..] == num.before && "" + num.before == num.before;
    assert Grown(FirstOf(t[0]), Integer, digits) == num.(after := "", power := "", powerPositive := true);
    ScansFraction(num, tail);
  }

  lemma DigitsLeft(s: string)
    requires s != "" && Digits(s)
    ensures Digits(s[1..])
  {
  }

  /** A number is read as a fixnum if it has neither a minus sign nor a fraction nor a power, and as a
      floating-point number with its parts if it has. */
  lemma NumberMeans(num: Number, s: Stacks)
    requires WellFormed(num) && s.builders != []
    ensures Read(s, NumberLiteral(num)) ==
      (Finished, AddValue(s, if num.positive && num.after == "" && num.power == "" then Fixnum(Value10(num.before, 0, 0)) else Flonum(num)))
  {
    hide AddValue, Value10;
    assert num.before[0] in num.before;
  }

  // ---------- raw strings ----------

  /** What stands between single quotes is a string as it is, escapes and all. */
  lemma RawStringIsRead(d: string, tail: string, s: Stacks)
    requires '\'' !in d && s.builders != []
    ensures NextToken("'" + d + "'" + tail) == (RawStringLiteral(d), |d| + 2)
    ensures Read(s, RawStringLiteral(d)) == (Finished, AddValue(s, Str(d)))
  {
    hide AddValue;
    var t := "'" + d + "'" + tail;
    assert t[0] == '\'' && t[1..] == d + ['\''] + tail;
    ScansUpTo(d, '\'', tail);
    assert t[1..1 + |d|] == d;
    assert LookAt(t) == ScanRawString;
  }
}
