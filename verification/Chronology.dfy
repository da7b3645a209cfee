// Durations as text: the printer, the parser, and that they undo each other.
module Chronology {
  import opened Division
  import opened Wrappers

  datatype Error = InvalidArgument

  // The resolution of the platform's clock, and with it of a parsed duration.
  datatype Clock = Nanoseconds | Microseconds

  // ----- Numbers as text -----

  predicate IsDigit(c: char) { '0' <= c <= '9' }

  predicate AllDigits(s: string) { forall i :: 0 <= i < |s| ==> IsDigit(s[i]) }

  function Digit(v: nat): char
    requires v < 10
  {
    ('0' as int + v) as char
  }

  function Digits(n: nat): (s: string)
    ensures |s| > 0
  {
    if n < 10 then [Digit(n)] else Digits(n / 10) + [Digit(n % 10)]
  }

  lemma {:induction false} DigitsAreDigits(n: nat)
    ensures AllDigits(Digits(n))
  {
    if n >= 10 { DigitsAreDigits(n / 10); }
  }

  function Decimal(v: int): string { if v < 0 then "-" + Digits(-v) else Digits(v) }

  function DigitValue(c: char): nat { if IsDigit(c) then c as int - '0' as int else 0 }

  // The number that digits make; none make 0.
  function Number(s: string): nat {
    if |s| == 0 then 0 else 10 * Number(s[..|s| - 1]) + DigitValue(s[|s| - 1])
  }

  lemma NumberNext(s: string, c: char)
    ensures Number(s + [c]) == 10 * Number(s) + DigitValue(c)
  {
    assert (s + [c])[..|s|] == s;
  }

  lemma {:induction false} NumberOfDigits(n: nat)
    ensures Number(Digits(n)) == n
  {
    if n < 10 {
      NumberNext("", Digit(n));
      assert "" + [Digit(n)] == [Digit(n)];
    } else {
      NumberOfDigits(n / 10);
      NumberNext(Digits(n / 10), Digit(n % 10));
    }
  }

  function Power(i: nat): (p: nat)
    ensures p >= 1
  {
    if i == 0 then 1 else 10 * Power(i - 1)
  }

  lemma {:induction false} DigitOf(n: nat, i: nat)
    requires i < |Digits(n)|
    ensures Digits(n)[|Digits(n)| - 1 - i] == Digit(n / Power(i) % 10)
    decreases n
  {
    if n >= 10 && i > 0 {
      DigitOf(n / 10, i - 1);
      QuotientTwice(n, 10, Power(i - 1));
    }
  }

  lemma {:induction false} FirstDigit(n: nat)
    ensures n > 0 ==> Digits(n)[0] != '0'
  {
    if n >= 10 { FirstDigit(n / 10); }
  }

  lemma DigitIs(v: nat)
    requires v < 10
    ensures Digit(v) == "0123456789"[v]
  {
  }

  // Digit i, counted from the last one, stands for the multiples of 10 to the power of i; the
  // first is 0 only for the number 0.
  lemma DigitAt(n: nat, i: nat)
    requires i < |Digits(n)|
    ensures Digits(n)[|Digits(n)| - 1 - i] == "0123456789"[n / Power(i) % 10]
    ensures n > 0 ==> Digits(n)[0] != '0'
  {
    DigitOf(n, i);
    DigitIs(n / Power(i) % 10);
    FirstDigit(n);
  }

  // The powers that the first, second, fourth and seventh digit from the end stand for.
  lemma PowersOfTen()
    ensures Power(0) == 1 && Power(1) == 10 && Power(3) == 1_000 && Power(6) == 1_000_000
  {
    assert Power(2) == 100;
    assert Power(4) == 10_000;
  }

  // ----- Units, in nanoseconds -----

  const US: int := 1_000
  const MS: int := 1_000_000
  const S: int := 1_000_000_000
  const MIN: int := 60_000_000_000
  const H: int := 3_600_000_000_000
  const D: int := 86_400_000_000_000

  // The C++ operators on negative operands.
  function Div(a: int, b: int): int
    requires b > 0
  {
    if a >= 0 then a / b else -((-a) / b)
  }

  function Rem(a: int, b: int): int
    requires b > 0
  {
    if a >= 0 then a % b else -((-a) % b)
  }

  // ----- Printing -----

  datatype Amount = Amount(value: int, unit: string)

  // The duration cut into units, the largest first.
  function Amounts(d: int): (r: seq<Amount>)
    ensures |r| == 6
  {
    [Amount(Div(d, H), "h"), Amount(Div(Rem(d, H), MIN), "min"), Amount(Div(Rem(d, MIN), S), "s"),
     Amount(Div(Rem(d, S), MS), "ms"), Amount(Div(Rem(d, MS), US), "us"), Amount(Rem(d, US), "ns")]
  }

  function Shown(a: Amount): string { Decimal(a.value) + a.unit }

  // What is written when one amount more has been; nothing more for a zero.
  function After(before: string, a: Amount): string {
    if a.value == 0 then before else if before == "" then Shown(a) else before + " + " + Shown(a)
  }

  // The amounts that are not zero, with " + " between them.
  function Joined(amounts: seq<Amount>): string
    decreases |amounts|
  {
    if amounts == [] then "" else After(Joined(amounts[..|amounts| - 1]), amounts[|amounts| - 1])
  }

  function Printed(d: int): string { Joined(Amounts(d)) }

  // Writes one amount; tells whether a delimiter is needed from here on.
  method Stream(out: string, a: Amount, delimiter: bool) returns (written: string, needed: bool)
    requires delimiter <==> out != ""
    ensures written == After(out, a)
    ensures needed <==> written != ""
  {
    if a.value == 0 { return out, delimiter; }
    if delimiter { return out + " + " + Shown(a), true; }
    return out + Shown(a), true;
  }

  method ToString(d: int) returns (out: string)
    ensures out == Printed(d)
  {
    if d == 0 {
      JoinedZeros(Amounts(0));
      return "";
    }
    var delimiter: bool;
    out, delimiter := Stream("", Amount(Div(d, H), "h"), false);
    out, delimiter := Stream(out, Amount(Div(Rem(d, H), MIN), "min"), delimiter);
    out, delimiter := Stream(out, Amount(Div(Rem(d, MIN), S), "s"), delimiter);
    out, delimiter := Stream(out, Amount(Div(Rem(d, S), MS), "ms"), delimiter);
    out, delimiter := Stream(out, Amount(Div(Rem(d, MS), US), "us"), delimiter);
    out, delimiter := Stream(out, Amount(Rem(d, US), "ns"), delimiter);
    JoinedSix(Amounts(d));
  }

  lemma JoinedSix(a: seq<Amount>)
    requires |a| == 6
    ensures Joined(a) == After(After(After(After(After(After("", a[0]), a[1]), a[2]), a[3]), a[4]), a[5])
  {
    assert Joined(a) == After(Joined(a[..5]), a[5]);
    assert Joined(a[..5]) == After(Joined(a[..4]), a[4]) by { assert a[..5][..4] == a[..4]; }
    assert Joined(a[..4]) == After(Joined(a[..3]), a[3]) by { assert a[..4][..3] == a[..3]; }
    assert Joined(a[..3]) == After(Joined(a[..2]), a[2]) by { assert a[..3][..2] == a[..2]; }
    assert Joined(a[..2]) == After(Joined(a[..1]), a[1]) by { assert a[..2][..1] == a[..1]; }
    assert Joined(a[..1]) == After("", a[0]) by { assert a[..1][..0] == []; }
  }

  lemma {:induction false} JoinedZeros(amounts: seq<Amount>)
    requires forall i :: 0 <= i < |amounts| ==> amounts[i].value == 0
    ensures Joined(amounts) == ""
    decreases |amounts|
  {
    if amounts != [] { JoinedZeros(amounts[..|amounts| - 1]); }
  }

  // ----- Parsing -----

  function TrimLeft(s: string): (t: string)
    ensures |t| <= |s|
  {
    if |s| > 0 && s[0] == ' ' then TrimLeft(s[1..]) else s
  }

  function TrimRight(s: string): string
    decreases |s|
  {
    if |s| > 0 && s[|s| - 1] == ' ' then TrimRight(s[..|s| - 1]) else s
  }

  // How many of the first characters are digits.
  function Leading(s: string): (n: nat)
    ensures n <= |s|
  {
    if |s| == 0 || !IsDigit(s[0]) then 0 else 1 + Leading(s[1..])
  }

  // To the nearest duration the clock knows, to the even one of two.
  function Round(c: int, clock: Clock): int {
    match clock
    case Nanoseconds => c
    case Microseconds =>
      var q, r := c / US, c % US;
      if 2 * r < US || (2 * r == US && q % 2 == 0) then q * US else (q + 1) * US
  }

  function Scaled(count: nat, unit: string, clock: Clock): Result<int, Error>
  {
    if unit == "" || unit == "s" then Ok(count * S)
    else if unit == "us" then Ok(count * US)
    else if unit == "ms" then Ok(count * MS)
    else if unit == "min" then Ok(count * MIN)
    else if unit == "h" then Ok(count * H)
    else if unit == "d" then Ok(count * 24 * H)
    else if unit == "ns" then Ok(Round(count, clock))
    else Err(InvalidArgument)
  }

  // One part: a count, which may be left out, and a unit, which may be left out.
  function PartValue(part: string, clock: Clock): Result<int, Error>
  {
    var t := TrimRight(TrimLeft(part));
    var n := Leading(t);
    Scaled(Number(t[..n]), t[n..], clock)
  }

  function UntilPlus(s: string): (n: nat)
    ensures n <= |s|
  {
    if |s| == 0 || s[0] == '+' then 0 else 1 + UntilPlus(s[1..])
  }

  // The next part and what comes after its '+'.
  function NextRange(s: string): (r: (string, string))
    ensures |r.0| + |r.1| <= |s| && (|s| > 0 ==> |r.1| < |s|)
    ensures |s| == 0 ==> |r.0| == |r.1| == 0
  {
    var t := TrimLeft(s);
    var n := UntilPlus(t);
    (t[..n], if n < |t| then t[n + 1..] else "")
  }

  function Add(x: Result<int, Error>, y: Result<int, Error>): Result<int, Error> {
    if x.Err? then x else if y.Err? then y else Ok(x.value + y.value)
  }

  predicate Spent(r: (string, string)) { |r.0| == 0 && |r.1| == 0 }

  // The sum of what the parts are worth, up to where both the part and the rest are empty.
  function Summed(s: string, worth: string -> Result<int, Error>): Result<int, Error>
    decreases |s|
  {
    var r := NextRange(s);
    if Spent(r) then Ok(0) else Add(worth(r.0), Summed(r.1, worth))
  }

  function Worth(clock: Clock): string -> Result<int, Error> { (part: string) => PartValue(part, clock) }

  function Parsed(s: string, clock: Clock): Result<int, Error> { Summed(s, Worth(clock)) }

  lemma {:induction false} SummedMore(s: string, worth: string -> Result<int, Error>)
    requires !Spent(NextRange(s))
    ensures Summed(s, worth) == Add(worth(NextRange(s).0), Summed(NextRange(s).1, worth))
    ensures |s| > 0
  {
  }

  lemma AddNext(sum: int, value: Result<int, Error>, rest: Result<int, Error>)
    ensures Add(Ok(sum), Add(value, rest)) == if value.Err? then value else Add(Ok(sum + value.value), rest)
  {
  }

  // Adds up what the range adapter yields.
  method Accumulate(s: string, worth: string -> Result<int, Error>) returns (r: Result<int, Error>)
    ensures r == Summed(s, worth)
  {
    var range := NextRange(s);
    var sum := 0;
    ghost var tail := s;
    while !Spent(range)
      invariant range == NextRange(tail)
      invariant Summed(s, worth) == Add(Ok(sum), Summed(tail, worth))
      decreases |tail|
    {
      SummedMore(tail, worth);
      AddNext(sum, worth(range.0), Summed(range.1, worth));
      var value := worth(range.0);
      if value.Err? { return value; }
      sum := sum + value.value;
      tail := range.1;
      range := NextRange(range.1);
    }
    return Ok(sum);
  }

  method FromString(s: string, clock: Clock) returns (r: Result<int, Error>)
    ensures r == Parsed(s, clock)
  {
    r := Accumulate(s, Worth(clock));
  }

  // ----- Parsing a sum -----

  lemma {:induction false} UntilPlusOf(a: string, b: string)
    ensures UntilPlus(a + "+" + b) == UntilPlus(a)
  {
    if a == "" {
      assert (a + "+" + b)[0] == '+';
    } else if a[0] != '+' {
      assert (a + "+" + b)[1..] == a[1..] + "+" + b;
      UntilPlusOf(a[1..], b);
    }
  }

  lemma {:induction false} TrimLeftOf(a: string, b: string)
    ensures TrimLeft(a + "+" + b) == TrimLeft(a) + "+" + b
  {
    if a == "" {
      assert (a + "+" + b)[0] == '+';
    } else if a[0] == ' ' {
      assert (a + "+" + b)[1..] == a[1..] + "+" + b;
      TrimLeftOf(a[1..], b);
    }
  }

  // The next part of a text is the same when a '+' and more comes after the text; `more`
  // tells whether the text has a '+' of its own.
  lemma NextApart(a: string, b: string) returns (more: bool)
    ensures NextRange(a + "+" + b).0 == NextRange(a).0
    ensures NextRange(a + "+" + b).1 == if more then NextRange(a).1 + "+" + b else b
    ensures if more then |NextRange(a).1| < |a| else NextRange(a).1 == ""
  {
    var t := TrimLeft(a);
    var n := UntilPlus(t);
    TrimLeftOf(a, b);
    UntilPlusOf(t, b);
    var whole := t + "+" + b;
    assert whole[..n] == t[..n];
    more := n < |t|;
    if more {
      assert whole[n + 1..] == t[n + 1..] + "+" + b;
    } else {
      assert whole[n + 1..] == b;
    }
  }

  lemma SummedNext(s: string, worth: string -> Result<int, Error>, part: string, rest: string)
    requires worth("") == Ok(0) && part == NextRange(s).0 && rest == NextRange(s).1
    ensures Summed(s, worth) == Add(worth(part), Summed(rest, worth))
  {
    if Spent(NextRange(s)) { SummedNothing(rest, worth); }
  }

  lemma AddAssociates(x: Result<int, Error>, y: Result<int, Error>, z: Result<int, Error>)
    ensures Add(x, Add(y, z)) == Add(Add(x, y), z)
  {
  }

  // What stands left and right of a '+' can be summed apart, whatever it is, when an empty
  // part is worth nothing.
  lemma {:induction false} SummedApart(a: string, b: string, worth: string -> Result<int, Error>)
    requires worth("") == Ok(0)
    ensures Summed(a + "+" + b, worth) == Add(Summed(a, worth), Summed(b, worth))
    decreases |a|
  {
    var value, rest, tail, more := Unrolled(a, b, worth);
    if more {
      SummedApart(rest, b, worth);
    } else {
      SummedNothing(rest, worth);
    }
    AddAssociates(value, Summed(rest, worth), Summed(b, worth));
  }

  lemma Unrolled(a: string, b: string, worth: string -> Result<int, Error>)
    returns (value: Result<int, Error>, rest: string, tail: string, more: bool)
    requires worth("") == Ok(0)
    ensures if more then |rest| < |a| && tail == rest + "+" + b else |rest| == 0 && tail == b
    ensures Summed(a, worth) == Add(value, Summed(rest, worth))
    ensures Summed(a + "+" + b, worth) == Add(value, Summed(tail, worth))
  {
    more := NextApart(a, b);
    var part := NextRange(a).0;
    value, rest := worth(part), NextRange(a).1;
    tail := if more then rest + "+" + b else b;
    SummedNext(a, worth, part, rest);
    SummedNext(a + "+" + b, worth, part, tail);
  }

  lemma SummedNothing(s: string, worth: string -> Result<int, Error>)
    requires |s| == 0
    ensures Summed(s, worth) == Ok(0)
  {
  }

  lemma NothingIsZero(s: string, clock: Clock)
    requires s == ""
    ensures PartValue(s, clock) == Ok(0)
  {
    assert TrimLeft(s) == s && TrimRight(s) == s && Leading(s) == 0;
    assert s[..0] == "" && s[0..] == "";
    assert Number(s) == 0;
    assert Scaled(0, s, clock) == Ok(0);
  }

  // Any text, cut at any of its '+', parses to the sum of what its two sides parse to.
  lemma ParsedSum(a: string, b: string, clock: Clock)
    ensures Parsed(a + "+" + b, clock) == Add(Parsed(a, clock), Parsed(b, clock))
  {
    NothingIsZero("", clock);
    SummedApart(a, b, Worth(clock));
  }

  lemma SummedSkipsSpaces(s: string, worth: string -> Result<int, Error>)
    ensures Summed(" " + s, worth) == Summed(s, worth)
  {
    assert (" " + s)[1..] == s;
    assert NextRange(" " + s) == NextRange(s);
  }

  // ----- Parsing what was printed -----

  predicate IsUnit(unit: string) { unit in {"h", "min", "s", "ms", "us", "ns"} }

  lemma {:induction false} LeadingOf(digits: string, unit: string)
    requires AllDigits(digits) && unit != "" && !IsDigit(unit[0])
    ensures Leading(digits + unit) == |digits|
  {
    if digits != "" {
      assert (digits + unit)[1..] == digits[1..] + unit;
      LeadingOf(digits[1..], unit);
    }
  }

  lemma TrimRightOne(s: string)
    requires s != "" && s[|s| - 1] != ' '
    ensures TrimRight(s) == s && TrimRight(s + " ") == s
  {
    assert (s + " ")[..|s|] == s;
  }

  lemma {:induction false} NoPlus(s: string)
    requires '+' !in s
    ensures UntilPlus(s) == |s|
  {
    if s != "" { NoPlus(s[1..]); }
  }

  // Text that neither starts with a space nor holds a '+' is one part.
  lemma ParsedOnePart(text: string, clock: Clock)
    requires text != "" && text[0] != ' ' && '+' !in text
    ensures Parsed(text, clock) == Add(PartValue(text, clock), Ok(0))
  {
    NoPlus(text);
    assert NextRange(text) == (text, "") by { assert text[..|text|] == text; }
    SummedNothing("", Worth(clock));
  }

  lemma PartOf(digits: string, unit: string, space: string, clock: Clock)
    requires digits != "" && AllDigits(digits)
    requires unit != "" && !IsDigit(unit[0]) && unit[|unit| - 1] != ' ' && space in {"", " "}
    ensures PartValue(digits + unit + space, clock) == Scaled(Number(digits), unit, clock)
  {
    var shown := digits + unit;
    assert TrimLeft(shown + space) == shown + space by { assert IsDigit((shown + space)[0]); }
    assert TrimRight(shown + space) == shown by {
      TrimRightOne(shown);
      assert shown + "" == shown;
    }
    LeadingOf(digits, unit);
    assert shown[..|digits|] == digits && shown[|digits|..] == unit;
  }

  // A shown amount that is not negative, with or without the space before a " + ".
  lemma ParsedShown(value: nat, unit: string, space: string, clock: Clock)
    requires IsUnit(unit) && space in {"", " "}
    ensures Parsed(Shown(Amount(value, unit)) + space, clock) == Scaled(value, unit, clock)
  {
    var digits := Digits(value);
    NumberOfDigits(value);
    DigitsAreDigits(value);
    PartOf(digits, unit, space, clock);
    var text := digits + unit + space;
    assert text[0] == digits[0] && IsDigit(digits[0]);
    assert '+' !in unit && '+' !in space;
    ParsedOnePart(text, clock);
  }

  // What a count with a unit is worth, in nanoseconds; without one it is seconds.
  function Nanos(count: nat, unit: string): Option<int> {
    match unit
    case "ns" => Some(count)
    case "us" => Some(1_000 * count)
    case "ms" => Some(1_000_000 * count)
    case "s" => Some(1_000_000_000 * count)
    case "" => Some(1_000_000_000 * count)
    case "min" => Some(60_000_000_000 * count)
    case "h" => Some(3_600_000_000_000 * count)
    case "d" => Some(86_400_000_000_000 * count)
    case _ => None
  }

  // A count and any unit directly behind it; only nanoseconds can be rounded, and what is not
  // a unit is an error, also a unit with a space before it.
  lemma ParsedUnit(n: nat, unit: string, clock: Clock)
    requires unit != "" ==> !IsDigit(unit[0]) && unit[|unit| - 1] != ' ' && '+' !in unit
    ensures Parsed(Digits(n) + unit, clock)
         == if Nanos(n, unit).None? then Err(InvalidArgument)
            else Ok(if unit == "ns" then Round(n, clock) else Nanos(n, unit).value)
  {
    NumberOfDigits(n);
    DigitsAreDigits(n);
    ParsedCount(Digits(n), unit, clock);
    ScaledIs(n, unit, clock);
  }

  lemma ParsedCount(digits: string, unit: string, clock: Clock)
    requires digits != "" && AllDigits(digits)
    requires unit != "" ==> !IsDigit(unit[0]) && unit[|unit| - 1] != ' ' && '+' !in unit
    ensures Parsed(digits + unit, clock) == Scaled(Number(digits), unit, clock)
  {
    var text := digits + unit;
    assert text[0] == digits[0] && '+' !in text;
    ParsedOnePart(text, clock);
    if unit == "" {
      assert text == digits;
      CountAlone(digits, clock);
    } else {
      assert text + "" == text;
      PartOf(digits, unit, "", clock);
    }
  }

  lemma CountAlone(digits: string, clock: Clock)
    requires digits != "" && AllDigits(digits)
    ensures PartValue(digits, clock) == Scaled(Number(digits), "", clock)
  {
    TrimRightOne(digits);
    AllLeading(digits);
    assert digits[..|digits|] == digits;
  }

  lemma {:induction false} AllLeading(digits: string)
    requires AllDigits(digits)
    ensures Leading(digits) == |digits|
  {
    if digits != "" { AllLeading(digits[1..]); }
  }

  lemma ScaledIs(n: nat, unit: string, clock: Clock)
    ensures Scaled(n, unit, clock)
         == if Nanos(n, unit).None? then Err(InvalidArgument)
            else Ok(if unit == "ns" then Round(n, clock) else Nanos(n, unit).value)
  {
  }

  // A clock of nanoseconds rounds nothing; one of microseconds rounds to the nearest, and of
  // two that are as near to the even one.
  lemma RoundsToNearest(c: nat, clock: Clock)
    ensures clock == Nanoseconds ==> Round(c, clock) == c
    ensures clock == Microseconds ==>
      var r := Round(c, clock);
      r % 1_000 == 0 && -500 <= r - c <= 500 && (r - c in {-500, 500} ==> (r / 1_000) % 2 == 0)
  {
  }

  function Total(amounts: seq<Amount>, clock: Clock): Result<int, Error>
    requires forall i :: 0 <= i < |amounts| ==> amounts[i].value >= 0
    decreases |amounts|
  {
    if amounts == [] then Ok(0)
    else
      var n := |amounts| - 1;
      Add(Total(amounts[..n], clock), Scaled(amounts[n].value, amounts[n].unit, clock))
  }

  // A joined text without the amount it ends with, or with a space after it.
  lemma {:induction false} ParsedJoined(amounts: seq<Amount>, space: string, clock: Clock)
    requires space in {"", " "}
    requires forall i :: 0 <= i < |amounts| ==> amounts[i].value >= 0 && IsUnit(amounts[i].unit)
    ensures Parsed(Joined(amounts) + space, clock) == Total(amounts, clock)
    decreases |amounts|, 0
  {
    if amounts == [] {
      ParsedSpace(space, clock);
      assert Joined(amounts) + space == space;
    } else {
      var n := |amounts| - 1;
      var front, last := amounts[..n], amounts[n];
      if last.value == 0 {
        ParsedJoined(front, space, clock);
        TotalSkips(amounts, clock);
      } else {
        JoinedMore(Joined(front), last, front, space, clock);
      }
    }
  }

  lemma TotalSkips(amounts: seq<Amount>, clock: Clock)
    requires forall i :: 0 <= i < |amounts| ==> amounts[i].value >= 0
    requires amounts != [] && amounts[|amounts| - 1].value == 0 && IsUnit(amounts[|amounts| - 1].unit)
    ensures Total(amounts, clock) == Total(amounts[..|amounts| - 1], clock)
  {
    ScaledZero(amounts[|amounts| - 1].unit, clock);
  }

  lemma ParsedSpace(space: string, clock: Clock)
    requires space in {"", " "}
    ensures Parsed(space, clock) == Ok(0)
  {
    SummedNothing("", Worth(clock));
    SummedSkipsSpaces("", Worth(clock));
    assert " " + "" == " ";
  }

  lemma {:induction false} JoinedMore(before: string, last: Amount, amounts: seq<Amount>, space: string, clock: Clock)
    requires last.value > 0 && IsUnit(last.unit) && space in {"", " "}
    requires forall i :: 0 <= i < |amounts| ==> amounts[i].value >= 0 && IsUnit(amounts[i].unit)
    requires before == Joined(amounts)
    ensures Parsed(After(before, last) + space, clock)
         == Add(Total(amounts, clock), Scaled(last.value, last.unit, clock))
    decreases |amounts|, 1
  {
    ParsedShown(last.value, last.unit, space, clock);
    if before == "" {
      ParsedJoined(amounts, "", clock);
      assert before + "" == before;
    } else {
      ParsedJoined(amounts, " ", clock);
    }
    NothingIsZero("", clock);
    SummedAfter(before, Shown(last), space, Worth(clock));
  }

  // A text that is written after another, with a " + " between them unless there is none.
  lemma SummedAfter(before: string, shown: string, space: string, worth: string -> Result<int, Error>)
    requires worth("") == Ok(0)
    ensures var text := if before == "" then shown else before + " + " + shown;
            Summed(text + space, worth)
            == Add(Summed(if before == "" then before else before + " ", worth), Summed(shown + space, worth))
  {
    if before == "" {
      SummedNothing(before, worth);
    } else {
      assert before + " + " + shown + space == (before + " ") + "+" + (" " + (shown + space));
      SummedApart(before + " ", " " + (shown + space), worth);
      SummedSkipsSpaces(shown + space, worth);
    }
  }

  lemma ScaledZero(unit: string, clock: Clock)
    requires IsUnit(unit)
    ensures Scaled(0, unit, clock) == Ok(0)
  {
  }

  // The amounts of a duration that is not negative are not negative and add up to it.
  lemma AmountsAddUp(d: nat, a: seq<Amount>)
    requires a == Amounts(d)
    ensures forall i :: 0 <= i < 6 ==> a[i].value >= 0 && IsUnit(a[i].unit)
    ensures a[0].value * H + a[1].value * MIN + a[2].value * S + a[3].value * MS + a[4].value * US + a[5].value == d
    ensures a[5].value == d % US
  {
    assert d == (d / H) * H + d % H;
    MinutesLeft(d);
    SecondsLeft(d);
    MillisecondsLeft(d);
    MicrosecondsLeft(d);
  }

  // One step down each: what a larger unit leaves, cut by the next smaller.

  lemma MinutesLeft(d: nat)
    ensures (d % H) / MIN * MIN + d % MIN == d % H
  {
  }

  lemma SecondsLeft(d: nat)
    ensures (d % MIN) / S * S + d % S == d % MIN
  {
  }

  lemma MillisecondsLeft(d: nat)
    ensures (d % S) / MS * MS + d % MS == d % S
  {
  }

  lemma MicrosecondsLeft(d: nat)
    ensures (d % MS) / US * US + d % US == d % MS
  {
  }

  lemma TotalOf(d: nat, a: seq<Amount>, clock: Clock)
    requires a == Amounts(d) && forall i :: 0 <= i < |a| ==> a[i].value >= 0
    ensures Total(a, clock) == Ok(d - d % US + Round(d % US, clock))
  {
    AmountsAddUp(d, a);
    TotalSix(a, clock);
  }

  // Of a duration that is not negative, the text parses to the duration, with the
  // nanoseconds below a microsecond rounded to the resolution of the clock.
  lemma ParsedPrinted(d: nat, clock: Clock)
    ensures Parsed(Printed(d), clock) == Ok(d - d % US + Round(d % US, clock))
  {
    var a := Amounts(d);
    AmountsAddUp(d, a);
    TotalOf(d, a, clock);
    ParsedJoined(a, "", clock);
    assert Joined(a) + "" == Joined(a);
  }

  lemma TotalSix(a: seq<Amount>, clock: Clock)
    requires |a| == 6 && forall i :: 0 <= i < 6 ==> a[i].value >= 0
    requires a[0].unit == "h" && a[1].unit == "min" && a[2].unit == "s"
    requires a[3].unit == "ms" && a[4].unit == "us" && a[5].unit == "ns"
    ensures Total(a, clock) == Ok(a[0].value * H + a[1].value * MIN + a[2].value * S
                                  + a[3].value * MS + a[4].value * US + Round(a[5].value, clock))
  {
    assert a[..5][..4] == a[..4] && a[..4][..3] == a[..3] && a[..3][..2] == a[..2] && a[..2][..1] == a[..1];
    assert a[..1][..0] == [];
    assert Total(a[..1], clock) == Ok(a[0].value * H);
    assert Total(a[..2], clock) == Ok(a[0].value * H + a[1].value * MIN);
    assert Total(a[..3], clock) == Ok(a[0].value * H + a[1].value * MIN + a[2].value * S);
    assert Total(a[..4], clock) == Ok(Total(a[..3], clock).value + a[3].value * MS);
    assert Total(a[..5], clock) == Ok(Total(a[..4], clock).value + a[4].value * US);
  }

  // A negative duration prints as text that does not parse.
  lemma NegativeDoesNotParse(d: int, clock: Clock)
    requires d < 0
    ensures Parsed(Printed(d), clock).Err?
  {
    NegativePrinted(d);
    var text := Printed(d);
    var n := UntilPlus(text);
    assert TrimLeft(text) == text;
    var part := text[..n];
    TrimRightKeepsFirst(part);
    var t := TrimRight(part);
    assert Leading(t) == 0;
    assert t[0] == '-';
  }

  lemma {:induction false} TrimRightKeepsFirst(s: string)
    requires s != "" && s[0] != ' '
    ensures TrimRight(s) != "" && TrimRight(s)[0] == s[0]
    decreases |s|
  {
    if s[|s| - 1] == ' ' { TrimRightKeepsFirst(s[..|s| - 1]); }
  }

  lemma {:induction false} JoinedNegative(amounts: seq<Amount>)
    requires forall i :: 0 <= i < |amounts| ==> amounts[i].value <= 0
    ensures if (forall i :: 0 <= i < |amounts| ==> amounts[i].value == 0) then Joined(amounts) == ""
            else Joined(amounts) != "" && Joined(amounts)[0] == '-'
    decreases |amounts|
  {
    if amounts != [] {
      var n := |amounts| - 1;
      JoinedNegative(amounts[..n]);
      if Joined(amounts[..n]) == "" && amounts[n].value != 0 {
        assert Shown(amounts[n])[0] == '-';
      }
    }
  }

  lemma NegativePrinted(d: int)
    requires d < 0
    ensures Printed(d) != "" && Printed(d)[0] == '-'
  {
    var a, b := Amounts(d), Amounts(-d);
    AmountsNegated(d);
    AmountsAddUp(-d, b);
    JoinedNegative(a);
    assert exists i :: 0 <= i < 6 && a[i].value != 0;
  }

  lemma AmountsNegated(d: int)
    requires d < 0
    ensures var a, b := Amounts(d), Amounts(-d);
            && a[0].value == -b[0].value && a[1].value == -b[1].value && a[2].value == -b[2].value
            && a[3].value == -b[3].value && a[4].value == -b[4].value && a[5].value == -b[5].value
  {
  }

  lemma RoundExact(c: nat, clock: Clock)
    requires c < US
    ensures Round(c, clock) == c <==> clock == Nanoseconds || c == 0
  {
  }

  // A duration comes back from its text if and only if it is not negative and a whole number
  // of the clock's units.
  lemma RoundTrip(d: int, clock: Clock)
    ensures Parsed(Printed(d), clock) == Ok(d) <==> d >= 0 && (clock == Nanoseconds || d % US == 0)
  {
    if d < 0 {
      NegativeDoesNotParse(d, clock);
    } else {
      ParsedPrinted(d, clock);
      RoundExact(d % US, clock);
    }
  }

  lemma {:induction false} TrimLeftMore(s: string)
    ensures TrimLeft(s + " ") == if TrimLeft(s) == "" then "" else TrimLeft(s) + " "
  {
    if s == "" {
      assert s + " " == " " && " "[1..] == "";
    } else if s[0] == ' ' {
      assert (s + " ")[1..] == s[1..] + " ";
      TrimLeftMore(s[1..]);
    }
  }

  // Any number of spaces before and after a part make no difference, also to an empty one.
  lemma PartTrims(s: string, clock: Clock)
    ensures PartValue(" " + s, clock) == PartValue(s, clock) == PartValue(s + " ", clock)
  {
    assert (" " + s)[1..] == s;
    var t := TrimLeft(s);
    TrimLeftMore(s);
    assert (t + " ")[..|t|] == t;
  }

  // ----- What is printed -----

  // The parts of a text, with " + " between them.
  function Separated(parts: seq<string>): string {
    if parts == [] then "" else if |parts| == 1 then parts[0] else parts[0] + " + " + Separated(parts[1..])
  }

  // The amounts that are shown.
  function ShownParts(amounts: seq<Amount>): seq<string> {
    if amounts == [] then []
    else (if amounts[0].value == 0 then [] else [Shown(amounts[0])]) + ShownParts(amounts[1..])
  }

  lemma {:induction false} SeparatedMore(parts: seq<string>, last: string)
    requires parts != []
    ensures Separated(parts + [last]) == Separated(parts) + " + " + last
  {
    var more := parts + [last];
    assert more[1..] == parts[1..] + [last];
    if |parts| > 1 {
      SeparatedMore(parts[1..], last);
      assert Separated(more) == parts[0] + " + " + (Separated(parts[1..]) + " + " + last);
    } else {
      assert more[1..] == [last];
      assert Separated(more) == parts[0] + " + " + last;
    }
  }

  lemma {:induction false} ShownMore(amounts: seq<Amount>, last: Amount)
    ensures ShownParts(amounts + [last])
         == ShownParts(amounts) + if last.value == 0 then [] else [Shown(last)]
  {
    var more := amounts + [last];
    if amounts != [] {
      assert more[1..] == amounts[1..] + [last];
      ShownMore(amounts[1..], last);
    } else {
      assert more[1..] == [];
    }
  }

  lemma {:induction false} ShownNotEmpty(amounts: seq<Amount>)
    ensures Separated(ShownParts(amounts)) == "" <==> ShownParts(amounts) == []
  {
    if amounts != [] { ShownNotEmpty(amounts[1..]); }
  }

  lemma {:induction false} JoinedIsSeparated(amounts: seq<Amount>)
    ensures Joined(amounts) == Separated(ShownParts(amounts))
    decreases |amounts|
  {
    if amounts != [] {
      var n := |amounts| - 1;
      var front, last := amounts[..n], amounts[n];
      assert amounts == front + [last];
      JoinedIsSeparated(front);
      ShownMore(front, last);
      ShownNotEmpty(front);
      var shown := ShownParts(front);
      if last.value == 0 {
        assert shown + [] == shown;
      } else if shown == [] {
        assert shown + [Shown(last)] == [Shown(last)];
      } else {
        SeparatedMore(shown, Shown(last));
      }
    }
  }

  // The amounts of a clock: each unit has fewer than make up the next larger one.
  predicate Cut(d: nat, a: seq<Amount>) {
    && |a| == 6 && a[0].unit == "h" && a[1].unit == "min" && a[2].unit == "s"
    && a[3].unit == "ms" && a[4].unit == "us" && a[5].unit == "ns"
    && 0 <= a[0].value && 0 <= a[1].value < 60 && 0 <= a[2].value < 60
    && 0 <= a[3].value < 1_000 && 0 <= a[4].value < 1_000 && 0 <= a[5].value < 1_000
    && d == 3_600_000_000_000 * a[0].value + 60_000_000_000 * a[1].value + 1_000_000_000 * a[2].value
            + 1_000_000 * a[3].value + 1_000 * a[4].value + a[5].value
  }

  // There is one way to cut a duration, from the largest unit down to the smallest.
  lemma AmountsExactly(d: nat, a: seq<Amount>)
    ensures a == Amounts(d) <==> Cut(d, a)
  {
    AmountsAddUp(d, Amounts(d));
    assert Cut(d, Amounts(d));
    if Cut(d, a) { CutOnce(d, a, Amounts(d)); }
  }

  lemma CutOnce(d: nat, a: seq<Amount>, b: seq<Amount>)
    requires Cut(d, a) && Cut(d, b)
    ensures a == b
  {
    assert a[0].value == b[0].value;
    assert a[1].value == b[1].value;
    assert a[2].value == b[2].value;
    assert a[3].value == b[3].value;
    assert a[4].value == b[4].value;
    assert a[5].value == b[5].value;
  }

  // The text of a duration that is not negative: the amounts of its cut that are not zero. One
  // that is negative has a '-' at each of the amounts of its opposite.
  lemma PrintedExactly(d: nat, a: seq<Amount>)
    requires Cut(d, a)
    ensures Printed(d) == Separated(ShownParts(a))
    ensures d > 0 ==> Printed(0 - d) == Separated(ShownParts(Negated(a)))
  {
    AmountsExactly(d, a);
    PrintedIs(d, a);
    if d > 0 {
      NegatedAmounts(d, 0 - d, a);
      PrintedIs(0 - d, Negated(a));
    }
  }

  lemma PrintedIs(d: int, a: seq<Amount>)
    requires a == Amounts(d)
    ensures Printed(d) == Separated(ShownParts(a))
  {
    JoinedIsSeparated(a);
  }

  lemma NegatedAmounts(d: nat, e: int, a: seq<Amount>)
    requires d > 0 && e == 0 - d && a == Amounts(d)
    ensures Amounts(e) == Negated(a)
  {
    AmountsNegated(e);
    UnitsOf(d);
    UnitsOf(e);
    var b := Amounts(e);
    forall i | 0 <= i < 6 ensures b[i] == Negated(a)[i] {
    }
  }

  lemma UnitsOf(d: int)
    ensures var a := Amounts(d);
            && a[0].unit == "h" && a[1].unit == "min" && a[2].unit == "s"
            && a[3].unit == "ms" && a[4].unit == "us" && a[5].unit == "ns"
  {
  }

  function Negated(a: seq<Amount>): (b: seq<Amount>)
    ensures |b| == |a| && forall i :: 0 <= i < |a| ==> b[i] == Amount(-a[i].value, a[i].unit)
  {
    seq(|a|, i requires 0 <= i < |a| => Amount(-a[i].value, a[i].unit))
  }

  // An amount as it is shown: '-' if it is negative, the digits of its number, and its unit.
  lemma ShownIs(value: int, unit: string)
    ensures var shown := Shown(Amount(value, unit));
            if value < 0 then shown == "-" + Shown(Amount(-value, unit)) else shown == Digits(value) + unit
  {
    Associated("-", if value < 0 then Digits(-value) else "", unit);
  }

  lemma Associated(a: string, b: string, c: string)
    ensures a + b + c == a + (b + c)
  {
  }

  // Zero is the one duration whose text is empty.
  lemma EmptyIsZero(d: int)
    ensures Printed(d) == "" <==> d == 0
  {
    if d < 0 {
      NegativePrinted(d);
    } else if d == 0 {
      JoinedZeros(Amounts(0));
    } else {
      PositivePrinted(d, Printed(d));
    }
  }

  lemma PositivePrinted(d: nat, text: string)
    requires d > 0 && text == Printed(d)
    ensures text != ""
  {
    assert Parsed(text, Nanoseconds) == Ok(d) by { ParsedPrinted(d, Nanoseconds); }
    assert text == "" ==> Parsed(text, Nanoseconds) == Ok(0) by { ParsedSpace("", Nanoseconds); }
  }
}
