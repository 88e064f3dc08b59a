/** The texts the program builds and reads: std::to_string, "%03d", std::stoi and std::string::find. */
module Text {

  datatype Option<T> = None | Some(value: T)

  predicate IsDigit(c: char) {
    '0' <= c <= '9'
  }

  predicate AllDigits(s: string) {
    forall c :: c in s ==> IsDigit(c)
  }

  function Digit(d: nat): (c: char)
    requires d < 10
    ensures IsDigit(c) && c as int - '0' as int == d
  {
    ('0' as int + d) as char
  }

  /** std::to_string of a non-negative number. */
  function Decimal(n: nat): (s: string)
    ensures |s| >= 1 && AllDigits(s)
  {
    if n < 10 then [Digit(n)] else Decimal(n / 10) + [Digit(n % 10)]
  }

  /** "%03d" of a non-negative number. */
  function Pad3(n: nat): (s: string)
    ensures |s| >= 3 && AllDigits(s)
    ensures n < 1000 ==> |s| == 3
  {
    DecimalLength(n);
    if n < 10 then "00" + Decimal(n) else if n < 100 then "0" + Decimal(n) else Decimal(n)
  }

  /** "%02d" of a non-negative number. */
  function Pad2(n: nat): (s: string)
    ensures |s| >= 2 && AllDigits(s)
    ensures n < 100 ==> |s| == 2
  {
    DecimalLength(n);
    if n < 10 then "0" + Decimal(n) else Decimal(n)
  }

  lemma DecimalLength(n: nat)
    ensures |Decimal(n)| == 1 <==> n < 10
    ensures |Decimal(n)| <= 2 <==> n < 100
    ensures |Decimal(n)| <= 3 <==> n < 1000
  {
    if n >= 10 { assert |Decimal(n)| == |Decimal(n / 10)| + 1; }
    if n >= 100 { assert |Decimal(n / 10)| == |Decimal(n / 100)| + 1; }
    if n >= 1000 { assert |Decimal(n / 100)| == |Decimal(n / 1000)| + 1; }
  }

  /** The number that a text of digits denotes. */
  function Value(s: string): nat
    requires AllDigits(s)
  {
    if s == [] then 0
    else
      assert IsDigit(s[|s| - 1]);
      10 * Value(s[..|s| - 1]) + (s[|s| - 1] as int - '0' as int)
  }

  lemma {:induction false} ValueOfDecimal(n: nat)
    ensures Value(Decimal(n)) == n
  {
    if n >= 10 {
      ValueOfDecimal(n / 10);
      assert Decimal(n)[..|Decimal(n)| - 1] == Decimal(n / 10);
    }
  }

  /** A padded number is as long as its decimal text or the width, whichever is more. */
  lemma PaddedLength(n: nat)
    ensures |Pad3(n)| == (if n < 1000 then 3 else |Decimal(n)|) && |Pad2(n)| == (if n < 100 then 2 else |Decimal(n)|)
  {
  }

  lemma ValueOfPadded(n: nat)
    ensures Value(Pad3(n)) == n && Value(Pad2(n)) == n
  {
    ValueOfDecimal(n);
    LeadingZero(Decimal(n));
    LeadingZero("0" + Decimal(n));
    assert "00" + Decimal(n) == "0" + ("0" + Decimal(n));
  }

  lemma {:induction false} LeadingZero(s: string)
    requires AllDigits(s)
    ensures AllDigits("0" + s) && Value("0" + s) == Value(s)
  {
    assert AllDigits("0" + s);
    if s == [] {
      assert "0" + s == "0";
    } else {
      assert ("0" + s)[..|s|] == "0" + s[..|s| - 1];
      LeadingZero(s[..|s| - 1]);
    }
  }

  /** How many digits a text begins with. */
  function DigitRun(s: string): (n: nat)
    ensures n <= |s| && AllDigits(s[..n]) && (n < |s| ==> !IsDigit(s[n]))
  {
    if s == [] || !IsDigit(s[0]) then 0
    else
      assert s[..1 + DigitRun(s[1..])] == [s[0]] + s[1..][..DigitRun(s[1..])];
      1 + DigitRun(s[1..])
  }

  /** std::stoi: the number the text begins with; None where it throws because there is none. Leading blanks
      and signs never occur in the program's texts and are not modelled. */
  function Stoi(s: string): Option<nat> {
    if DigitRun(s) == 0 then None else Some(Value(s[..DigitRun(s)]))
  }

  lemma StoiNoneIff(s: string)
    ensures Stoi(s).None? <==> s == "" || !IsDigit(s[0])
  {
  }

  lemma {:induction false} StoiDigits(d: string, rest: string)
    requires AllDigits(d) && d != [] && (rest != [] ==> !IsDigit(rest[0]))
    ensures Stoi(d + rest) == Some(Value(d))
  {
    RunOf(d, rest);
    assert (d + rest)[..|d|] == d;
  }

  lemma {:induction false} RunOf(d: string, rest: string)
    requires AllDigits(d) && (rest != [] ==> !IsDigit(rest[0]))
    ensures DigitRun(d + rest) == |d|
  {
    if d == [] {
      assert d + rest == rest;
    } else {
      assert (d + rest)[1..] == d[1..] + rest;
      RunOf(d[1..], rest);
    }
  }

  lemma StoiExact(d: string)
    requires AllDigits(d) && d != []
    ensures Stoi(d) == Some(Value(d))
  {
    StoiDigits(d, "");
    assert d + "" == d;
  }

  /** std::string::find of a character from a position on; None for npos. */
  function Find(s: string, c: char, from: nat): (r: Option<nat>)
    ensures r.Some? ==> from <= r.value < |s| && s[r.value] == c && c !in s[from..r.value]
    ensures r.None? ==> from > |s| || c !in s[from..]
    decreases |s| - from
  {
    if from >= |s| then None
    else if s[from] == c then Some(from)
    else
      var r := Find(s, c, from + 1);
      assert r.Some? ==> s[from..r.value] == [s[from]] + s[from + 1..r.value];
      assert r.None? ==> s[from..] == [s[from]] + s[from + 1..];
      r
  }

  /** std::string::rfind of a character. */
  function RFind(s: string, c: char): (r: Option<nat>)
    ensures r.Some? ==> r.value < |s| && s[r.value] == c && c !in s[r.value + 1..]
    ensures r.None? ==> c !in s
  {
    if s == [] then None
    else if s[|s| - 1] == c then Some(|s| - 1)
    else
      var r := RFind(s[..|s| - 1], c);
      assert s == s[..|s| - 1] + [s[|s| - 1]];
      assert r.Some? ==> s[r.value + 1..] == s[..|s| - 1][r.value + 1..] + [s[|s| - 1]];
      r
  }

  lemma {:induction false} FindAt(s: string, c: char, from: nat, i: nat)
    requires from <= i < |s| && s[i] == c && c !in s[from..i]
    ensures Find(s, c, from) == Some(i)
    decreases i - from
  {
    if from < i {
      assert s[from..i] == [s[from]] + s[from + 1..i];
      FindAt(s, c, from + 1, i);
    }
  }

  lemma {:induction false} FindNone(s: string, c: char, from: nat)
    requires from <= |s| && c !in s[from..]
    ensures Find(s, c, from) == None
    decreases |s| - from
  {
    if from < |s| {
      assert s[from..] == [s[from]] + s[from + 1..];
      FindNone(s, c, from + 1);
    }
  }
}
