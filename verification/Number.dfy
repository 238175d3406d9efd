/** Decimal numbers: `atoi`, `std::stoll`, and printing. */
module Number {
  import opened Text
  import opened Machine

  predicate IsSpace(c: char) {
    c == ' ' || ('\t' <= c <= '\r')
  }

  predicate IsDigit(c: char) {
    '0' <= c <= '9'
  }

  function SkipSpaces(s: string): string {
    if s != "" && IsSpace(s[0]) then SkipSpaces(s[1..]) else s
  }

  function LeadingDigits(s: string): (digits: string)
    ensures forall c :: c in digits ==> IsDigit(c)
    ensures digits <= s && (|digits| == |s| || !IsDigit(s[|digits|]))
  {
    if s != "" && IsDigit(s[0]) then [s[0]] + LeadingDigits(s[1..]) else ""
  }

  function Decimal(digits: string): (n: int)
    requires forall c :: c in digits ==> IsDigit(c)
    ensures n >= 0
  {
    if digits == "" then 0
    else
      var last := digits[|digits| - 1];
      assert IsDigit(last);
      10 * Decimal(digits[..|digits| - 1]) + (last as int - '0' as int)
  }

  /** The number at the start of a text, after blanks and with a sign, whatever follows; `None` when
      there is no digit. */
  function Leading(s: string): Option<int> {
    var t := SkipSpaces(s);
    var signed := t != "" && (t[0] == '-' || t[0] == '+');
    var digits := LeadingDigits(if signed then t[1..] else t);
    var n := if signed && t[0] == '-' then -Decimal(digits) else Decimal(digits);
    if digits == "" then None else Some(n)
  }

  /** `None` when the value does not fit an `int`: `atoi` is undefined there. */
  function Atoi(s: string): (r: Option<int>)
    ensures r.Some? ==> IsInt32(r.value)
  {
    var n := Leading(s);
    if n.None? then Some(0) else if IsInt32(n.value) then n else None
  }

  /** `None` when `std::stoll` throws: there is no digit, or the value does not fit 64 bits. */
  function Stoll(s: string): (r: Option<int>)
    ensures r.Some? ==> IsInt64(r.value)
  {
    var n := Leading(s);
    if n.Some? && IsInt64(n.value) then n else None
  }

  function Digits(n: nat): string {
    if n < 10 then ['0' + n as char] else Digits(n / 10) + ['0' + (n % 10) as char]
  }

  function PrintInt(n: int): string {
    if n < 0 then "-" + Digits(-n) else Digits(n)
  }

  lemma {:induction false} DigitsDecimal(n: nat)
    ensures Digits(n) != "" && forall c :: c in Digits(n) ==> IsDigit(c)
    ensures Decimal(Digits(n)) == n
  {
    var last := '0' + (n % 10) as char;
    if n < 10 {
      assert Digits(n)[..0] == "";
    } else {
      DigitsDecimal(n / 10);
      assert Digits(n)[..|Digits(n)| - 1] == Digits(n / 10);
    }
  }

  lemma DigitsLead(digits: string, rest: string)
    requires forall c :: c in digits ==> IsDigit(c)
    requires rest == "" || !IsDigit(rest[0])
    ensures LeadingDigits(digits + rest) == digits
  {
    var s := digits + rest;
    var lead := LeadingDigits(s);
    assert forall k :: 0 <= k < |digits| ==> s[k] == digits[k] && digits[k] in digits;
    assert rest != "" ==> s[|digits|] == rest[0];
    assert lead == s[..|lead|];
  }

  /** A printed number is read back from in front of anything but a digit. */
  lemma LeadingOfPrint(n: int, rest: string)
    requires rest == "" || !IsDigit(rest[0])
    ensures Leading(PrintInt(n) + rest) == Some(n)
  {
    hide Decimal, Digits, LeadingDigits;
    var digits := Digits(if n < 0 then -n else n);
    DigitsDecimal(if n < 0 then -n else n);
    DigitsLead(digits, rest);
    var t := PrintInt(n) + rest;
    assert digits[0] in digits;
    assert SkipSpaces(t) == t by {
      assert !IsSpace(t[0]);
    }
    if n < 0 {
      assert t[1..] == digits + rest;
    }
  }

  lemma {:induction false} SpacesSkipped(blanks: string, rest: string)
    requires (forall c :: c in blanks ==> IsSpace(c)) && (rest == "" || !IsSpace(rest[0]))
    ensures SkipSpaces(blanks + rest) == rest
  {
    if blanks == "" {
      assert blanks + rest == rest;
    } else {
      assert blanks[0] in blanks && (blanks + rest)[1..] == blanks[1..] + rest;
      SpacesSkipped(blanks[1..], rest);
    }
  }

  predicate Sign(sign: string) {
    sign == "" || sign == "-" || sign == "+"
  }

  /** `atoi` makes 0 of a text without a number. */
  lemma AtoiOfNone(s: string)
    ensures Leading(s).None? ==> Atoi(s) == Some(0) && Stoll(s) == None
  {
  }

  /** Blanks, an optional sign and digits make a number, whatever follows; without digits there is none. */
  lemma LeadingOf(blanks: string, sign: string, digits: string, rest: string)
    requires (forall c :: c in blanks ==> c == ' ' || '\t' <= c <= '\r') && Sign(sign)
    requires (forall c :: c in digits ==> '0' <= c <= '9') && (rest == "" || !('0' <= rest[0] <= '9'))
    requires digits == "" ==> sign != "" || rest == "" || (rest[0] !in " -+" && !('\t' <= rest[0] <= '\r'))
    ensures Leading(blanks + (sign + (digits + rest))) ==
            if digits == "" then None else Some(if sign == "-" then -Decimal(digits) else Decimal(digits))
    ensures digits == "" ==> Atoi(blanks + (sign + (digits + rest))) == Some(0)
                             && Stoll(blanks + (sign + (digits + rest))) == None
  {
    hide Decimal, LeadingDigits, SkipSpaces, Atoi, Stoll;
    AtoiOfNone(blanks + (sign + (digits + rest)));
    var t := sign + (digits + rest);
    assert digits != "" ==> digits[0] in digits;
    assert sign == "" && digits != "" ==> t[0] == digits[0];
    assert sign == "" && digits == "" ==> t == rest;
    SpacesSkipped(blanks, t);
    DigitsLead(digits, rest);
    assert sign != "" ==> t[1..] == digits + rest;
    assert sign == "" ==> t == digits + rest;
  }

  /** Numbers survive printing and `atoi` exactly when they fit 32 bits. */
  lemma AtoiOfPrint(n: int)
    ensures Atoi(PrintInt(n)) == if IsInt32(n) then Some(n) else None
  {
    hide Leading, PrintInt;
    LeadingOfPrint(n, "");
    assert PrintInt(n) + "" == PrintInt(n);
  }

  /** Cutting off digits always makes a smaller number. */
  lemma {:induction false} FewerDigits(digits: string, k: nat)
    requires (forall c :: c in digits ==> IsDigit(c)) && k <= |digits|
    ensures Decimal(digits[..k]) <= Decimal(digits)
    ensures k < |digits| && Decimal(digits) > 0 ==> Decimal(digits[..k]) < Decimal(digits)
    decreases |digits|
  {
    if k == |digits| {
      assert digits[..k] == digits;
    } else {
      var init, last := digits[..|digits| - 1], digits[|digits| - 1];
      assert last in digits;
      FewerDigits(init, k);
      assert init[..k] == digits[..k];
    }
  }
}
