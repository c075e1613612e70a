/** Decimal defaults as validation reads them (strconv.ParseInt with base 10)
    and as the template engine reads the same text pasted as a constant
    (strconv.ParseInt with base 0: a leading zero means octal). */
module Numbers {
  import opened Template
  import opened Text

  function DigitValue(c: char): nat {
    if Digit(c) then c as int - '0' as int else 0
  }

  /** The value of a run of digits. */
  function InBase(digits: string, base: nat): nat {
    if digits == "" then 0 else InBase(digits[..|digits| - 1], base) * base + DigitValue(digits[|digits| - 1])
  }

  predicate AllDigits(s: string) {
    s != "" && forall c :: c in s ==> Digit(c)
  }

  predicate Octal(s: string) {
    forall c :: c in s ==> '0' <= c <= '7'
  }

  /** The text without its sign. */
  function Magnitude(s: string): string {
    if s != "" && (s[0] == '-' || s[0] == '+') then s[1..] else s
  }

  function Signed(s: string, n: nat): int {
    if s != "" && s[0] == '-' then -(n as int) else n
  }

  predicate Int64(i: int) {
    -0x8000_0000_0000_0000 <= i < 0x8000_0000_0000_0000
  }

  /** strconv.ParseInt(s, 10, 64). */
  function ParseInt(s: string): Option<int> {
    var t := Magnitude(s);
    if AllDigits(t) && Int64(Signed(s, InBase(t, 10))) then Some(Signed(s, InBase(t, 10))) else None
  }

  predicate LeadingZero(t: string) {
    |t| > 1 && t[0] == '0'
  }

  /** The same digits as a template constant; None where the engine refuses them. */
  function TemplateInt(s: string): Option<int> {
    var t := Magnitude(s);
    if !AllDigits(t) || (LeadingZero(t) && !Octal(t)) then None
    else
      var n := Signed(s, InBase(t, if LeadingZero(t) then 8 else 10));
      if Int64(n) then Some(n) else None
  }

  lemma {:induction false} OctalLess(t: string)
    requires Octal(t)
    ensures InBase(t, 8) <= InBase(t, 10)
    ensures InBase(t, 8) == InBase(t, 10) <==> InBase(t, 10) < 8
  {
    if t != "" {
      var front, last := t[..|t| - 1], t[|t| - 1];
      assert t == front + [last];
      assert last in t && forall c :: c in front ==> c in t;
      OctalLess(front);
      assert '0' <= last <= '7' && DigitValue(last) < 8;
    }
  }

  lemma {:induction false} SmallOctal(t: string)
    requires AllDigits(t) && InBase(t, 10) < 8
    ensures Octal(t)
  {
    var front, last := t[..|t| - 1], t[|t| - 1];
    assert t == front + [last];
    assert last in t && forall c :: c in front ==> c in t;
    if front != "" {
      SmallOctal(front);
    }
  }

  /** A default reads back as what it declares. */
  predicate ReadsBack(s: string) {
    LeadingZero(Magnitude(s)) ==> InBase(Magnitude(s), 10) < 8
  }

  /** Of a validated integer default the template reads the declared number
      exactly when it has no leading zero or is less than eight. */
  lemma IntegerReadsBack(s: string)
    requires ParseInt(s).Some?
    ensures TemplateInt(s) == ParseInt(s) <==> ReadsBack(s)
    ensures TemplateInt(s).None? <==> LeadingZero(Magnitude(s)) && !Octal(Magnitude(s))
  {
    var t := Magnitude(s);
    if LeadingZero(t) {
      if Octal(t) {
        OctalLess(t);
      } else if InBase(t, 10) < 8 {
        SmallOctal(t);
      }
    }
  }

  // ----- numbers with a point or an exponent -----

  /** Such a text is a floating-point number to both readers. */
  predicate Marked(s: string) {
    exists c :: c in s && c in ".eEpP"
  }

  /** What the engine reads; float says what a marked text is as a number. */
  function Constant(s: string, float: string -> real): Option<real> {
    if Marked(s) then Some(float(s))
    else
      var i := TemplateInt(s);
      if i.None? then None else Some(i.value as real)
  }

  /** What the blueprint declares. */
  function DeclaredNumber(s: string, float: string -> real): Option<real> {
    if Marked(s) then Some(float(s))
    else if AllDigits(Magnitude(s)) then Some(Signed(s, InBase(Magnitude(s), 10)) as real)
    else None
  }

  /** A caller's check: no leading zero unless less than eight, and no more
      than 64 bits without a point. */
  predicate Faithful(s: string) {
    Marked(s) || (ReadsBack(s) && ParseInt(s).Some?)
  }

  /** Of an accepted default the template reads the declared number exactly when
      the text is faithful. */
  lemma ConstantDeclared(s: string, float: string -> real)
    requires DeclaredNumber(s, float).Some?
    ensures Constant(s, float) == DeclaredNumber(s, float) <==> Faithful(s)
  {
    if !Marked(s) {
      if ParseInt(s).Some? {
        IntegerReadsBack(s);
        assert TemplateInt(s).Some? && TemplateInt(s).value as real == ParseInt(s).value as real ==>
            TemplateInt(s) == ParseInt(s);
      } else {
        LargeRefused(s);
      }
    }
  }

  /** A number of more than 64 bits never reads back: not even as octal. */
  lemma LargeRefused(s: string)
    requires AllDigits(Magnitude(s)) && ParseInt(s).None?
    ensures TemplateInt(s).Some? ==> TemplateInt(s).value != Signed(s, InBase(Magnitude(s), 10))
  {
  }

  /** "010" is a valid integer default that reads as eight, "08" one that no
      template can hold. */
  lemma LeadingZeros()
    ensures ParseInt("010") == Some(10) && TemplateInt("010") == Some(8) && !ReadsBack("010")
    ensures ParseInt("08") == Some(8) && TemplateInt("08") == None
  {
    var s, t := "010", "08";
    assert Magnitude(s) == s && Magnitude(t) == t;
    assert s[..2] == "01" && s[..2][..1] == "0" && s[..2][..1][..0] == "" && t[..1] == "0" && t[..1][..0] == "";
    assert InBase("0", 10) == 0 && InBase("0", 8) == 0;
    assert InBase("01", 10) == 1 && InBase("01", 8) == 1;
    assert InBase(s, 10) == 10 && InBase(s, 8) == 8 && InBase(t, 10) == 8;
    assert AllDigits(s) && AllDigits(t) && Octal(s);
    assert t[1] == '8' && t[1] in t;
  }
}
