/** Configuration values and what the parsers share
    (src/runtime/docker/configuration.rs:487-502). */
module Json {
  import opened Machine
  import opened Wrappers

  datatype Number = Integer(value: int) | Float(literal: string)

  datatype Value =
    | Null
    | Bool(flag: bool)
    | Num(number: Number)
    | Text(text: string)
    | Array(items: seq<Value>)
    | Object(fields: map<string, Value>)

  /** What the JSON library decides: how it prints a number, an array or an
      object, and which texts are finite floating-point numbers. */
  datatype Library = Library(display: Value -> string, parseFloat: string -> Option<string>)

  function ScalarText(library: Library, value: Value): string {
    match value
    case Null => ""
    case Bool(flag) => if flag then "true" else "false"
    case Text(text) => text
    case _ => library.display(value)
  }

  function ReplacementForCurrent(replacement: Value, current: string): Option<Value> {
    if replacement.Object? then
      if current in replacement.fields then Some(replacement.fields[current]) else None
    else Some(replacement)
  }

  // ---- integers ----------------------------------------------------------------

  predicate Digits(s: string) {
    s != "" && forall i :: 0 <= i < |s| ==> '0' <= s[i] <= '9'
  }

  function DigitsValue(s: string): nat
    requires s == "" || Digits(s)
  {
    if s == "" then 0
    else
      DigitsValue(s[..|s| - 1]) * 10 + (s[|s| - 1] as nat - '0' as nat)
  }

  /** `parse` for a signed integer type, before its range is checked. */
  function ParseSigned(s: string): Option<int> {
    if Digits(s) then Some(DigitsValue(s))
    else if s != "" && s[0] == '+' && Digits(s[1..]) then Some(DigitsValue(s[1..]))
    else if s != "" && s[0] == '-' && Digits(s[1..]) then Some(0 - DigitsValue(s[1..]) as int)
    else None
  }

  /** `parse` for `u64` and, on 64-bit targets, `usize`. */
  function ParseUnsigned(s: string): (r: Option<nat>)
    ensures r.Some? ==> r.value <= U64_MAX
  {
    var unsigned := if s != "" && s[0] == '+' then s[1..] else s;
    if Digits(unsigned) && DigitsValue(unsigned) <= U64_MAX then Some(DigitsValue(unsigned)) else None
  }

  function Decimal(n: nat): (s: string)
    ensures Digits(s) && DigitsValue(s) == n
    decreases n
  {
    var digit := ['0' + (n % 10) as char];
    if n < 10 then digit
    else
      var s := Decimal(n / 10) + digit;
      assert s[..|s| - 1] == Decimal(n / 10);
      s
  }

  lemma DecimalParses(n: nat)
    requires n <= U64_MAX
    ensures ParseUnsigned(Decimal(n)) == Some(n)
  {}

  // ---- coercion ------------------------------------------------------------------

  /** `structured_value`: a text that reads as a number becomes that number. */
  function StructuredValue(library: Library, value: Value): Value {
    match value
    case Text(text) =>
      var signed := ParseSigned(text);
      if signed.Some? && I64_MIN <= signed.value <= I64_MAX then Num(Integer(signed.value))
      else if ParseUnsigned(text).Some? then Num(Integer(ParseUnsigned(text).value))
      else if library.parseFloat(text).Some? then Num(Float(library.parseFloat(text).value))
      else value
    case _ => value
  }

  // ---- which texts are numbers ---------------------------------------------------

  /** A text of an integer: a sign, any number of zeros, and the decimal digits. */
  ghost predicate Spells(s: string, n: int) {
    exists zeros: nat :: SpellsWith(s, n, zeros)
  }

  predicate SpellsWith(s: string, n: int, zeros: nat) {
    || (n >= 0 && (s == Padded(zeros, n) || s == ['+'] + Padded(zeros, n)))
    || (n <= 0 && s == ['-'] + Padded(zeros, 0 - n))
  }

  function Padded(zeros: nat, n: nat): string {
    if zeros == 0 then Decimal(n) else ['0'] + Padded(zeros - 1, n)
  }

  lemma {:induction false} PaddedValue(zeros: nat, n: nat)
    ensures Digits(Padded(zeros, n)) && DigitsValue(Padded(zeros, n)) == n
    decreases zeros
  {
    hide DigitsValue, Decimal;
    if zeros > 0 {
      PaddedValue(zeros - 1, n);
      LeadingZero(Padded(zeros - 1, n));
    }
  }

  lemma {:induction false} LeadingZero(s: string)
    requires Digits(s)
    ensures Digits(['0'] + s) && DigitsValue(['0'] + s) == DigitsValue(s)
    decreases |s|
  {
    var last := |s| - 1;
    assert (['0'] + s)[..last + 1] == ['0'] + s[..last];
    if last > 0 {
      LeadingZero(s[..last]);
    } else {
      assert ['0'] + s[..last] == ['0'] && ['0'][..0] == "";
    }
  }

  lemma {:induction false} DigitsArePadded(s: string) returns (zeros: nat)
    requires Digits(s)
    ensures s == Padded(zeros, DigitsValue(s))
    decreases |s|
  {
    var last := |s| - 1;
    var init, digit := s[..last], s[last];
    if init == "" {
      zeros := 0;
      assert s == [digit];
    } else if DigitsValue(init) == 0 {
      var more := DigitsArePadded(init);
      zeros := more + 1;
      assert s == init + [digit];
      ZeroDigit(more, digit);
    } else {
      zeros := DigitsArePadded(init);
      assert s == init + [digit];
      LastDigit(zeros, DigitsValue(init), digit);
    }
  }

  lemma {:induction false} ZeroDigit(zeros: nat, digit: char)
    requires '0' <= digit <= '9'
    ensures Padded(zeros, 0) + [digit] == Padded(zeros + 1, digit as nat - '0' as nat)
    decreases zeros
  {
    if zeros > 0 {
      ZeroDigit(zeros - 1, digit);
      assert Padded(zeros, 0) + [digit] == ['0'] + (Padded(zeros - 1, 0) + [digit]);
    }
  }

  lemma {:induction false} LastDigit(zeros: nat, n: nat, digit: char)
    requires '0' <= digit <= '9' && n > 0
    ensures Padded(zeros, n) + [digit] == Padded(zeros, n * 10 + (digit as nat - '0' as nat))
    decreases zeros
  {
    if zeros > 0 {
      LastDigit(zeros - 1, n, digit);
      assert Padded(zeros, n) + [digit] == ['0'] + (Padded(zeros - 1, n) + [digit]);
    }
  }

  /** Signed parsing finds exactly the integer that is spelled. */
  lemma {:induction false} ParsesIffSpelled(s: string, n: int)
    ensures ParseSigned(s) == Some(n) <==> Spells(s, n)
  {
    hide Spells, ParseSigned;
    if ParseSigned(s) == Some(n) { ParsedIsSpelled(s, n); }
    if Spells(s, n) { SpelledParses(s, n); }
  }

  lemma {:induction false} ParsedIsSpelled(s: string, n: int)
    requires ParseSigned(s) == Some(n)
    ensures Spells(s, n)
  {
    hide DigitsValue, Padded;
    var digits := if Digits(s) then s else s[1..];
    var zeros := DigitsArePadded(digits);
    assert !Digits(s) ==> s == [s[0]] + digits;
    assert SpellsWith(s, n, zeros);
  }

  lemma {:induction false} SpelledParses(s: string, n: int)
    requires Spells(s, n)
    ensures ParseSigned(s) == Some(n)
  {
    hide DigitsValue, Padded;
    var zeros: nat :| SpellsWith(s, n, zeros);
    var digits := Padded(zeros, if n >= 0 then n else 0 - n);
    PaddedValue(zeros, if n >= 0 then n else 0 - n);
    if s != digits {
      assert s[1..] == digits && (s[0] == '+' || s[0] == '-');
      assert !Digits(s);
    }
  }

  /** An index: a 64-bit unsigned integer without a minus sign. */
  ghost predicate IsIndex(s: string, n: nat) {
    s != "" && s[0] != '-' && Spells(s, n) && n <= 0xffff_ffff_ffff_ffff
  }

  lemma {:induction false} IndexIsParsed(s: string, n: nat)
    ensures ParseUnsigned(s) == Some(n) <==> IsIndex(s, n)
  {
    hide DigitsValue, Spells;
    ParsesIffSpelled(s, n);
    if Spells(s, n) { SpelledIsThere(s, n); }
  }

  lemma {:induction false} SpelledIsThere(s: string, n: int)
    requires Spells(s, n)
    ensures s != ""
  {
    ParsesIffSpelled(s, n);
  }

  /** A text becomes an integer exactly if it spells one that fits the signed or
      the unsigned 64-bit type. */
  lemma {:induction false} NumberIsRead(library: Library, s: string, n: int)
    ensures StructuredValue(library, Text(s)) == Num(Integer(n))
      <==> Spells(s, n) && -0x8000_0000_0000_0000 <= n <= 0xffff_ffff_ffff_ffff
  {
    hide DigitsValue, Spells;
    ParsesIffSpelled(s, n);
    var signed := ParseSigned(s);
    if signed.Some? { ParsesIffSpelled(s, signed.value); }
  }

  /** Every other text is a finite floating-point number or stays as it is, and
      what is no text stays as it is. */
  lemma {:induction false} OtherTextsAreKept(library: Library, s: string)
    requires forall n :: Spells(s, n) ==> !(-0x8000_0000_0000_0000 <= n <= 0xffff_ffff_ffff_ffff)
    ensures StructuredValue(library, Text(s))
      == match library.parseFloat(s) case Some(literal) => Num(Float(literal)) case None => Text(s)
  {
    hide DigitsValue, Spells;
    var signed := ParseSigned(s);
    if signed.Some? { ParsesIffSpelled(s, signed.value); }
  }

  /** A port that is replaced by its text stays a number. */
  lemma {:induction false} PortIsANumber(library: Library)
    ensures StructuredValue(library, Text("25565")) == Num(Integer(25565))
  {
    hide StructuredValue, Decimal;
    NextDigit(0, '2');
    NextDigit(2, '5');
    NextDigit(25, '5');
    NextDigit(255, '6');
    NextDigit(2556, '5');
    assert "25565" == (((['2'] + ['5']) + ['5']) + ['6']) + ['5'];
    assert SpellsWith("25565", 25565, 0);
    NumberIsRead(library, "25565", 25565);
  }

  lemma {:induction false} NextDigit(n: nat, digit: char)
    requires '0' <= digit <= '9'
    ensures Decimal(n * 10 + (digit as nat - '0' as nat)) == if n == 0 then [digit] else Decimal(n) + [digit]
  {}
}
