/** A JSON value decoder (RFC 8259, sections 3 to 7, with the NaN and Infinity spellings Python
    adds), and the proof that it satisfies everything the record scanner asks of its decoder. */
module JsonDecoder {
  import opened Json
  import opened Records

  datatype Parsed<+T> = Good(value: T, end: nat) | Bad(unterminated: bool, at: nat)

  // ---------------------------------------------------------------------------------------------
  // Tokens
  // ---------------------------------------------------------------------------------------------

  predicate IsDigit(c: char) {
    '0' <= c <= '9'
  }

  function SkipBlanks(s: string, p: nat): (q: nat)
    requires p <= |s|
    ensures p <= q <= |s|
    decreases |s| - p
  {
    if p < |s| && IsSpace(s[p]) then SkipBlanks(s, p + 1) else p
  }

  function SkipDigits(s: string, p: nat): (q: nat)
    requires p <= |s|
    ensures p <= q <= |s|
    decreases |s| - p
  {
    if p < |s| && IsDigit(s[p]) then SkipDigits(s, p + 1) else p
  }

  predicate SpelledAt(s: string, p: nat, word: string) {
    p + |word| <= |s| && s[p..p + |word|] == word
  }

  function FractionEnd(s: string, p: nat): (q: nat)
    requires p <= |s|
    ensures p <= q <= |s|
  {
    if p + 1 < |s| && s[p] == '.' && IsDigit(s[p + 1]) then SkipDigits(s, p + 2) else p
  }

  function ExponentEnd(s: string, p: nat): (q: nat)
    requires p <= |s|
    ensures p <= q <= |s|
  {
    if p + 1 < |s| && (s[p] == 'e' || s[p] == 'E') && IsDigit(s[p + 1]) then SkipDigits(s, p + 2)
    else if p + 2 < |s| && (s[p] == 'e' || s[p] == 'E') && (s[p + 1] == '+' || s[p + 1] == '-') && IsDigit(s[p + 2])
      then SkipDigits(s, p + 3)
    else p
  }

  predicate NumberStarts(s: string, p: nat) {
    || (p < |s| && IsDigit(s[p]))
    || (p + 1 < |s| && s[p] == '-' && IsDigit(s[p + 1]))
  }

  function IntegerEnd(s: string, p: nat): (q: nat)
    requires NumberStarts(s, p)
    ensures p < q <= |s|
  {
    var first := if s[p] == '-' then p + 1 else p;
    if s[first] == '0' then first + 1 else SkipDigits(s, first + 1)
  }

  /** Where the longest number starting at `p` ends. */
  function NumberEnd(s: string, p: nat): (q: nat)
    requires NumberStarts(s, p)
    ensures p < q <= |s|
  {
    ExponentEnd(s, FractionEnd(s, IntegerEnd(s, p)))
  }

  function DigitsValue(s: string, p: nat, end: nat): nat
    requires p <= end <= |s|
  {
    if p == end then 0
    else 10 * DigitsValue(s, p, end - 1) + (if IsDigit(s[end - 1]) then s[end - 1] as int - '0' as int else 0)
  }

  function Power10(n: nat): real {
    if n == 0 then 1.0 else 10.0 * Power10(n - 1)
  }

  lemma {:induction false} Power10Positive(n: nat)
    ensures Power10(n) > 0.0
  {
    if n > 0 {
      Power10Positive(n - 1);
    }
  }

  function Scaled(mantissa: real, exponent: int): real {
    Power10Positive(if exponent < 0 then -exponent else 0);
    if exponent >= 0 then mantissa * Power10(exponent) else mantissa / Power10(-exponent)
  }

  /** The value of a lexeme `NumberEnd` accepted. */
  function NumberValue(s: string): real
    requires NumberStarts(s, 0)
  {
    var first := if s[0] == '-' then 1 else 0;
    var i := IntegerEnd(s, 0);
    var f := FractionEnd(s, i);
    var whole := DigitsValue(s, first, i);
    var fraction := if f > i then Scaled(DigitsValue(s, i + 1, f) as real, -(f - i - 1)) else 0.0;
    var exponent :=
      if f + 1 < |s| then
        var digits: int := DigitsValue(s, f + 1, |s|);
        if s[f + 1] == '-' then -digits else digits
      else 0;
    var magnitude := Scaled(whole as real + fraction, exponent);
    if first == 1 then -magnitude else magnitude
  }

  type CodeUnit = u: int | 0 <= u < 0x11_0000

  function HexDigit(c: char): (v: int)
    ensures -1 <= v < 16
  {
    if '0' <= c <= '9' then c as int - '0' as int
    else if 'a' <= c <= 'f' then c as int - 'a' as int + 10
    else if 'A' <= c <= 'F' then c as int - 'A' as int + 10
    else -1
  }

  predicate HexAt(s: string, p: nat) {
    p + 4 <= |s| && HexDigit(s[p]) >= 0 && HexDigit(s[p + 1]) >= 0 && HexDigit(s[p + 2]) >= 0 && HexDigit(s[p + 3]) >= 0
  }

  function HexValue(s: string, p: nat): CodeUnit
    requires HexAt(s, p)
  {
    0x1000 * HexDigit(s[p]) + 0x100 * HexDigit(s[p + 1]) + 0x10 * HexDigit(s[p + 2]) + HexDigit(s[p + 3])
  }

  /** The character a one-letter escape stands for, or -1. */
  function Escaped(c: char): (u: int)
    ensures -1 <= u < 0x80
  {
    match c
    case '"' => 0x22
    case '\\' => 0x5C
    case '/' => 0x2F
    case 'b' => 0x08
    case 'f' => 0x0C
    case 'n' => 0x0A
    case 'r' => 0x0D
    case 't' => 0x09
    case _ => -1
  }

  /** The code units of a string whose opening quote is at `begin`, read from `p`. */
  function ScanUnits(s: string, p: nat, begin: nat): (r: Parsed<seq<CodeUnit>>)
    ensures r.Good? ==> p < r.end <= |s|
    ensures r.Bad? && !r.unterminated ==> p <= r.at
    decreases |s| - p
  {
    if p >= |s| then Bad(true, begin)
    else if s[p] == '"' then Good([], p + 1)
    else if s[p] == '\\' then
      if p + 1 >= |s| then Bad(true, begin)
      else if s[p + 1] == 'u' then
        if !HexAt(s, p + 2) then Bad(false, p + 1)
        else Prepend(HexValue(s, p + 2), ScanUnits(s, p + 6, begin))
      else if Escaped(s[p + 1]) < 0 then Bad(false, p + 1)
      else Prepend(Escaped(s[p + 1]), ScanUnits(s, p + 2, begin))
    else if s[p] < ' ' then Bad(false, p)
    else Prepend(s[p] as CodeUnit, ScanUnits(s, p + 1, begin))
  }

  function Prepend<T>(head: T, tail: Parsed<seq<T>>): Parsed<seq<T>> {
    match tail
    case Good(v, e) => Good([head] + v, e)
    case Bad(u, a) => Bad(u, a)
  }

  predicate IsHigh(u: CodeUnit) {
    0xD800 <= u < 0xDC00
  }

  predicate IsLow(u: CodeUnit) {
    0xDC00 <= u < 0xE000
  }

  /** Surrogate pairs joined; an unpaired surrogate becomes U+FFFD. */
  function Characters(units: seq<CodeUnit>): string {
    if units == [] then []
    else if IsHigh(units[0]) && |units| > 1 && IsLow(units[1]) then
      [((units[0] - 0xD800) * 0x400 + (units[1] - 0xDC00) + 0x1_0000) as char] + Characters(units[2..])
    else if IsHigh(units[0]) || IsLow(units[0]) then ['\U{FFFD}'] + Characters(units[1..])
    else [units[0] as char] + Characters(units[1..])
  }

  function ScanString(s: string, p: nat): (r: Parsed<string>)
    ensures r.Good? ==> p < r.end <= |s|
    ensures r.Bad? && !r.unterminated ==> p <= r.at
  {
    match ScanUnits(s, p + 1, p)
    case Good(units, e) => Good(Characters(units), e)
    case Bad(u, a) => Bad(u, a)
  }

  // ---------------------------------------------------------------------------------------------
  // Values
  // ---------------------------------------------------------------------------------------------

  function AsText(r: Parsed<string>): Parsed<Json> {
    match r
    case Good(text, e) => Good(Text(text), e)
    case Bad(u, a) => Bad(u, a)
  }

  function AsArray(r: Parsed<seq<Json>>): Parsed<Json> {
    match r
    case Good(items, e) => Good(Array(items), e)
    case Bad(u, a) => Bad(u, a)
  }

  function AsObject(r: Parsed<seq<(string, Json)>>): Parsed<Json> {
    match r
    case Good(members, e) => Good(Object(Fields(members)), e)
    case Bad(u, a) => Bad(u, a)
  }

  function ScanValue(s: string, p: nat): (r: Parsed<Json>)
    ensures r.Good? ==> p < r.end <= |s|
    ensures r.Bad? && !r.unterminated ==> p <= r.at
    decreases |s| - p, 1
  {
    if p >= |s| then Bad(false, p)
    else if s[p] == '"' then AsText(ScanString(s, p))
    else if s[p] == '{' then
      var q := SkipBlanks(s, p + 1);
      if q < |s| && s[q] == '}' then Good(Object(map[]), q + 1)
      else AsObject(ScanMembers(s, q))
    else if s[p] == '[' then
      var q := SkipBlanks(s, p + 1);
      if q < |s| && s[q] == ']' then Good(Array([]), q + 1)
      else AsArray(ScanItems(s, q))
    else ScanScalar(s, p)
  }

  function ScanScalar(s: string, p: nat): (r: Parsed<Json>)
    ensures r.Good? ==> p < r.end <= |s|
    ensures r.Bad? && !r.unterminated ==> p <= r.at
  {
    if NumberStarts(s, p) then Good(Number(NumberValueAt(s, p, NumberEnd(s, p))), NumberEnd(s, p))
    else if p < |s| && Word(s[p]) != [] && SpelledAt(s, p, Word(s[p])) then Good(WordValue(s[p]), p + |Word(s[p])|)
    else Bad(false, p)
  }

  /** The word a character opens. */
  function Word(c: char): string {
    match c
    case 'n' => "null"
    case 't' => "true"
    case 'f' => "false"
    case 'N' => "NaN"
    case 'I' => "Infinity"
    case '-' => "-Infinity"
    case _ => []
  }

  function WordValue(c: char): Json {
    match c
    case 'n' => Null
    case 't' => Bool(true)
    case 'f' => Bool(false)
    case _ => NonFinite
  }

  function NumberValueAt(s: string, p: nat, end: nat): real
    requires NumberStarts(s, p) && p < end <= |s|
  {
    var lexeme := s[p..end];
    if NumberStarts(lexeme, 0) then NumberValue(lexeme) else 0.0
  }

  datatype Separator = Closed(end: nat) | More(next: nat) | Wrong(at: nat)

  /** What follows an element: the closing character, a comma and the next element, or neither.
      A comma before the closing character is refused where the comma stands. */
  function ScanSeparator(s: string, p: nat, closing: char): (r: Separator)
    requires p <= |s|
    ensures r.Closed? ==> p < r.end <= |s|
    ensures r.More? ==> p < r.next <= |s|
    ensures r.Wrong? ==> p <= r.at <= |s|
  {
    var q := SkipBlanks(s, p);
    if q < |s| && s[q] == closing then Closed(q + 1)
    else if q >= |s| || s[q] != ',' then Wrong(q)
    else
      var next := SkipBlanks(s, q + 1);
      if next < |s| && s[next] == closing then Wrong(q) else More(next)
  }

  /** The elements of an array, from the first one to the closing bracket. */
  function ScanItems(s: string, p: nat): (r: Parsed<seq<Json>>)
    ensures r.Good? ==> p < r.end <= |s|
    ensures r.Bad? && !r.unterminated ==> p <= r.at
    decreases |s| - p, 2
  {
    match ScanValue(s, p)
    case Bad(u, a) => Bad(u, a)
    case Good(v, e) =>
      match ScanSeparator(s, e, ']')
      case Closed(end) => Good([v], end)
      case Wrong(at) => Bad(false, at)
      case More(next) => Prepend(v, ScanItems(s, next))
  }

  /** A key and its colon; the end is where the value starts. */
  function ScanKey(s: string, p: nat): (r: Parsed<string>)
    ensures r.Good? ==> p < r.end <= |s|
    ensures r.Bad? && !r.unterminated ==> p <= r.at
  {
    if p >= |s| || s[p] != '"' then Bad(false, p)
    else
      match ScanString(s, p)
      case Bad(u, a) => Bad(u, a)
      case Good(key, e) =>
        var q := SkipBlanks(s, e);
        if q >= |s| || s[q] != ':' then Bad(false, q) else Good(key, SkipBlanks(s, q + 1))
  }

  /** One member of an object: its key, then its value. */
  function ScanMember(s: string, p: nat): (r: Parsed<(string, Json)>)
    ensures r.Good? ==> p < r.end <= |s|
    ensures r.Bad? && !r.unterminated ==> p <= r.at
    decreases |s| - p, 2
  {
    match ScanKey(s, p)
    case Bad(u, a) => Bad(u, a)
    case Good(key, start) =>
      match ScanValue(s, start)
      case Bad(u, a) => Bad(u, a)
      case Good(v, e) => Good((key, v), e)
  }

  function ScanMembers(s: string, p: nat): (r: Parsed<seq<(string, Json)>>)
    ensures r.Good? ==> p < r.end <= |s|
    ensures r.Bad? && !r.unterminated ==> p <= r.at
    decreases |s| - p, 3
  {
    match ScanMember(s, p)
    case Bad(u, a) => Bad(u, a)
    case Good(member, e) =>
      match ScanSeparator(s, e, '}')
      case Closed(end) => Good([member], end)
      case Wrong(at) => Bad(false, at)
      case More(next) => Prepend(member, ScanMembers(s, next))
  }

  /** A key given twice keeps its last value. */
  function Fields(members: seq<(string, Json)>): map<string, Json> {
    if members == [] then map[]
    else
      var last := members[|members| - 1];
      Fields(members[..|members| - 1])[last.0 := last.1]
  }

  function RawDecode(s: string, p: nat): Decoded<Json> {
    if p > |s| then Invalid(false, p)
    else
      match ScanValue(s[p..], 0)
      case Good(v, e) => Value(v, e + p)
      case Bad(u, a) => Invalid(u, a + p)
  }

  const JSON_DECODER: Decoder<Json> := Decoder(RawDecode, (v: Json) => v.IsNumber())

  // ---------------------------------------------------------------------------------------------
  // A value is decided by its own text
  // ---------------------------------------------------------------------------------------------

  ghost predicate Agree(a: string, b: string, n: nat) {
    n <= |a| && n <= |b| && forall i | 0 <= i < n :: a[i] == b[i]
  }

  /** What follows a number in `b` does not continue it: it is cut there, or what follows is no
      number character, or it is what follows in `a`. */
  ghost predicate NumberStops(a: string, b: string, e: nat) {
    || Agree(a, b, |b|)
    || (e < |b| && !IsNumberCharacter(b[e]))
    || Agree(a, b, e + 3)
  }

  lemma {:induction false} BlanksAgree(a: string, b: string, p: nat)
    requires p <= |a| && p <= |b|
    requires SkipBlanks(a, p) < |a| && Agree(a, b, SkipBlanks(a, p) + 1)
    ensures SkipBlanks(b, p) == SkipBlanks(a, p)
    decreases |a| - p
  {
    if IsSpace(a[p]) {
      BlanksAgree(a, b, p + 1);
    }
  }

  lemma {:induction false} DigitsAgree(a: string, b: string, p: nat)
    requires p <= |a| && Agree(a, b, SkipDigits(a, p))
    ensures SkipDigits(b, p) >= SkipDigits(a, p)
    ensures |b| == SkipDigits(a, p) || !IsDigit(b[SkipDigits(a, p)]) ==> SkipDigits(b, p) == SkipDigits(a, p)
    decreases |a| - p
  {
    if p < |a| && IsDigit(a[p]) {
      DigitsAgree(a, b, p + 1);
    }
  }

  lemma {:induction false} DigitsStop(s: string, p: nat)
    requires p <= |s|
    ensures SkipDigits(s, p) < |s| ==> !IsDigit(s[SkipDigits(s, p)])
    decreases |s| - p
  {
    if p < |s| && IsDigit(s[p]) {
      DigitsStop(s, p + 1);
    }
  }

  lemma {:induction false} IntegerAgrees(a: string, b: string, p: nat, e: nat)
    requires NumberStarts(a, p) && IntegerEnd(a, p) <= e && Agree(a, b, e) && NumberStops(a, b, e)
    ensures NumberStarts(b, p) && IntegerEnd(b, p) == IntegerEnd(a, p)
  {
    var first := if a[p] == '-' then p + 1 else p;
    if a[first] != '0' {
      DigitsStop(a, first + 1);
      DigitsAgree(a, b, first + 1);
    }
  }

  lemma {:induction false} FractionAgrees(a: string, b: string, p: nat, e: nat)
    requires p <= |a| && FractionEnd(a, p) <= e && Agree(a, b, e) && NumberStops(a, b, e)
    requires FractionEnd(a, p) == p ==> p == e || p + 1 < e
    ensures FractionEnd(b, p) == FractionEnd(a, p)
  {
    if FractionEnd(a, p) > p {
      DigitsStop(a, p + 2);
      DigitsAgree(a, b, p + 2);
    }
  }

  lemma {:induction false} ExponentAgrees(a: string, b: string, p: nat)
    requires p <= |a| && Agree(a, b, ExponentEnd(a, p)) && NumberStops(a, b, ExponentEnd(a, p))
    ensures ExponentEnd(b, p) == ExponentEnd(a, p)
  {
    if ExponentEnd(a, p) > p {
      var digits := if IsDigit(a[p + 1]) then p + 2 else p + 3;
      DigitsStop(a, digits);
      DigitsAgree(a, b, digits);
    }
  }

  lemma {:induction false} NumberAgrees(a: string, b: string, p: nat)
    requires NumberStarts(a, p) && Agree(a, b, NumberEnd(a, p)) && NumberStops(a, b, NumberEnd(a, p))
    ensures NumberStarts(b, p) && NumberEnd(b, p) == NumberEnd(a, p)
  {
    var e := NumberEnd(a, p);
    IntegerAgrees(a, b, p, e);
    FractionAgrees(a, b, IntegerEnd(a, p), e);
    ExponentAgrees(a, b, FractionEnd(a, IntegerEnd(a, p)));
  }

  lemma {:induction false} UnitsAgree(a: string, b: string, p: nat, begin: nat)
    requires ScanUnits(a, p, begin).Good? && Agree(a, b, ScanUnits(a, p, begin).end)
    ensures ScanUnits(b, p, begin) == ScanUnits(a, p, begin)
    decreases |a| - p
  {
    if a[p] == '"' {
    } else if a[p] == '\\' {
      UnitsAgree(a, b, if a[p + 1] == 'u' then p + 6 else p + 2, begin);
    } else {
      UnitsAgree(a, b, p + 1, begin);
    }
  }

  lemma {:induction false} SpellingAgrees(a: string, b: string, p: nat, word: string, e: nat)
    requires Agree(a, b, e) && p + |word| <= e
    ensures SpelledAt(a, p, word) <==> SpelledAt(b, p, word)
  {
    assert a[p..p + |word|] == b[p..p + |word|];
  }

  lemma {:induction false} ScalarAgrees(a: string, b: string, p: nat)
    requires ScanScalar(a, p).Good?
    requires var Good(v, e) := ScanScalar(a, p); Agree(a, b, e) && (v.IsNumber() ==> NumberStops(a, b, e))
    ensures ScanScalar(b, p) == ScanScalar(a, p)
  {
    var Good(v, e) := ScanScalar(a, p);
    if NumberStarts(a, p) {
      NumberAgrees(a, b, p);
      assert a[p..e] == b[p..e];
    } else {
      assert a[p] == b[p] && a[p] == Word(a[p])[0];
      SpellingAgrees(a, b, p, Word(a[p]), e);
      if a[p] == '-' {
        assert a[p + 1] == a[p..p + 9][1] == 'I';
      }
    }
  }

  /** A value scanned in `a` is scanned alike in any text that agrees with `a` up to its end. */
  lemma {:induction false} ValueAgrees(a: string, b: string, p: nat)
    requires ScanValue(a, p).Good?
    requires var Good(v, e) := ScanValue(a, p); Agree(a, b, e) && (v.IsNumber() ==> NumberStops(a, b, e))
    ensures ScanValue(b, p) == ScanValue(a, p)
    decreases |a| - p, 1
  {
    if a[p] == '"' {
      UnitsAgree(a, b, p + 1, p);
    } else if a[p] == '{' || a[p] == '[' {
      var q := SkipBlanks(a, p + 1);
      BlanksAgree(a, b, p + 1);
      if a[p] == '{' && a[q] != '}' {
        MembersAgree(a, b, q);
      } else if a[p] == '[' && a[q] != ']' {
        ItemsAgree(a, b, q);
      }
    } else {
      ScalarAgrees(a, b, p);
    }
  }

  /** The value at `p`, when what follows it inside `n` characters is blank or punctuation. */
  lemma {:induction false} InnerValueAgrees(a: string, b: string, p: nat, n: nat)
    requires ScanValue(a, p).Good? && ScanValue(a, p).end < n && Agree(a, b, n)
    requires !IsNumberCharacter(a[ScanValue(a, p).end])
    ensures ScanValue(b, p) == ScanValue(a, p)
    decreases |a| - p, 2
  {
    ValueAgrees(a, b, p);
  }

  lemma {:induction false} BlanksStop(s: string, p: nat)
    requires p <= |s|
    ensures SkipBlanks(s, p) > p ==> IsSpace(s[p])
    ensures SkipBlanks(s, p) < |s| ==> !IsSpace(s[SkipBlanks(s, p)])
    decreases |s| - p
  {
    if p < |s| && IsSpace(s[p]) {
      BlanksStop(s, p + 1);
    }
  }

  lemma {:induction false} SeparatorAgrees(a: string, b: string, p: nat, closing: char, n: nat)
    requires p <= |a| && (closing == ']' || closing == '}') && Agree(a, b, n)
    requires match ScanSeparator(a, p, closing)
             case Closed(end) => end <= n
             case More(next) => next < n
             case Wrong(_) => false
    ensures ScanSeparator(b, p, closing) == ScanSeparator(a, p, closing)
    ensures p < n && !IsNumberCharacter(a[p])
  {
    BlanksStop(a, p);
    BlanksAgree(a, b, p);
    var q := SkipBlanks(a, p);
    if a[q] == ',' {
      BlanksAgree(a, b, q + 1);
    }
  }

  lemma {:induction false} ItemsAgree(a: string, b: string, p: nat)
    requires ScanItems(a, p).Good? && Agree(a, b, ScanItems(a, p).end)
    ensures ScanItems(b, p) == ScanItems(a, p)
    decreases |a| - p, 3
  {
    var e := ScanValue(a, p).end;
    SeparatorAgrees(a, b, e, ']', ScanItems(a, p).end);
    InnerValueAgrees(a, b, p, ScanItems(a, p).end);
    if ScanSeparator(a, e, ']').More? {
      ItemsAgree(a, b, ScanSeparator(a, e, ']').next);
    }
  }

  lemma {:induction false} KeyAgrees(a: string, b: string, p: nat)
    requires ScanKey(a, p).Good? && ScanKey(a, p).end < |a| && Agree(a, b, ScanKey(a, p).end + 1)
    ensures ScanKey(b, p) == ScanKey(a, p)
  {
    var e := ScanString(a, p).end;
    UnitsAgree(a, b, p + 1, p);
    BlanksAgree(a, b, e);
    BlanksAgree(a, b, SkipBlanks(a, e) + 1);
  }

  lemma {:induction false} MemberAgrees(a: string, b: string, p: nat, n: nat)
    requires ScanMember(a, p).Good? && ScanMember(a, p).end < n && Agree(a, b, n)
    requires !IsNumberCharacter(a[ScanMember(a, p).end])
    ensures ScanMember(b, p) == ScanMember(a, p)
    decreases |a| - p, 3
  {
    KeyAgrees(a, b, p);
    InnerValueAgrees(a, b, ScanKey(a, p).end, n);
  }

  lemma {:induction false} MembersAgree(a: string, b: string, p: nat)
    requires ScanMembers(a, p).Good? && Agree(a, b, ScanMembers(a, p).end)
    ensures ScanMembers(b, p) == ScanMembers(a, p)
    decreases |a| - p, 4
  {
    var e := ScanMember(a, p).end;
    SeparatorAgrees(a, b, e, '}', ScanMembers(a, p).end);
    MemberAgrees(a, b, p, ScanMembers(a, p).end);
    if ScanSeparator(a, e, '}').More? {
      MembersAgree(a, b, ScanSeparator(a, e, '}').next);
    }
  }

  // ---------------------------------------------------------------------------------------------
  // A refusal away from the end of the text is final
  // ---------------------------------------------------------------------------------------------

  /** The refusal at `at` cannot be mended by text after the end of `a`. */
  ghost predicate Final(a: string, b: string, at: nat) {
    Agree(a, b, |a|) && at + TRUNCATION_SLACK < |a|
  }

  lemma {:induction false} UnitsRefused(a: string, b: string, p: nat, begin: nat)
    requires var r := ScanUnits(a, p, begin); r.Bad? && !r.unterminated && Final(a, b, r.at)
    ensures ScanUnits(b, p, begin) == ScanUnits(a, p, begin)
    decreases |a| - p
  {
    if a[p] == '\\' {
      if a[p + 1] == 'u' {
        if HexAt(a, p + 2) {
          UnitsRefused(a, b, p + 6, begin);
        }
      } else if Escaped(a[p + 1]) >= 0 {
        UnitsRefused(a, b, p + 2, begin);
      }
    } else if a[p] >= ' ' {
      UnitsRefused(a, b, p + 1, begin);
    }
  }

  lemma {:induction false} ScalarRefused(a: string, b: string, p: nat)
    requires ScanScalar(a, p).Bad? && Final(a, b, p)
    ensures ScanScalar(b, p) == ScanScalar(a, p)
  {
    assert a[p] == b[p] && a[p + 1] == b[p + 1];
    SpellingAgrees(a, b, p, Word(a[p]), |a|);
  }

  lemma {:induction false} SeparatorFinal(a: string, b: string, p: nat, closing: char, at: nat)
    requires p <= |a| && (closing == ']' || closing == '}') && Final(a, b, at)
    requires match ScanSeparator(a, p, closing)
             case Closed(end) => false
             case More(next) => next <= at
             case Wrong(q) => q <= at
    ensures ScanSeparator(b, p, closing) == ScanSeparator(a, p, closing)
    ensures p <= at
  {
    BlanksAgree(a, b, p);
    var q := SkipBlanks(a, p);
    if a[q] == ',' {
      if SkipBlanks(a, q + 1) < |a| {
        BlanksAgree(a, b, q + 1);
      }
    }
  }

  lemma {:induction false} ValueRefused(a: string, b: string, p: nat)
    requires var r := ScanValue(a, p); r.Bad? && !r.unterminated && Final(a, b, r.at)
    ensures ScanValue(b, p) == ScanValue(a, p)
    decreases |a| - p, 1
  {
    if a[p] == '"' {
      UnitsRefused(a, b, p + 1, p);
    } else if a[p] == '{' || a[p] == '[' {
      var q := SkipBlanks(a, p + 1);
      BlanksAgree(a, b, p + 1);
      if a[p] == '{' {
        MembersRefused(a, b, q);
      } else {
        ItemsRefused(a, b, q);
      }
    } else {
      ScalarRefused(a, b, p);
    }
  }

  lemma {:induction false} ItemsRefused(a: string, b: string, p: nat)
    requires var r := ScanItems(a, p); r.Bad? && !r.unterminated && Final(a, b, r.at)
    ensures ScanItems(b, p) == ScanItems(a, p)
    decreases |a| - p, 3
  {
    match ScanValue(a, p) {
      case Bad(_, _) =>
        ValueRefused(a, b, p);
      case Good(_, e) =>
        SeparatorFinal(a, b, e, ']', ScanItems(a, p).at);
        ValueAgrees(a, b, p);
        if ScanSeparator(a, e, ']').More? {
          ItemsRefused(a, b, ScanSeparator(a, e, ']').next);
        }
    }
  }

  lemma {:induction false} KeyRefused(a: string, b: string, p: nat)
    requires var r := ScanKey(a, p); r.Bad? && !r.unterminated && Final(a, b, r.at)
    ensures ScanKey(b, p) == ScanKey(a, p)
  {
    if a[p] == '"' {
      if ScanString(a, p).Bad? {
        UnitsRefused(a, b, p + 1, p);
      } else {
        UnitsAgree(a, b, p + 1, p);
        BlanksAgree(a, b, ScanString(a, p).end);
      }
    }
  }

  lemma {:induction false} MemberRefused(a: string, b: string, p: nat)
    requires var r := ScanMember(a, p); r.Bad? && !r.unterminated && Final(a, b, r.at)
    ensures ScanMember(b, p) == ScanMember(a, p)
    decreases |a| - p, 3
  {
    if ScanKey(a, p).Bad? {
      KeyRefused(a, b, p);
    } else {
      KeyAgrees(a, b, p);
      ValueRefused(a, b, ScanKey(a, p).end);
    }
  }

  lemma {:induction false} MemberFinal(a: string, b: string, p: nat, at: nat)
    requires ScanMember(a, p).Good? && ScanMember(a, p).end <= at && Final(a, b, at)
    ensures ScanMember(b, p) == ScanMember(a, p)
  {
    KeyAgrees(a, b, p);
    ValueAgrees(a, b, ScanKey(a, p).end);
  }

  lemma {:induction false} MembersRefused(a: string, b: string, p: nat)
    requires var r := ScanMembers(a, p); r.Bad? && !r.unterminated && Final(a, b, r.at)
    ensures ScanMembers(b, p) == ScanMembers(a, p)
    decreases |a| - p, 4
  {
    match ScanMember(a, p) {
      case Bad(_, _) =>
        MemberRefused(a, b, p);
      case Good(_, e) =>
        SeparatorFinal(a, b, e, '}', ScanMembers(a, p).at);
        MemberFinal(a, b, p, ScanMembers(a, p).at);
        if ScanSeparator(a, e, '}').More? {
          MembersRefused(a, b, ScanSeparator(a, e, '}').next);
        }
    }
  }

  // ---------------------------------------------------------------------------------------------
  // The decoder meets the scanner's terms
  // ---------------------------------------------------------------------------------------------

  lemma {:induction false} JsonExtends(s: string, p: nat, more: string)
    requires p < |s|
    ensures Bounded(JSON_DECODER, s, p) && Extends(JSON_DECODER, s, p, more)
  {
    var a, b := s[p..], (s + more)[p..];
    assert b == a + more;
    match ScanValue(a, 0) {
      case Good(v, e) =>
        if !MayContinue(JSON_DECODER, v, s, e + p) {
          ValueAgrees(a, b, 0);
        }
      case Bad(u, at) =>
        if !CouldBeTruncation(RawDecode(s, p), |s|) {
          ValueRefused(a, b, 0);
        }
    }
  }

  lemma {:induction false} JsonTruncates(s: string, p: nat, n: nat)
    requires p < |s| && n <= |s|
    ensures Truncates(JSON_DECODER, s, p, n)
  {
    var d := RawDecode(s, p);
    if d.Value? && p < d.end <= n {
      assert s[..n][p..] == s[p..][..n - p];
      ValueAgrees(s[p..], s[..n][p..], 0);
    }
  }

  lemma {:induction false} JsonLocal(s: string, p: nat)
    requires p < |s|
    ensures Local(JSON_DECODER, s, p)
  {
    assert s[p..][0..] == s[p..];
  }

  /** The scanner's hypotheses hold of a real JSON decoder. */
  lemma {:induction false} JsonIsLawful()
    ensures Lawful(JSON_DECODER)
  {
    forall s: string, p: nat, more: string | p < |s|
      ensures Bounded(JSON_DECODER, s, p) && Extends(JSON_DECODER, s, p, more)
    {
      JsonExtends(s, p, more);
    }
    forall s: string, p: nat | p < |s|
      ensures Bounded(JSON_DECODER, s, p)
    {
      JsonExtends(s, p, []);
    }
    forall s: string, p: nat | p < |s|
      ensures Local(JSON_DECODER, s, p)
    {
      JsonLocal(s, p);
    }
    forall s: string, p: nat, n: nat | p < |s| && n <= |s|
      ensures Truncates(JSON_DECODER, s, p, n)
    {
      JsonTruncates(s, p, n);
    }
  }
}
