/** Plain JSON values written as one exact text, and the proof that the decoder reads them back. */
module JsonWriter {
  import opened Json
  import opened Records
  import opened JsonDecoder

  /** What a payload is made of; a record's fields stand in the order they were built. */
  datatype Plain =
    | Nothing
    | Whole(n: nat)
    | Words(text: string)
    | List(items: seq<Plain>)
    | Record(fields: seq<Field>)

  datatype Field = Field(key: string, value: Plain)

  // ---------------------------------------------------------------------------------------------
  // Keys in order
  // ---------------------------------------------------------------------------------------------

  /** Strings by code point, a prefix before what extends it. */
  predicate Before(a: string, b: string) {
    b != [] && (a == [] || a[0] < b[0] || (a[0] == b[0] && Before(a[1..], b[1..])))
  }

  lemma {:induction false} BeforeIsTotal(a: string, b: string)
    ensures a == b || Before(a, b) || Before(b, a)
  {
    if a != [] && b != [] && a[0] == b[0] {
      BeforeIsTotal(a[1..], b[1..]);
      assert a == [a[0]] + a[1..] && b == [b[0]] + b[1..];
    }
  }

  lemma {:induction false} BeforeIsStrict(a: string, b: string, c: string)
    ensures !Before(a, a)
    ensures Before(a, b) && Before(b, c) ==> Before(a, c)
  {
    if a != [] {
      BeforeIsStrict(a[1..], if b == [] then [] else b[1..], if c == [] then [] else c[1..]);
    }
  }

  ghost predicate Sorted(fields: seq<Field>) {
    forall i, j | 0 <= i < j < |fields| :: Before(fields[i].key, fields[j].key)
  }

  predicate KeysDiffer(fields: seq<Field>) {
    forall i, j | 0 <= i < j < |fields| :: fields[i].key != fields[j].key
  }

  function Insert(field: Field, fields: seq<Field>): (r: seq<Field>)
    ensures multiset(r) == multiset(fields) + multiset{field}
  {
    if fields == [] || !Before(fields[0].key, field.key) then [field] + fields
    else
      assert fields == [fields[0]] + fields[1..];
      [fields[0]] + Insert(field, fields[1..])
  }

  function Sort(fields: seq<Field>): (r: seq<Field>)
    ensures multiset(r) == multiset(fields)
  {
    if fields == [] then []
    else
      assert fields == [fields[0]] + fields[1..];
      Insert(fields[0], Sort(fields[1..]))
  }

  lemma {:induction false} InsertKeepsSorted(field: Field, fields: seq<Field>)
    requires Sorted(fields) && forall i | 0 <= i < |fields| :: fields[i].key != field.key
    ensures Sorted(Insert(field, fields))
  {
    if fields != [] {
      if Before(fields[0].key, field.key) {
        var rest := Insert(field, fields[1..]);
        InsertKeepsSorted(field, fields[1..]);
        forall i | 0 <= i < |rest| ensures Before(fields[0].key, rest[i].key) {
          assert rest[i] in multiset(rest);
          assert rest[i] == field || rest[i] in fields[1..];
        }
      } else {
        BeforeIsTotal(fields[0].key, field.key);
        forall i | 0 <= i < |fields| ensures Before(field.key, fields[i].key) {
          BeforeIsStrict(field.key, fields[0].key, fields[i].key);
        }
      }
    }
  }

  lemma {:induction false} SortSorts(fields: seq<Field>)
    requires KeysDiffer(fields)
    ensures Sorted(Sort(fields))
  {
    if fields != [] {
      SortSorts(fields[1..]);
      var rest := Sort(fields[1..]);
      forall i | 0 <= i < |rest| ensures rest[i].key != fields[0].key {
        assert rest[i] in multiset(rest);
        assert rest[i] in fields[1..];
      }
      InsertKeepsSorted(fields[0], rest);
    }
  }

  lemma {:induction false} SameFirst(a: seq<Field>, b: seq<Field>)
    requires Sorted(a) && Sorted(b) && multiset(a) == multiset(b) && a != []
    ensures b != [] && a[0] == b[0]
  {
    assert a[0] in multiset(b);
    var j :| 0 <= j < |b| && b[j] == a[0];
    assert b[0] in multiset(a);
    var i :| 0 <= i < |a| && a[i] == b[0];
    BeforeIsStrict(a[0].key, b[0].key, a[0].key);
  }

  lemma {:induction false} WithoutFirst(a: seq<Field>, b: seq<Field>)
    requires a != [] && b != [] && multiset(a) == multiset(b) && a[0] == b[0]
    ensures multiset(a[1..]) == multiset(b[1..])
  {
    assert a == [a[0]] + a[1..] && b == [b[0]] + b[1..];
    assert multiset(a[1..]) == multiset(a) - multiset{a[0]};
    assert multiset(b[1..]) == multiset(b) - multiset{b[0]};
  }

  lemma {:induction false} SortedRest(a: seq<Field>)
    requires Sorted(a) && a != []
    ensures Sorted(a[1..])
  {
  }

  /** There is one sorted arrangement of given fields. */
  lemma {:induction false} SortedIsUnique(a: seq<Field>, b: seq<Field>)
    requires Sorted(a) && Sorted(b) && multiset(a) == multiset(b)
    ensures a == b
  {
    if a == [] {
      assert |multiset(b)| == 0;
    } else {
      SameFirst(a, b);
      WithoutFirst(a, b);
      SortedRest(a);
      SortedRest(b);
      SortedIsUnique(a[1..], b[1..]);
      assert a == [a[0]] + a[1..] && b == [b[0]] + b[1..];
    }
  }

  lemma {:induction false} SortedAreFields(fields: seq<Field>)
    ensures forall i | 0 <= i < |Sort(fields)| :: Sort(fields)[i] in fields
  {
    forall i | 0 <= i < |Sort(fields)| ensures Sort(fields)[i] in fields {
      assert Sort(fields)[i] in multiset(Sort(fields));
    }
  }

  // ---------------------------------------------------------------------------------------------
  // Writing
  // ---------------------------------------------------------------------------------------------

  function HexOf(d: nat): char
    requires d < 16
  {
    "0123456789abcdef"[d]
  }

  /** One character of a string: the two that must be escaped, the short escapes, the other control
      characters by number, everything else as it stands. */
  function Escape(c: char): (r: string)
    ensures |r| > 0
  {
    match c
    case '"' => "\\\""
    case '\\' => "\\\\"
    case '\n' => "\\n"
    case '\r' => "\\r"
    case '\t' => "\\t"
    case '\U{0008}' => "\\b"
    case '\U{000C}' => "\\f"
    case _ => if c < ' ' then "\\u00" + [HexOf(c as int / 16), HexOf(c as int % 16)] else [c]
  }

  function EscapeAll(text: string): string {
    if text == [] then [] else Escape(text[0]) + EscapeAll(text[1..])
  }

  function Quote(text: string): string {
    "\"" + EscapeAll(text) + "\""
  }

  function Decimal(n: nat): (r: string)
    ensures |r| > 0
  {
    if n < 10 then [HexOf(n)] else Decimal(n / 10) + [HexOf(n % 10)]
  }

  /** The parts from the `k`th on with commas between them, and the closing bracket. */
  function Listed(parts: seq<string>, k: nat, closing: char): string
    requires k <= |parts|
    decreases |parts| - k
  {
    if k == |parts| then [closing]
    else parts[k] + (if k + 1 == |parts| then [closing] else [','] + Listed(parts, k + 1, closing))
  }

  function Dumps(v: Plain): string
    decreases v, 1
  {
    match v
    case Nothing => "null"
    case Whole(n) => Decimal(n)
    case Words(text) => Quote(text)
    case List(items) => "[" + Listed(DumpsItems(items, v), 0, ']')
    case Record(fields) => SortedAreFields(fields); "{" + Listed(DumpsFields(Sort(fields), v), 0, '}')
  }

  function DumpsItems(items: seq<Plain>, ghost whole: Plain): (r: seq<string>)
    requires forall i | 0 <= i < |items| :: items[i] < whole
    ensures |r| == |items| && forall i | 0 <= i < |items| :: r[i] == Dumps(items[i])
    decreases whole, 0, |items|
  {
    if items == [] then [] else [Dumps(items[0])] + DumpsItems(items[1..], whole)
  }

  function DumpsFields(fields: seq<Field>, ghost whole: Plain): (r: seq<string>)
    requires forall i | 0 <= i < |fields| :: fields[i].value < whole
    ensures |r| == |fields| && forall i | 0 <= i < |fields| :: r[i] == DumpsField(fields[i])
    decreases whole, 0, |fields|
  {
    if fields == [] then [] else [DumpsField(fields[0])] + DumpsFields(fields[1..], whole)
  }

  function DumpsField(field: Field): string
    decreases field.value, 2
  {
    Quote(field.key) + ":" + Dumps(field.value)
  }

  lemma {:induction false} SameFields(a: seq<Field>, b: seq<Field>)
    requires KeysDiffer(a) && KeysDiffer(b) && multiset(a) == multiset(b)
    ensures Sort(a) == Sort(b)
  {
    SortSorts(a);
    SortSorts(b);
    SortedIsUnique(Sort(a), Sort(b));
  }

  /** The order a record was built in does not show in what is written. */
  lemma {:induction false} BuildOrderIsLost(a: seq<Field>, b: seq<Field>)
    requires KeysDiffer(a) && KeysDiffer(b) && multiset(a) == multiset(b)
    ensures Dumps(Record(a)) == Dumps(Record(b))
  {
    SameFields(a, b);
    SortedAreFields(a);
    SortedAreFields(b);
    assert DumpsFields(Sort(a), Record(a)) == DumpsFields(Sort(b), Record(b));
  }

  // ---------------------------------------------------------------------------------------------
  // The value a text stands for
  // ---------------------------------------------------------------------------------------------

  function AsJson(v: Plain): Json
    decreases v, 1
  {
    match v
    case Nothing => Null
    case Whole(n) => Number(n as real)
    case Words(text) => Text(text)
    case List(items) => Array(AsJsons(items, v))
    case Record(fields) => Object(Fields(Pairs(fields, v)))
  }

  function AsJsons(items: seq<Plain>, ghost whole: Plain): (r: seq<Json>)
    requires forall i | 0 <= i < |items| :: items[i] < whole
    ensures |r| == |items|
    decreases whole, 0, |items|
  {
    if items == [] then [] else [AsJson(items[0])] + AsJsons(items[1..], whole)
  }

  function Pairs(fields: seq<Field>, ghost whole: Plain): (r: seq<(string, Json)>)
    requires forall i | 0 <= i < |fields| :: fields[i].value < whole
    ensures |r| == |fields|
    decreases whole, 0, |fields|
  {
    if fields == [] then [] else [(fields[0].key, AsJson(fields[0].value))] + Pairs(fields[1..], whole)
  }

  /** No record gives a key twice. */
  ghost predicate WellFormed(v: Plain)
    decreases v
  {
    match v
    case List(items) => forall i | 0 <= i < |items| :: WellFormed(items[i])
    case Record(fields) => KeysDiffer(fields) && forall i | 0 <= i < |fields| :: WellFormed(fields[i].value)
    case _ => true
  }

  lemma {:induction false} PairAt(fields: seq<Field>, whole: Plain, i: nat)
    requires (forall j | 0 <= j < |fields| :: fields[j].value < whole) && i < |fields|
    ensures Pairs(fields, whole)[i] == (fields[i].key, AsJson(fields[i].value))
  {
    if i > 0 {
      PairAt(fields[1..], whole, i - 1);
    }
  }

  /** A record's map gives each key its value, wherever the field stands. */
  lemma {:induction false} FieldsTell(pairs: seq<(string, Json)>, key: string)
    requires forall i, j | 0 <= i < j < |pairs| :: pairs[i].0 != pairs[j].0
    ensures key in Fields(pairs) <==> exists i :: 0 <= i < |pairs| && pairs[i].0 == key
    ensures forall i | 0 <= i < |pairs| && pairs[i].0 == key :: Fields(pairs)[key] == pairs[i].1
  {
    if pairs != [] {
      var n := |pairs| - 1;
      var before := pairs[..n];
      assert forall i | 0 <= i < n :: before[i] == pairs[i];
      FieldsTell(before, key);
      if key in Fields(before) {
        var i :| 0 <= i < n && before[i].0 == key;
        assert pairs[i].0 == key;
      } else if exists i :: 0 <= i < |pairs| && pairs[i].0 == key {
        var i :| 0 <= i < |pairs| && pairs[i].0 == key;
        assert i == n;
      }
    }
  }

  lemma {:induction false} ArrangedInto(a: seq<Field>, b: seq<Field>, whole: Plain)
    requires KeysDiffer(a) && KeysDiffer(b) && multiset(a) == multiset(b)
    requires forall i | 0 <= i < |a| :: a[i].value < whole
    requires forall i | 0 <= i < |b| :: b[i].value < whole
    ensures forall key | key in Fields(Pairs(a, whole)) ::
      key in Fields(Pairs(b, whole)) && Fields(Pairs(a, whole))[key] == Fields(Pairs(b, whole))[key]
  {
    var x, y := Pairs(a, whole), Pairs(b, whole);
    forall i | 0 <= i < |a| ensures x[i] == (a[i].key, AsJson(a[i].value)) {
      PairAt(a, whole, i);
    }
    forall i | 0 <= i < |b| ensures y[i] == (b[i].key, AsJson(b[i].value)) {
      PairAt(b, whole, i);
    }
    forall key | key in Fields(x)
      ensures key in Fields(y) && Fields(x)[key] == Fields(y)[key]
    {
      FieldsTell(x, key);
      FieldsTell(y, key);
      var i :| 0 <= i < |x| && x[i].0 == key;
      assert a[i] in multiset(b);
      var j :| 0 <= j < |b| && b[j] == a[i];
      assert y[j] == x[i];
    }
  }

  /** Fields in another order make the same map. */
  lemma {:induction false} ArrangedAlike(a: seq<Field>, b: seq<Field>, whole: Plain)
    requires KeysDiffer(a) && KeysDiffer(b) && multiset(a) == multiset(b)
    requires forall i | 0 <= i < |a| :: a[i].value < whole
    requires forall i | 0 <= i < |b| :: b[i].value < whole
    ensures Fields(Pairs(a, whole)) == Fields(Pairs(b, whole))
  {
    ArrangedInto(a, b, whole);
    ArrangedInto(b, a, whole);
  }

  // ---------------------------------------------------------------------------------------------
  // Reading back strings and numbers
  // ---------------------------------------------------------------------------------------------

  lemma {:induction false} SpelledParts(s: string, p: nat, a: string, b: string)
    requires SpelledAt(s, p, a + b)
    ensures SpelledAt(s, p, a) && SpelledAt(s, p + |a|, b)
  {
    var whole := s[p..p + |a + b|];
    assert whole == a + b;
    assert s[p..p + |a|] == whole[..|a|];
    assert s[p + |a|..p + |a| + |b|] == whole[|a|..];
  }

  lemma {:induction false} SpelledFirst(s: string, p: nat, word: string, i: nat)
    requires SpelledAt(s, p, word) && i < |word|
    ensures p + i < |s| && s[p + i] == word[i]
  {
    assert s[p..p + |word|][i] == s[p + i];
  }

  function Units(text: string): (r: seq<CodeUnit>)
    ensures |r| == |text|
  {
    if text == [] then [] else [text[0] as CodeUnit] + Units(text[1..])
  }

  lemma {:induction false} UnitsAreCharacters(text: string)
    ensures Characters(Units(text)) == text
  {
    if text != [] {
      UnitsAreCharacters(text[1..]);
      assert Units(text)[1..] == Units(text[1..]);
      assert text == [text[0]] + text[1..];
    }
  }

  lemma {:induction false} HexReads(c: char)
    requires c < ' '
    ensures var a, b := HexOf(c as int / 16), HexOf(c as int % 16);
      HexDigit(a) == c as int / 16 && HexDigit(b) == c as int % 16
  {
  }

  lemma {:induction false} EscapeReads(c: char, s: string, p: nat, begin: nat)
    requires SpelledAt(s, p, Escape(c))
    ensures ScanUnits(s, p, begin) == Prepend(c as CodeUnit, ScanUnits(s, p + |Escape(c)|, begin))
  {
    var e := Escape(c);
    forall i | 0 <= i < |e| ensures s[p + i] == e[i] {
      SpelledFirst(s, p, e, i);
    }
    assert s[p] == e[0];
    if |e| > 1 {
      assert s[p + 1] == e[1];
    }
    if |e| == 6 {
      assert s[p + 2] == e[2] && s[p + 3] == e[3] && s[p + 4] == e[4] && s[p + 5] == e[5];
      HexReads(c);
      assert HexAt(s, p + 2) && HexValue(s, p + 2) == c as int;
    }
  }

  lemma {:induction false} UnitsRead(text: string, s: string, p: nat, begin: nat)
    requires SpelledAt(s, p, EscapeAll(text) + "\"")
    ensures ScanUnits(s, p, begin) == Good(Units(text), p + |EscapeAll(text)| + 1)
    decreases |text|
  {
    if text == [] {
      SpelledFirst(s, p, "\"", 0);
    } else {
      var first, rest := Escape(text[0]), EscapeAll(text[1..]);
      assert first + rest + "\"" == first + (rest + "\"");
      SpelledParts(s, p, first, rest + "\"");
      EscapeReads(text[0], s, p, begin);
      UnitsRead(text[1..], s, p + |first|, begin);
    }
  }

  lemma {:induction false} StringReads(text: string, s: string, p: nat)
    requires SpelledAt(s, p, Quote(text))
    ensures p < |s| && s[p] == '"' && ScanString(s, p) == Good(text, p + |Quote(text)|)
  {
    assert Quote(text) == "\"" + (EscapeAll(text) + "\"");
    SpelledParts(s, p, "\"", EscapeAll(text) + "\"");
    SpelledFirst(s, p, "\"", 0);
    UnitsRead(text, s, p + 1, p);
    UnitsAreCharacters(text);
  }

  predicate Delimited(s: string, e: nat) {
    e < |s| ==> s[e] == ',' || s[e] == ']' || s[e] == '}'
  }

  lemma {:induction false} DecimalDigits(n: nat)
    ensures forall i | 0 <= i < |Decimal(n)| :: IsDigit(Decimal(n)[i])
    ensures Decimal(n)[0] == '0' ==> n == 0 && |Decimal(n)| == 1
    ensures DigitsValue(Decimal(n), 0, |Decimal(n)|) == n
  {
    if n >= 10 {
      DecimalDigits(n / 10);
      DigitsExtend(Decimal(n / 10), [HexOf(n % 10)], 0, |Decimal(n / 10)|);
    } else {
      assert DigitsValue(Decimal(n), 0, 0) == 0;
    }
  }

  lemma {:induction false} DigitsExtend(a: string, b: string, p: nat, end: nat)
    requires p <= end <= |a|
    ensures DigitsValue(a + b, p, end) == DigitsValue(a, p, end)
    decreases end - p
  {
    if p < end {
      DigitsExtend(a, b, p, end - 1);
    }
  }

  lemma {:induction false} DigitsSkipped(s: string, p: nat, e: nat)
    requires p <= e <= |s| && (forall i | p <= i < e :: IsDigit(s[i])) && (e < |s| ==> !IsDigit(s[e]))
    ensures SkipDigits(s, p) == e
    decreases e - p
  {
    if p < e {
      DigitsSkipped(s, p + 1, e);
    }
  }

  lemma {:induction false} WholeReads(n: nat, s: string, p: nat)
    requires SpelledAt(s, p, Decimal(n)) && Delimited(s, p + |Decimal(n)|)
    ensures ScanScalar(s, p) == Good(Number(n as real), p + |Decimal(n)|)
    ensures p < |s| && IsDigit(s[p])
  {
    var digits := Decimal(n);
    var e := p + |digits|;
    DecimalDigits(n);
    assert forall i | 0 <= i < |digits| :: s[p + i] == digits[i] by {
      forall i | 0 <= i < |digits| ensures s[p + i] == digits[i] {
        SpelledFirst(s, p, digits, i);
      }
    }
    assert forall i | p <= i < e :: s[i] == digits[i - p];
    assert s[p] == digits[0];
    DigitsSkipped(s, p + 1, e);
    DigitsSkipped(digits, 1, |digits|);
    assert NumberEnd(s, p) == e && NumberEnd(digits, 0) == |digits|;
    assert s[p..e] == digits;
    assert NumberValue(digits) == n as real;
  }

  // ---------------------------------------------------------------------------------------------
  // Reading back everything
  // ---------------------------------------------------------------------------------------------

  predicate OpensValue(c: char) {
    c == '"' || c == '[' || c == '{' || c == 'n' || IsDigit(c)
  }

  lemma {:induction false} DumpsOpens(v: Plain)
    ensures Dumps(v) != [] && OpensValue(Dumps(v)[0])
  {
    if v.Whole? {
      DecimalDigits(v.n);
    }
  }

  lemma {:induction false} NoBlank(s: string, p: nat)
    requires p < |s| && !IsSpace(s[p])
    ensures SkipBlanks(s, p) == p
  {
  }

  lemma {:induction false} SeparatorReads(s: string, p: nat, closing: char)
    requires p < |s| && !IsSpace(closing) && closing != ','
    ensures s[p] == closing ==> ScanSeparator(s, p, closing) == Closed(p + 1)
    ensures s[p] == ',' && p + 1 < |s| && !IsSpace(s[p + 1]) && s[p + 1] != closing ==>
      ScanSeparator(s, p, closing) == More(p + 1)
  {
  }

  /** A scan of listed parts: how the list and one part are read, and what closes it. */
  datatype Listing<!T> = Listing(
    list: (string, nat) -> Parsed<seq<T>>,
    part: (string, nat) -> Parsed<T>,
    closing: char)

  ghost predicate ReadsLast<T>(listing: Listing<T>, s: string) {
    forall p: nat {:trigger listing.part(s, p)} ::
      var first := listing.part(s, p);
      first.Good? && first.end <= |s| && ScanSeparator(s, first.end, listing.closing).Closed? ==>
        listing.list(s, p) == Good([first.value], ScanSeparator(s, first.end, listing.closing).end)
  }

  ghost predicate ReadsNext<T>(listing: Listing<T>, s: string) {
    forall p: nat {:trigger listing.part(s, p)} ::
      var first := listing.part(s, p);
      first.Good? && first.end <= |s| && ScanSeparator(s, first.end, listing.closing).More? ==>
        listing.list(s, p) == Prepend(first.value, listing.list(s, ScanSeparator(s, first.end, listing.closing).next))
  }

  /** The character is no blank, and does not close the list. */
  predicate OpensPart(c: char, closing: char) {
    !IsSpace(c) && c != closing
  }

  ghost predicate PartReads<T>(listing: Listing<T>, part: string, v: T, s: string) {
    && part != [] && OpensPart(part[0], listing.closing)
    && forall q: nat | SpelledAt(s, q, part) && Delimited(s, q + |part|) :: listing.part(s, q) == Good(v, q + |part|)
  }

  /** Where the parts of a list stand. */
  lemma {:induction false} ListPlaces(s: string, p: nat, first: string, tail: string)
    requires SpelledAt(s, p, first + ([','] + tail)) && tail != []
    ensures SpelledAt(s, p, first) && Delimited(s, p + |first|)
    ensures p + |first| + 1 < |s| && s[p + |first|] == ',' && s[p + |first| + 1] == tail[0]
    ensures SpelledAt(s, p + |first| + 1, tail)
  {
    SpelledParts(s, p, first, [','] + tail);
    SpelledParts(s, p + |first|, [','], tail);
    SpelledFirst(s, p + |first|, [','], 0);
    SpelledFirst(s, p + |first| + 1, tail, 0);
  }

  lemma {:induction false} LastPlaces(s: string, p: nat, first: string, closing: char)
    requires SpelledAt(s, p, first + [closing]) && (closing == ']' || closing == '}')
    ensures SpelledAt(s, p, first) && Delimited(s, p + |first|)
    ensures p + |first| < |s| && s[p + |first|] == closing
  {
    SpelledParts(s, p, first, [closing]);
    SpelledFirst(s, p + |first|, [closing], 0);
  }

  lemma {:induction false} LastReads<T>(listing: Listing<T>, part: string, v: T, s: string, p: nat)
    requires ReadsLast(listing, s) && (listing.closing == ']' || listing.closing == '}')
    requires SpelledAt(s, p, part + [listing.closing]) && PartReads(listing, part, v, s)
    ensures listing.list(s, p) == Good([v], p + |part| + 1)
  {
    LastPlaces(s, p, part, listing.closing);
    SeparatorReads(s, p + |part|, listing.closing);
    assert listing.part(s, p) == Good(v, p + |part|);
  }

  lemma {:induction false} NextReads<T>(listing: Listing<T>, part: string, v: T, tail: string, s: string, p: nat)
    requires ReadsNext(listing, s) && tail != [] && OpensPart(tail[0], listing.closing)
    requires listing.closing == ']' || listing.closing == '}'
    requires SpelledAt(s, p, part + ([','] + tail)) && PartReads(listing, part, v, s)
    ensures listing.list(s, p) == Prepend(v, listing.list(s, p + |part| + 1)) && SpelledAt(s, p + |part| + 1, tail)
  {
    ListPlaces(s, p, part, tail);
    SeparatorReads(s, p + |part|, listing.closing);
    assert listing.part(s, p) == Good(v, p + |part|);
  }

  /** If each part reads back, so does the list. */
  lemma {:induction false} ListingReads<T>(listing: Listing<T>, parts: seq<string>, values: seq<T>, k: nat, s: string, p: nat)
    requires ReadsLast(listing, s) && ReadsNext(listing, s) && (listing.closing == ']' || listing.closing == '}')
    requires |parts| == |values| && k < |parts| && SpelledAt(s, p, Listed(parts, k, listing.closing))
    requires forall i | k <= i < |parts| :: PartReads(listing, parts[i], values[i], s)
    ensures listing.list(s, p) == Good(values[k..], p + |Listed(parts, k, listing.closing)|)
    decreases |parts| - k
  {
    if k + 1 == |parts| {
      LastReads(listing, parts[k], values[k], s, p);
      assert values[k..] == [values[k]];
    } else {
      assert PartReads(listing, parts[k + 1], values[k + 1], s);
      NextReads(listing, parts[k], values[k], Listed(parts, k + 1, listing.closing), s, p);
      ListingReads(listing, parts, values, k + 1, s, p + |parts[k]| + 1);
      assert values[k..] == [values[k]] + values[k + 1..];
    }
  }

  const ITEMS := Listing(ScanItems, ScanValue, ']')
  const MEMBERS := Listing(ScanMembers, ScanMember, '}')

  lemma {:induction false} ItemStep(s: string, p: nat)
    ensures var first := ScanValue(s, p);
      first.Good? ==>
        var separator := ScanSeparator(s, first.end, ']');
        && (separator.Closed? ==> ScanItems(s, p) == Good([first.value], separator.end))
        && (separator.More? ==> ScanItems(s, p) == Prepend(first.value, ScanItems(s, separator.next)))
  {
  }

  lemma {:induction false} MemberStep(s: string, p: nat)
    ensures var first := ScanMember(s, p);
      first.Good? ==>
        var separator := ScanSeparator(s, first.end, '}');
        && (separator.Closed? ==> ScanMembers(s, p) == Good([first.value], separator.end))
        && (separator.More? ==> ScanMembers(s, p) == Prepend(first.value, ScanMembers(s, separator.next)))
  {
  }

  lemma {:induction false} ItemsAreListed(s: string)
    ensures ReadsLast(ITEMS, s) && ReadsNext(ITEMS, s)
  {
    forall p: nat {
      ItemStep(s, p);
    }
  }

  lemma {:induction false} MembersAreListed(s: string)
    ensures ReadsLast(MEMBERS, s) && ReadsNext(MEMBERS, s)
  {
    forall p: nat {
      MemberStep(s, p);
    }
  }

  /** What is written decodes to the value it stands for, whatever is written around it. */
  lemma {:induction false} RoundTrip(v: Plain, s: string, p: nat)
    requires WellFormed(v) && SpelledAt(s, p, Dumps(v)) && Delimited(s, p + |Dumps(v)|)
    ensures ScanValue(s, p) == Good(AsJson(v), p + |Dumps(v)|)
    decreases v, 2
  {
    DumpsOpens(v);
    SpelledFirst(s, p, Dumps(v), 0);
    match v {
      case Nothing =>
      case Whole(n) => WholeReads(n, s, p);
      case Words(text) => StringReads(text, s, p);
      case List(items) => ListReads(v, s, p);
      case Record(fields) => RecordReads(v, s, p);
    }
  }

  lemma {:induction false} ItemsRead(v: Plain, s: string, p: nat)
    requires v.List? && v.items != [] && WellFormed(v)
    requires SpelledAt(s, p, Listed(DumpsItems(v.items, v), 0, ']'))
    ensures ScanItems(s, p) == Good(AsJsons(v.items, v), p + |Listed(DumpsItems(v.items, v), 0, ']')|)
    decreases v, 0
  {
    var parts, values := DumpsItems(v.items, v), AsJsons(v.items, v);
    ItemsAreListed(s);
    forall i | 0 <= i < |parts| ensures PartReads(ITEMS, parts[i], values[i], s) {
      AsJsonsAt(v.items, v, i);
      ItemReads(v.items[i], s);
    }
    ListingReads(ITEMS, parts, values, 0, s, p);
    assert values[0..] == values;
  }

  lemma {:induction false} ItemReads(item: Plain, s: string)
    requires WellFormed(item)
    ensures PartReads(ITEMS, Dumps(item), AsJson(item), s)
    decreases item, 3
  {
    DumpsOpens(item);
    forall q: nat | SpelledAt(s, q, Dumps(item)) && Delimited(s, q + |Dumps(item)|)
      ensures ScanValue(s, q) == Good(AsJson(item), q + |Dumps(item)|)
    {
      RoundTrip(item, s, q);
    }
  }

  lemma {:induction false} AsJsonsAt(items: seq<Plain>, whole: Plain, i: nat)
    requires (forall j | 0 <= j < |items| :: items[j] < whole) && i < |items|
    ensures AsJsons(items, whole)[i] == AsJson(items[i])
  {
    if i > 0 {
      AsJsonsAt(items[1..], whole, i - 1);
    }
  }

  lemma {:induction false} EmptyListReads(s: string, p: nat)
    requires p + 1 < |s| && s[p] == '[' && s[p + 1] == ']'
    ensures ScanValue(s, p) == Good(Array([]), p + 2)
  {
    NoBlank(s, p + 1);
  }

  lemma {:induction false} ItemsClose(s: string, p: nat, items: seq<Json>, end: nat)
    requires p + 1 < |s| && s[p] == '[' && SkipBlanks(s, p + 1) == p + 1 && s[p + 1] != ']'
    requires ScanItems(s, p + 1) == Good(items, end)
    ensures ScanValue(s, p) == Good(Array(items), end)
  {
  }

  lemma {:induction false} ListReads(v: Plain, s: string, p: nat)
    requires v.List? && WellFormed(v) && SpelledAt(s, p, Dumps(v))
    ensures ScanValue(s, p) == Good(AsJson(v), p + |Dumps(v)|)
    decreases v, 1
  {
    var listed := Listed(DumpsItems(v.items, v), 0, ']');
    Opened(s, p, "[", listed);
    if v.items == [] {
      EmptyListReads(s, p);
    } else {
      DumpsOpens(v.items[0]);
      ItemsRead(v, s, p + 1);
      NoBlank(s, p + 1);
      ItemsClose(s, p, AsJsons(v.items, v), p + 1 + |listed|);
    }
  }

  /** Where the bracket and the rest of a list or a record stand. */
  lemma {:induction false} Opened(s: string, p: nat, bracket: string, rest: string)
    requires |bracket| == 1 && rest != [] && SpelledAt(s, p, bracket + rest)
    ensures p + 1 < |s| && s[p] == bracket[0] && s[p + 1] == rest[0] && SpelledAt(s, p + 1, rest)
  {
    SpelledParts(s, p, bracket, rest);
    SpelledFirst(s, p, bracket, 0);
    SpelledFirst(s, p + 1, rest, 0);
  }

  lemma {:induction false} SortedReads(fields: seq<Field>, whole: Plain)
    requires KeysDiffer(fields) && forall i | 0 <= i < |fields| :: fields[i].value < whole && WellFormed(fields[i].value)
    ensures forall i | 0 <= i < |Sort(fields)| :: Sort(fields)[i].value < whole && WellFormed(Sort(fields)[i].value)
    ensures Fields(Pairs(Sort(fields), whole)) == Fields(Pairs(fields, whole))
    ensures fields != [] ==> Sort(fields) != []
  {
    var sorted := Sort(fields);
    SortedAreFields(fields);
    SortSorts(fields);
    forall i, j | 0 <= i < j < |sorted| ensures sorted[i].key != sorted[j].key {
      BeforeIsStrict(sorted[i].key, sorted[j].key, sorted[i].key);
    }
    ArrangedAlike(sorted, fields, whole);
    assert |multiset(sorted)| == |multiset(fields)|;
  }

  lemma {:induction false} MembersRead(fields: seq<Field>, whole: Plain, s: string, p: nat)
    requires (forall i | 0 <= i < |fields| :: fields[i].value < whole && WellFormed(fields[i].value)) && fields != []
    requires SpelledAt(s, p, Listed(DumpsFields(fields, whole), 0, '}'))
    ensures ScanMembers(s, p) == Good(Pairs(fields, whole), p + |Listed(DumpsFields(fields, whole), 0, '}')|)
    decreases whole, 0
  {
    var parts, values := DumpsFields(fields, whole), Pairs(fields, whole);
    MembersAreListed(s);
    forall i | 0 <= i < |parts| ensures PartReads(MEMBERS, parts[i], values[i], s) {
      PairAt(fields, whole, i);
      FieldReads(fields[i], s);
    }
    ListingReads(MEMBERS, parts, values, 0, s, p);
    assert values[0..] == values;
  }

  lemma {:induction false} FieldReads(field: Field, s: string)
    requires WellFormed(field.value)
    ensures PartReads(MEMBERS, DumpsField(field), (field.key, AsJson(field.value)), s)
    decreases field.value, 4
  {
    forall q: nat | SpelledAt(s, q, DumpsField(field)) && Delimited(s, q + |DumpsField(field)|)
      ensures ScanMember(s, q) == Good((field.key, AsJson(field.value)), q + |DumpsField(field)|)
    {
      MemberReads(field, s, q);
    }
  }

  lemma {:induction false} EmptyRecordReads(s: string, p: nat)
    requires p + 1 < |s| && s[p] == '{' && s[p + 1] == '}'
    ensures ScanValue(s, p) == Good(Object(map[]), p + 2)
  {
    NoBlank(s, p + 1);
  }

  lemma {:induction false} MembersClose(s: string, p: nat, members: seq<(string, Json)>, end: nat)
    requires p + 1 < |s| && s[p] == '{' && SkipBlanks(s, p + 1) == p + 1 && s[p + 1] != '}'
    requires ScanMembers(s, p + 1) == Good(members, end)
    ensures ScanValue(s, p) == Good(Object(Fields(members)), end)
  {
  }

  lemma {:induction false} RecordReads(v: Plain, s: string, p: nat)
    requires v.Record? && WellFormed(v) && SpelledAt(s, p, Dumps(v))
    ensures ScanValue(s, p) == Good(AsJson(v), p + |Dumps(v)|)
    decreases v, 1
  {
    SortedReads(v.fields, v);
    var sorted := Sort(v.fields);
    var listed := Listed(DumpsFields(sorted, v), 0, '}');
    Opened(s, p, "{", listed);
    if v.fields == [] {
      EmptyRecordReads(s, p);
    } else {
      MembersRead(sorted, v, s, p + 1);
      NoBlank(s, p + 1);
      MembersClose(s, p, Pairs(sorted, v), p + 1 + |listed|);
    }
  }

  lemma {:induction false} KeyReads(key: string, s: string, p: nat)
    requires SpelledAt(s, p, Quote(key) + ":")
    requires var q := p + |Quote(key)| + 1; q < |s| && !IsSpace(s[q])
    ensures p < |s| && s[p] == '"' && ScanKey(s, p) == Good(key, p + |Quote(key)| + 1)
  {
    SpelledParts(s, p, Quote(key), ":");
    SpelledFirst(s, p + |Quote(key)|, ":", 0);
    StringReads(key, s, p);
    NoBlank(s, p + |Quote(key)|);
    NoBlank(s, p + |Quote(key)| + 1);
  }

  lemma {:induction false} MemberFound(s: string, p: nat, key: string, start: nat, v: Json, end: nat)
    requires ScanKey(s, p) == Good(key, start) && ScanValue(s, start) == Good(v, end)
    ensures ScanMember(s, p) == Good((key, v), end)
  {
  }

  lemma {:induction false} KeyPlaces(s: string, p: nat, key: string, value: string)
    requires SpelledAt(s, p, Quote(key) + ":" + value) && value != [] && OpensValue(value[0])
    ensures ScanKey(s, p) == Good(key, p + |Quote(key)| + 1) && SpelledAt(s, p + |Quote(key)| + 1, value)
  {
    SpelledParts(s, p, Quote(key) + ":", value);
    SpelledFirst(s, p + |Quote(key)| + 1, value, 0);
    KeyReads(key, s, p);
  }

  lemma {:induction false} MemberReads(field: Field, s: string, p: nat)
    requires WellFormed(field.value) && SpelledAt(s, p, DumpsField(field)) && Delimited(s, p + |DumpsField(field)|)
    ensures ScanMember(s, p) == Good((field.key, AsJson(field.value)), p + |DumpsField(field)|)
    decreases field.value, 3
  {
    var start, value := p + |Quote(field.key)| + 1, Dumps(field.value);
    DumpsOpens(field.value);
    KeyPlaces(s, p, field.key, value);
    RoundTrip(field.value, s, start);
    MemberFound(s, p, field.key, start, AsJson(field.value), start + |value|);
  }

  lemma {:induction false} DumpsDecodes(v: Plain)
    requires WellFormed(v)
    ensures ScanValue(Dumps(v), 0) == Good(AsJson(v), |Dumps(v)|)
  {
    RoundTrip(v, Dumps(v), 0);
  }
}
