/** The streaming scanner over a JSON array: one element at a time, each with its exact text.

    The specification (`Step`, `ScanAll`) reads the whole text in one buffer. The class
    `RecordScanner` reads it in chunks, with reads that may come back short, and is proved to
    behave exactly like the specification. */
module Records {
  import opened Wrappers

  // ---------------------------------------------------------------------------------------------
  // The decoder the scanner is built on
  // ---------------------------------------------------------------------------------------------

  /** What decoding one value at an index answers: the value and where it ended, or where and how
      the text was refused. */
  datatype Decoded<V> = Value(value: V, end: nat) | Invalid(unterminated: bool, at: nat) {

    function Shift(offset: nat): Decoded<V> {
      match this
      case Value(v, e) => Value(v, e + offset)
      case Invalid(u, a) => Invalid(u, a + offset)
    }
  }

  datatype Decoder<!V> = Decoder(decode: (string, nat) -> Decoded<V>, isNumber: V -> bool)

  const TRUNCATION_SLACK := 16

  predicate IsNumberCharacter(c: char) {
    '0' <= c <= '9' || c == '.' || c == 'e' || c == 'E' || c == '+' || c == '-'
  }

  predicate IsSpace(c: char) {
    c == ' ' || c == '\t' || c == '\r' || c == '\n'
  }

  predicate CouldBeTruncation<V>(d: Decoded<V>, buffered: nat)
    requires d.Invalid?
  {
    d.unterminated || d.at >= buffered - TRUNCATION_SLACK
  }

  /** Whether more text could change the value just decoded. */
  predicate MayContinue<V>(decoder: Decoder<V>, v: V, buffer: string, end: nat)
    requires end <= |buffer|
  {
    end == |buffer| || (decoder.isNumber(v) && IsNumberCharacter(buffer[end]))
  }

  /** A value ends after it starts, inside the text. */
  predicate Bounded<V>(decoder: Decoder<V>, s: string, p: nat)
    requires p < |s|
  {
    var d := decoder.decode(s, p);
    d.Value? ==> p < d.end <= |s|
  }

  /** The answer depends only on the text from the position on. */
  ghost predicate Local<V>(decoder: Decoder<V>, s: string, p: nat)
    requires p < |s|
  {
    decoder.decode(s, p) == decoder.decode(s[p..], 0).Shift(p)
  }

  /** An answer the scanner trusts survives any extension of the buffer. */
  ghost predicate Extends<V>(decoder: Decoder<V>, s: string, p: nat, more: string)
    requires p < |s| && Bounded(decoder, s, p)
  {
    match decoder.decode(s, p)
    case Value(v, end) => !MayContinue(decoder, v, s, end) ==> decoder.decode(s + more, p) == Value(v, end)
    case Invalid(u, at) =>
      !CouldBeTruncation(decoder.decode(s, p), |s|) ==> decoder.decode(s + more, p).Invalid?
  }

  /** A value is decided by its own text: cutting the buffer anywhere after it changes nothing. */
  ghost predicate Truncates<V>(decoder: Decoder<V>, s: string, p: nat, n: nat)
    requires p < |s| && n <= |s|
  {
    var d := decoder.decode(s, p);
    d.Value? && p < d.end <= n ==> decoder.decode(s[..n], p) == d
  }

  ghost predicate Lawful<V>(decoder: Decoder<V>) {
    && (forall s: string, p: nat | p < |s| :: Bounded(decoder, s, p))
    && (forall s: string, p: nat | p < |s| :: Local(decoder, s, p))
    && (forall s: string, p: nat, more: string | p < |s| && Bounded(decoder, s, p) ::
          Extends(decoder, s, p, more))
    && (forall s: string, p: nat, n: nat | p < |s| && n <= |s| :: Truncates(decoder, s, p, n))
  }

  // ---------------------------------------------------------------------------------------------
  // The specification: the whole text in one buffer
  // ---------------------------------------------------------------------------------------------

  datatype ExportRecord<V> = ExportRecord(raw: string, value: V)

  datatype Phase = Start | First | After | Done

  /** Why a scan ended early. The last two come from the stream rather than from the text. */
  datatype Refusal = NotAnArray | EndsEarly | NotJson | ContinuesAfter | Unreadable | Unscannable

  datatype Outcome<V> = Element(record: ExportRecord<V>) | Stop | Refused(why: Refusal)

  datatype Stepped<V> = Stepped(outcome: Outcome<V>, rest: string, phase: Phase)

  const BYTE_ORDER_MARK: char := '\U{FEFF}'

  function SkipSpace(s: string): (r: string)
    ensures |r| <= |s|
    ensures r != [] ==> !IsSpace(r[0])
  {
    if s != [] && IsSpace(s[0]) then SkipSpace(s[1..]) else s
  }

  function AfterArray<V>(rest: string): (step: Stepped<V>)
    ensures !step.outcome.Element? && step.phase.Done?
  {
    if SkipSpace(rest) != [] then Stepped(Refused(ContinuesAfter), [], Done) else Stepped(Stop, [], Done)
  }

  function DecodeHere<V>(decoder: Decoder<V>, rest: string): (step: Stepped<V>)
    requires Lawful(decoder) && rest != []
    ensures if step.outcome.Element? then |step.rest| < |rest| && step.phase.After? else step.phase.Done?
  {
    assert Bounded(decoder, rest, 0);
    match decoder.decode(rest, 0)
    case Value(v, end) => Stepped(Element(ExportRecord(rest[..end], v)), rest[end..], After)
    case Invalid(_, _) => Stepped(Refused(NotJson), [], Done)
  }

  function NextElement<V>(decoder: Decoder<V>, text: string, phase: Phase): (step: Stepped<V>)
    requires Lawful(decoder) && (phase.First? || phase.After?)
    ensures if step.outcome.Element? then |step.rest| < |text| && step.phase.After? else step.phase.Done?
  {
    var rest := SkipSpace(text);
    if rest == [] then Stepped(Refused(EndsEarly), [], Done)
    else if rest[0] == ']' then AfterArray(rest[1..])
    else if phase.First? then DecodeHere(decoder, rest)
    else if rest[0] != ',' then Stepped(Refused(NotJson), [], Done)
    else
      var more := SkipSpace(rest[1..]);
      if more == [] then Stepped(Refused(EndsEarly), [], Done)
      else if more[0] == ']' then AfterArray(more[1..])
      else DecodeHere(decoder, more)
  }

  function SkipMark(rest: string): (r: string)
    ensures |r| <= |rest|
  {
    if rest != [] && rest[0] == BYTE_ORDER_MARK then SkipSpace(rest[1..]) else rest
  }

  /** One call of the iterator, on a text that is all in the buffer. */
  function Step<V>(decoder: Decoder<V>, text: string, phase: Phase): (step: Stepped<V>)
    requires Lawful(decoder)
    ensures if step.outcome.Element? then |step.rest| < |text| && step.phase.After? else step.phase.Done?
  {
    match phase
    case Done => Stepped(Stop, [], Done)
    case Start =>
      var rest := SkipMark(SkipSpace(text));
      if rest == [] || rest[0] != '[' then Stepped(Refused(NotAnArray), [], Done)
      else NextElement(decoder, rest[1..], First)
    case _ => NextElement(decoder, text, phase)
  }

  datatype Scan<V> = Scan(records: seq<ExportRecord<V>>, ending: Outcome<V>)

  /** Every element, and how the scan ended. */
  function ScanAll<V>(decoder: Decoder<V>, text: string, phase: Phase): (scan: Scan<V>)
    requires Lawful(decoder)
    ensures !scan.ending.Element?
    decreases |text|
  {
    var step := Step(decoder, text, phase);
    if step.outcome.Element? then
      var later := ScanAll(decoder, step.rest, step.phase);
      Scan([step.outcome.record] + later.records, later.ending)
    else
      Scan([], step.outcome)
  }

  // ---------------------------------------------------------------------------------------------
  // What the specification promises about the text
  // ---------------------------------------------------------------------------------------------

  predicate Blank(s: string) {
    forall c | c in s :: IsSpace(c)
  }

  /** `s` is the rest of an array, read from `phase`, whose remaining elements are exactly `raws`.
      A comma before the closing bracket is tolerated after an element. */
  ghost predicate ArrayTail(s: string, raws: seq<string>, phase: Phase)
    decreases |raws|
  {
    if raws == [] then
      exists a, b, c :: Closing(s, a, b, c, phase)
    else
      exists a, b, tail :: Leading(s, a, b, raws[0], tail, phase) && ArrayTail(tail, raws[1..], After)
  }

  predicate Closing(s: string, a: string, b: string, c: string, phase: Phase) {
    && Blank(a) && Blank(b) && Blank(c)
    && (s == a + "]" + c || (phase.After? && s == a + "," + b + "]" + c))
  }

  predicate Leading(s: string, a: string, b: string, raw: string, tail: string, phase: Phase) {
    && Blank(a) && Blank(b) && raw != []
    && s == a + (if phase.After? then "," + b else "") + raw + tail
  }

  function Raws<V>(records: seq<ExportRecord<V>>): (raws: seq<string>)
    ensures |raws| == |records|
  {
    if records == [] then [] else [records[0].raw] + Raws(records[1..])
  }

  lemma {:induction false} SkipSpaceSplits(s: string)
    ensures var r := SkipSpace(s); Blank(s[..|s| - |r|]) && s == s[..|s| - |r|] + r
  {
    if s != [] && IsSpace(s[0]) {
      SkipSpaceSplits(s[1..]);
      var r := SkipSpace(s);
      assert s[..|s| - |r|] == [s[0]] + s[1..][..|s| - 1 - |r|];
    }
  }

  /** Between two elements, and before the first, only blanks and one comma are skipped. */
  lemma {:induction false} GapLayout<V>(decoder: Decoder<V>, text: string, phase: Phase) returns (a: string, b: string, rest: string)
    requires Lawful(decoder) && (phase.First? || phase.After?)
    requires Step(decoder, text, phase).outcome.Element?
    ensures Blank(a) && Blank(b) && text == a + (if phase.After? then "," + b else "") + rest
    ensures rest != [] && Step(decoder, text, phase) == DecodeHere(decoder, rest)
  {
    SkipSpaceSplits(text);
    rest := SkipSpace(text);
    a, b := text[..|text| - |rest|], [];
    if phase.First? {
      assert a + "" == a;
    } else {
      var more := SkipSpace(rest[1..]);
      SkipSpaceSplits(rest[1..]);
      b := rest[1..][..|rest[1..]| - |more|];
      Join(a, rest, b, more);
      rest := more;
    }
  }

  lemma {:induction false} Join(a: string, rest: string, b: string, more: string)
    requires rest != [] && rest[0] == ',' && rest[1..] == b + more
    ensures a + rest == a + ("," + b) + more
  {
  }

  /** A step that yields an element leaves the text as gap + element + rest. */
  lemma {:induction false} StepLayout<V>(decoder: Decoder<V>, text: string, phase: Phase) returns (a: string, b: string)
    requires Lawful(decoder) && (phase.First? || phase.After?)
    requires Step(decoder, text, phase).outcome.Element?
    ensures var step := Step(decoder, text, phase);
            var record := step.outcome.record;
            && Leading(text, a, b, record.raw, step.rest, phase)
            && decoder.decode(record.raw, 0) == Value(record.value, |record.raw|)
  {
    var rest;
    a, b, rest := GapLayout(decoder, text, phase);
    ElementLayout(decoder, rest);
    var step := Step(decoder, text, phase);
    var gap := a + (if phase.After? then "," + b else "");
    assert gap + (step.outcome.record.raw + step.rest) == gap + step.outcome.record.raw + step.rest;
  }

  lemma {:induction false} ElementLayout<V>(decoder: Decoder<V>, rest: string)
    requires Lawful(decoder) && rest != []
    requires DecodeHere(decoder, rest).outcome.Element?
    ensures var step := DecodeHere(decoder, rest);
            var record := step.outcome.record;
            && record.raw != [] && rest == record.raw + step.rest
            && decoder.decode(record.raw, 0) == Value(record.value, |record.raw|)
  {
    assert Bounded(decoder, rest, 0);
    assert Truncates(decoder, rest, 0, decoder.decode(rest, 0).end);
  }

  lemma {:induction false} PlainClosing(text: string, phase: Phase) returns (a: string, c: string)
    requires var rest := SkipSpace(text); rest != [] && rest[0] == ']' && SkipSpace(rest[1..]) == []
    ensures Closing(text, a, [], c, phase)
  {
    SkipSpaceSplits(text);
    var rest := SkipSpace(text);
    a, c := text[..|text| - |rest|], rest[1..];
    OnlySpace(c);
    JoinBracket(a, rest, c);
  }

  lemma {:induction false} CommaClosing(text: string) returns (a: string, b: string, c: string)
    requires var rest := SkipSpace(text); rest != [] && rest[0] == ','
    requires var more := SkipSpace(SkipSpace(text)[1..]); more != [] && more[0] == ']' && SkipSpace(more[1..]) == []
    ensures Closing(text, a, b, c, After)
  {
    SkipSpaceSplits(text);
    var rest := SkipSpace(text);
    SkipSpaceSplits(rest[1..]);
    var more := SkipSpace(rest[1..]);
    a, b, c := text[..|text| - |rest|], rest[1..][..|rest[1..]| - |more|], more[1..];
    OnlySpace(c);
    Join(a, rest, b, more);
    JoinClosing(a, b, more, c);
  }

  lemma {:induction false} StopLayout<V>(decoder: Decoder<V>, text: string, phase: Phase) returns (a: string, b: string, c: string)
    requires Lawful(decoder) && (phase.First? || phase.After?)
    requires Step(decoder, text, phase).outcome.Stop?
    ensures Closing(text, a, b, c, phase)
  {
    if SkipSpace(text)[0] == ']' {
      b := [];
      a, c := PlainClosing(text, phase);
    } else {
      a, b, c := CommaClosing(text);
    }
  }

  lemma {:induction false} JoinBracket(a: string, rest: string, c: string)
    requires rest != [] && rest[0] == ']' && rest[1..] == c
    ensures a + rest == a + "]" + c
  {
  }

  lemma {:induction false} OnlySpace(s: string)
    requires SkipSpace(s) == []
    ensures Blank(s)
  {
    SkipSpaceSplits(s);
    assert s[..|s|] == s;
  }

  lemma {:induction false} JoinClosing(a: string, b: string, more: string, c: string)
    requires more != [] && more[0] == ']' && more[1..] == c
    ensures a + ("," + b) + more == a + "," + b + "]" + c
  {
  }

  /** A scan that ends well accounts for every character of the text: blanks, separators and the
      exact text of each element, in order. */
  lemma {:induction false} ScanTilesTheText<V>(decoder: Decoder<V>, text: string, phase: Phase)
    requires Lawful(decoder) && (phase.First? || phase.After?) && ScanAll(decoder, text, phase).ending.Stop?
    ensures ArrayTail(text, Raws(ScanAll(decoder, text, phase).records), phase)
    decreases |text|
  {
    var step := Step(decoder, text, phase);
    if step.outcome.Element? {
      var a, b := StepLayout(decoder, text, phase);
      ScanTilesTheText(decoder, step.rest, step.phase);
      var scan, later := ScanAll(decoder, text, phase), ScanAll(decoder, step.rest, step.phase);
      assert scan.records[1..] == later.records;
      assert Raws(scan.records)[1..] == Raws(later.records);
      assert Leading(text, a, b, Raws(scan.records)[0], step.rest, phase);
    } else {
      var a, b, c := StopLayout(decoder, text, phase);
    }
  }

  ghost predicate DecodesAlone<V>(decoder: Decoder<V>, record: ExportRecord<V>) {
    decoder.decode(record.raw, 0) == Value(record.value, |record.raw|)
  }

  ghost predicate AllDecodeAlone<V>(decoder: Decoder<V>, records: seq<ExportRecord<V>>) {
    forall r | 0 <= r < |records| :: DecodesAlone(decoder, records[r])
  }

  /** Each element's text decodes, alone, to the value yielded. */
  lemma {:induction false} RecordsDecodeAlone<V>(decoder: Decoder<V>, text: string, phase: Phase)
    requires Lawful(decoder) && (phase.First? || phase.After?)
    ensures AllDecodeAlone(decoder, ScanAll(decoder, text, phase).records)
    decreases |text|
  {
    var step := Step(decoder, text, phase);
    if step.outcome.Element? {
      var a, b := StepLayout(decoder, text, phase);
      RecordsDecodeAlone(decoder, step.rest, step.phase);
      var records, later := ScanAll(decoder, text, phase).records, ScanAll(decoder, step.rest, step.phase).records;
      assert DecodesAlone(decoder, step.outcome.record);
      forall r | 0 <= r < |records| ensures DecodesAlone(decoder, records[r]) {
        if r > 0 {
          assert DecodesAlone(decoder, later[r - 1]) && records[r] == later[r - 1];
        }
      }
    }
  }

  // ---------------------------------------------------------------------------------------------
  // The scanner
  // ---------------------------------------------------------------------------------------------

  datatype Reading = Chunk(text: string) | Failed(why: Refusal)

  /** A text stream. A read may come back shorter than it was asked for; it comes back empty only
      at the end. A stream that is not `healthy` may also fail. */
  class TextStream {
    var remaining: string
    const healthy: bool
    /** Every read returns as much as was asked for, until the end. */
    const fills: bool

    constructor (text: string, healthy: bool, fills: bool)
      ensures remaining == text && this.healthy == healthy && this.fills == fills
    {
      remaining := text;
      this.healthy := healthy;
      this.fills := fills;
    }

    method Read(size: nat) returns (reading: Reading)
      requires size > 0
      modifies this
      ensures match reading
              case Failed(why) => !healthy && (why.Unreadable? || why.Unscannable?) && remaining == old(remaining)
              case Chunk(text) =>
                && text + remaining == old(remaining) && |text| <= size
                && (text == [] <==> old(remaining) == [])
                && (fills ==> |text| == size || remaining == [])
    {
      var broken: bool := *;
      var unreadable: bool := *;
      if broken && !healthy {
        return Failed(if unreadable then Unreadable else Unscannable);
      }
      var most := if size <= |remaining| then size else |remaining|;
      var n: int := *;
      if fills || n > most || n <= 0 {
        n := most;
      }
      reading := Chunk(remaining[..n]);
      remaining := remaining[n..];
    }
  }

  ghost function Pow2(n: nat): nat {
    if n == 0 then 1 else 2 * Pow2(n - 1)
  }

  /** The text starts with a value that is followed by a character that settles it. */
  predicate Delimited<V>(decoder: Decoder<V>, rest: string)
    requires rest != []
  {
    var d := decoder.decode(rest, 0);
    d.Value? && d.end < |rest| && !MayContinue(decoder, d.value, rest, d.end)
  }

  class RecordScanner<V> {
    const decoder: Decoder<V>
    const stream: TextStream
    const chunkSize: nat
    var buffer: string
    var position: nat
    var atEnd: bool
    var phase: Phase

    constructor (decoder: Decoder<V>, stream: TextStream, chunkSize: nat)
      requires Lawful(decoder) && chunkSize > 0
      ensures Valid() && this.decoder == decoder && this.stream == stream
      ensures phase == Start && Rest() == stream.remaining
    {
      this.decoder := decoder;
      this.stream := stream;
      this.chunkSize := chunkSize;
      buffer := [];
      position := 0;
      atEnd := false;
      phase := Start;
    }

    ghost predicate Valid()
      reads this, stream
    {
      && Lawful(decoder) && chunkSize > 0 && position <= |buffer|
      && (atEnd ==> stream.remaining == [])
    }

    /** What is left of the text: the unread part of the buffer, and of the stream. */
    ghost function Rest(): string
      reads this, stream
      requires Valid()
    {
      buffer[position..] + stream.remaining
    }

    method ReadMore(size: nat) returns (more: Result<bool, Refusal>)
      requires Valid() && size > 0
      modifies this`buffer, this`atEnd, stream
      ensures Valid() && Rest() == old(Rest()) && old(buffer) <= buffer
      ensures more.Failure? ==> !stream.healthy && (more.error.Unreadable? || more.error.Unscannable?)
      ensures more.Success? ==> (more.value <==> |stream.remaining| < old(|stream.remaining|))
      ensures more.Success? && more.value ==> |buffer| > old(|buffer|)
      ensures more.Success? && !more.value ==> atEnd && buffer == old(buffer)
      ensures more.Success? && stream.fills ==> |buffer| == old(|buffer|) + size || stream.remaining == []
    {
      if atEnd {
        return Success(false);
      }
      var reading := stream.Read(size);
      match reading {
        case Failed(why) =>
          return Failure(why);
        case Chunk(text) =>
          if text == [] {
            atEnd := true;
            return Success(false);
          }
          buffer := buffer + text;
          return Success(true);
      }
    }

    /** The next character that is not whitespace, reading as needed; None at the end. */
    method Peek() returns (next: Result<Option<char>, Refusal>)
      requires Valid()
      modifies this`buffer, this`position, this`atEnd, stream
      ensures Valid()
      ensures next.Failure? ==> !stream.healthy && (next.error.Unreadable? || next.error.Unscannable?)
      ensures next.Success? ==> Rest() == SkipSpace(old(Rest()))
      ensures next.Success? && next.value.None? ==> Rest() == []
      ensures next.Success? && next.value.Some? ==> position < |buffer| && buffer[position] == next.value.value
    {
      while true
        invariant Valid() && SkipSpace(Rest()) == SkipSpace(old(Rest()))
        decreases |Rest()|, if position >= |buffer| then 1 else 0
      {
        if position >= |buffer| {
          buffer := [];
          position := 0;
          var more :- ReadMore(chunkSize);
          if !more {
            return Success(None);
          }
        } else {
          var character := buffer[position];
          if !IsSpace(character) {
            assert Rest()[0] == character;
            return Success(Some(character));
          }
          assert Rest()[1..] == buffer[position + 1..] + stream.remaining;
          position := position + 1;
        }
      }
    }

    /** Read at least as much again as the element seen so far, and at least one chunk. */
    method Grow() returns (more: Result<bool, Refusal>)
      requires Valid()
      modifies this`buffer, this`atEnd, stream
      ensures Valid() && Rest() == old(Rest()) && old(buffer) <= buffer
      ensures more.Failure? ==> !stream.healthy && (more.error.Unreadable? || more.error.Unscannable?)
      ensures more.Success? ==> (more.value <==> |stream.remaining| < old(|stream.remaining|))
      ensures more.Success? && !more.value ==> atEnd
      ensures more.Success? && stream.fills ==>
                |buffer| - position >= 2 * (old(|buffer|) - position) || stream.remaining == []
    {
      var seen := |buffer| - position;
      more := ReadMore(if chunkSize >= seen then chunkSize else seen);
    }

    /** Decode the element at the position, reading more until the answer can be trusted. */
    method DecodeOne() returns (record: Result<ExportRecord<V>, Refusal>, ghost attempts: nat)
      requires Valid() && position < |buffer|
      modifies this, stream
      ensures Valid()
      ensures record.Failure? && record.error != NotJson ==>
                !stream.healthy && (record.error.Unreadable? || record.error.Unscannable?)
      ensures record.Failure? && record.error == NotJson ==>
                DecodeHere(decoder, old(Rest())).outcome == Refused(NotJson)
      ensures record.Success? ==> DecodeHere(decoder, old(Rest())) == Stepped(Element(record.value), Rest(), phase)
      // The buffer doubles, so an element of n characters costs at most 2 + log2(n) attempts.
      ensures stream.fills && Delimited(decoder, old(Rest())) && attempts >= 2 ==>
                Pow2(attempts - 2) <= decoder.decode(old(Rest()), 0).end
    {
      ghost var rest := Rest();
      ghost var whole := decoder.decode(rest, 0);
      attempts := 0;
      while true
        invariant Valid() && position == old(position) && position < |buffer| && Rest() == rest
        invariant stream.fills && Delimited(decoder, rest) && attempts >= 1 ==>
                    && Pow2(attempts - 1) <= whole.end
                    && (Pow2(attempts) <= |buffer| - position || stream.remaining == [])
        decreases |stream.remaining|, if atEnd then 0 else 1
      {
        attempts := attempts + 1;
        var answer := decoder.decode(buffer, position);
        assert Bounded(decoder, buffer, position);
        match answer {
          case Invalid(_, _) =>
            if atEnd || !CouldBeTruncation(answer, |buffer|) {
              TrustedRefusal(decoder, buffer, position, stream.remaining);
              return Failure(NotJson), attempts;
            }
          case Value(value, end) =>
            if atEnd || !MayContinue(decoder, value, buffer, end) {
              TrustedElement(decoder, buffer, position, stream.remaining, value, end);
              var raw := buffer[position..end];
              buffer := buffer[end..];
              position := 0;
              phase := After;
              return Success(ExportRecord(raw, value)), attempts;
            }
        }
        UnsettledAnswer(decoder, buffer, position, stream.remaining);
        var _ :- Grow();
      }
    }

    /** The array ended, so the text must too. */
    method CloseArray() returns (outcome: Outcome<V>)
      requires Valid() && position < |buffer|
      modifies this`buffer, this`position, this`atEnd, stream
      ensures Valid()
      ensures StreamFailed(outcome) || outcome == AfterArray<V>(old(Rest())[1..]).outcome
    {
      assert Rest()[1..] == buffer[position + 1..] + stream.remaining;
      position := position + 1;
      var next := Peek();
      match next {
        case Failure(why) => return Refused(why);
        case Success(None) => return Stop;
        case Success(Some(_)) => return Refused(ContinuesAfter);
      }
    }

    /** The stream, rather than the text, ended the scan. */
    predicate StreamFailed(outcome: Outcome<V>) {
      !stream.healthy && outcome.Refused? && (outcome.why.Unreadable? || outcome.why.Unscannable?)
    }

    ghost predicate Matches(outcome: Outcome<V>, step: Stepped<V>)
      reads this, stream
      requires Valid()
    {
      || StreamFailed(outcome)
      || (outcome == step.outcome && (outcome.Element? ==> Rest() == step.rest && phase == step.phase))
    }

    /** The first character that is neither blank nor a byte-order mark. */
    method PeekOpening() returns (opening: Result<Option<char>, Refusal>)
      requires Valid()
      modifies this`buffer, this`position, this`atEnd, stream
      ensures Valid()
      ensures opening.Failure? ==> !stream.healthy && (opening.error.Unreadable? || opening.error.Unscannable?)
      ensures opening.Success? ==> Rest() == SkipMark(SkipSpace(old(Rest())))
      ensures opening.Success? && opening.value.None? ==> Rest() == []
      ensures opening.Success? && opening.value.Some? ==> position < |buffer| && buffer[position] == opening.value.value
    {
      opening := Peek();
      if opening == Success(Some(BYTE_ORDER_MARK)) {
        assert Rest()[1..] == buffer[position + 1..] + stream.remaining;
        position := position + 1;
        opening := Peek();
      }
    }

    /** From the text before an element, or before the closing bracket. */
    method Advance() returns (outcome: Outcome<V>)
      requires Valid() && !phase.Done?
      modifies this, stream
      ensures Valid() && Matches(outcome, Step(decoder, old(Rest()), old(phase)))
    {
      if phase.Start? {
        var opening := PeekOpening();
        match opening {
          case Failure(why) => return Refused(why);
          case Success(character) =>
            if character != Some('[') {
              return Refused(NotAnArray);
            }
        }
        assert Rest()[1..] == buffer[position + 1..] + stream.remaining;
        position := position + 1;
        phase := First;
      }
      outcome := AdvanceInArray();
    }

    method AdvanceInArray() returns (outcome: Outcome<V>)
      requires Valid() && (phase.First? || phase.After?)
      modifies this, stream
      ensures Valid() && Matches(outcome, NextElement(decoder, old(Rest()), old(phase)))
    {
      var next := Peek();
      match next {
        case Failure(why) => return Refused(why);
        case Success(None) => return Refused(EndsEarly);
        case Success(Some(character)) =>
          if character == ']' {
            outcome := CloseArray();
            return;
          }
          if phase.After? {
            if character != ',' {
              return Refused(NotJson);
            }
            assert Rest()[1..] == buffer[position + 1..] + stream.remaining;
            position := position + 1;
            next := Peek();
            if next == Success(Some(']')) {
              outcome := CloseArray();
              return;
            }
            if next == Success(None) {
              return Refused(EndsEarly);
            }
            if next.Failure? {
              return Refused(next.error);
            }
          }
      }
      var record, _ := DecodeOne();
      outcome := match record case Success(r) => Element(r) case Failure(why) => Refused(why);
    }

    /** One call of the iterator: whatever the chunk size and however short the reads, it answers
        what a scan of the whole text in one buffer answers, unless the stream itself fails. */
    method Next() returns (outcome: Outcome<V>)
      requires Valid()
      modifies this, stream
      ensures Valid() && Matches(outcome, Step(decoder, old(Rest()), old(phase)))
      ensures outcome.Element? <==> phase.After?
      ensures !outcome.Element? ==> phase.Done?
    {
      if phase.Done? {
        return Stop;
      }
      outcome := Advance();
      if !outcome.Element? {
        phase := Done;
      }
    }

    /** The iterator run to its end. */
    method ReadAll() returns (records: seq<ExportRecord<V>>, ending: Outcome<V>)
      requires Valid()
      modifies this, stream
      ensures Valid() && phase.Done? && !ending.Element?
      ensures StreamFailed(ending) || Scan(records, ending) == ScanAll(decoder, old(Rest()), old(phase))
      ensures StreamFailed(ending) ==> records <= ScanAll(decoder, old(Rest()), old(phase)).records
    {
      records := [];
      ghost var whole := ScanAll(decoder, Rest(), phase);
      while true
        invariant Valid()
        invariant whole.records == records + ScanAll(decoder, Rest(), phase).records
        invariant whole.ending == ScanAll(decoder, Rest(), phase).ending
        decreases |Rest()|
      {
        var outcome := Next();
        if !outcome.Element? {
          return records, outcome;
        }
        OneMoreRecord(records, outcome.record, ScanAll(decoder, Rest(), phase).records);
        records := records + [outcome.record];
      }
    }
  }

  lemma {:induction false} OneMoreRecord<V>(records: seq<ExportRecord<V>>, record: ExportRecord<V>, later: seq<ExportRecord<V>>)
    ensures records + ([record] + later) == records + [record] + later
  {
  }

  /** An answer the scanner may trust is the answer a whole-text decode gives. */
  lemma {:induction false} TrustedAnswer<V>(decoder: Decoder<V>, buffer: string, position: nat, unread: string)
    requires Lawful(decoder) && position < |buffer|
    ensures Bounded(decoder, buffer, position)
    ensures var whole := decoder.decode(buffer[position..] + unread, 0);
            match decoder.decode(buffer, position)
            case Value(v, end) =>
              (unread == [] || !MayContinue(decoder, v, buffer, end)) ==> whole == Value(v, end - position)
            case Invalid(_, _) =>
              (unread == [] || !CouldBeTruncation(decoder.decode(buffer, position), |buffer|)) ==> whole.Invalid?
  {
    assert Bounded(decoder, buffer, position);
    assert Local(decoder, buffer, position);
    assert Extends(decoder, buffer, position, unread);
    assert Local(decoder, buffer + unread, position);
    assert (buffer + unread)[position..] == buffer[position..] + unread;
    if unread == [] {
      assert buffer[position..] + unread == buffer[position..];
    }
  }

  /** So a trusted value is the next element of the whole text, with the rest of it left over. */
  lemma {:induction false} TrustedElement<V>(decoder: Decoder<V>, buffer: string, position: nat, unread: string, v: V, end: nat)
    requires Lawful(decoder) && position < end <= |buffer| && decoder.decode(buffer, position) == Value(v, end)
    requires unread == [] || !MayContinue(decoder, v, buffer, end)
    ensures DecodeHere(decoder, buffer[position..] + unread)
         == Stepped(Element(ExportRecord(buffer[position..end], v)), buffer[end..][0..] + unread, After)
  {
    TrustedAnswer(decoder, buffer, position, unread);
    var rest := buffer[position..] + unread;
    assert rest[..end - position] == buffer[position..end];
    assert rest[end - position..] == buffer[end..][0..] + unread;
  }

  lemma {:induction false} TrustedRefusal<V>(decoder: Decoder<V>, buffer: string, position: nat, unread: string)
    requires Lawful(decoder) && position < |buffer|
    requires var answer := decoder.decode(buffer, position);
      answer.Invalid? && (unread == [] || !CouldBeTruncation(answer, |buffer|))
    ensures DecodeHere(decoder, buffer[position..] + unread).outcome == Refused(NotJson)
  {
    TrustedAnswer(decoder, buffer, position, unread);
  }

  /** While no answer can be trusted, the buffer ends before a delimited value and its delimiter do. */
  lemma {:induction false} UnsettledAnswer<V>(decoder: Decoder<V>, buffer: string, position: nat, unread: string)
    requires Lawful(decoder) && position < |buffer| && Bounded(decoder, buffer, position)
    requires var answer := decoder.decode(buffer, position); answer.Value? ==> MayContinue(decoder, answer.value, buffer, answer.end)
    ensures var rest := buffer[position..] + unread;
      Delimited(decoder, rest) ==> decoder.decode(rest, 0).end >= |buffer| - position && unread != []
  {
    var rest, n := buffer[position..] + unread, |buffer| - position;
    if Delimited(decoder, rest) && decoder.decode(rest, 0).end < n {
      SettledAnswer(decoder, buffer, position, unread);
      assert false;
    }
  }

  /** Once the buffer holds a delimited value and its delimiter, decoding settles it. */
  lemma {:induction false} SettledAnswer<V>(decoder: Decoder<V>, buffer: string, position: nat, unread: string)
    requires Lawful(decoder) && position < |buffer|
    requires var rest := buffer[position..] + unread;
             Delimited(decoder, rest) && decoder.decode(rest, 0).end < |buffer| - position
    ensures var whole := decoder.decode(buffer[position..] + unread, 0);
            var answer := decoder.decode(buffer, position);
            answer.Value? && answer.end <= |buffer| && !MayContinue(decoder, answer.value, buffer, answer.end)
  {
    var rest := buffer[position..] + unread;
    var n := |buffer| - position;
    assert Local(decoder, buffer, position);
    assert Bounded(decoder, rest, 0);
    assert Truncates(decoder, rest, 0, n);
    assert rest[..n] == buffer[position..];
  }
}
