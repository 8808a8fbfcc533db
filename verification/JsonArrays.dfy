/** What the record scanner accepts with the JSON decoder, in both directions. */
module JsonArrays {
  import opened Json
  import opened Records
  import opened JsonDecoder

  /** A text that is one JSON value and nothing else. */
  predicate IsValueText(raw: string) {
    raw != [] && ScanValue(raw, 0).Good? && ScanValue(raw, 0).end == |raw|
  }

  lemma {:induction false} SkipsBlank(a: string, rest: string)
    requires Blank(a) && (rest == [] || !IsSpace(rest[0]))
    ensures SkipSpace(a + rest) == rest
  {
    if a != [] {
      assert a[0] in a;
      assert (a + rest)[1..] == a[1..] + rest;
      SkipsBlank(a[1..], rest);
    } else {
      assert a + rest == rest;
    }
  }

  lemma {:induction false} ValueTextStart(raw: string)
    requires IsValueText(raw)
    ensures !IsSpace(raw[0]) && raw[0] != ']' && raw[0] != ','
  {
  }

  /** The text after an element opens with a blank, a comma or the closing bracket. */
  lemma {:induction false} TailStart(tail: string, raws: seq<string>)
    requires ArrayTail(tail, raws, After)
    ensures tail != [] && !IsNumberCharacter(tail[0])
  {
    if raws == [] {
      var a, b, c :| Closing(tail, a, b, c, After);
      if a != [] {
        assert a[0] in a;
      }
    } else {
      var a, b, rest :| Leading(tail, a, b, raws[0], rest, After) && ArrayTail(rest, raws[1..], After);
      assert tail == a + ("," + b) + raws[0] + rest;
      if a != [] {
        assert a[0] in a && tail[0] == a[0];
      } else {
        assert tail[0] == ',';
      }
    }
  }

  lemma {:induction false} ElementRead(raw: string, tail: string)
    requires IsValueText(raw) && tail != [] && !IsNumberCharacter(tail[0])
    requires Lawful(JSON_DECODER)
    ensures DecodeHere(JSON_DECODER, raw + tail)
         == Stepped(Element(ExportRecord(raw, ScanValue(raw, 0).value)), tail, After)
  {
    ValueAgrees(raw, raw + tail, 0);
    assert (raw + tail)[0..] == raw + tail;
    assert (raw + tail)[..|raw|] == raw;
    assert (raw + tail)[|raw|..] == tail;
  }

  lemma {:induction false} StepDecodes(text: string, a: string, b: string, raw: string, tail: string, phase: Phase)
    requires Lawful(JSON_DECODER) && (phase.First? || phase.After?)
    requires Leading(text, a, b, raw, tail, phase)
    requires raw != [] && !IsSpace(raw[0]) && raw[0] != ']' && raw[0] != ','
    ensures Step(JSON_DECODER, text, phase) == DecodeHere(JSON_DECODER, raw + tail)
  {
    var element := raw + tail;
    if phase.First? {
      assert text == a + element;
      SkipsBlank(a, element);
    } else {
      var rest := "," + (b + element);
      assert text == a + rest;
      SkipsBlank(a, rest);
      assert rest[1..] == b + element;
      SkipsBlank(b, element);
    }
  }

  lemma {:induction false} StepReads(text: string, a: string, b: string, raw: string, tail: string, phase: Phase)
    requires Lawful(JSON_DECODER) && (phase.First? || phase.After?)
    requires Leading(text, a, b, raw, tail, phase)
    requires IsValueText(raw) && tail != [] && !IsNumberCharacter(tail[0])
    ensures Step(JSON_DECODER, text, phase)
         == Stepped(Element(ExportRecord(raw, ScanValue(raw, 0).value)), tail, After)
  {
    ValueTextStart(raw);
    ElementRead(raw, tail);
    StepDecodes(text, a, b, raw, tail, phase);
  }

  lemma {:induction false} StepCloses(text: string, a: string, b: string, c: string, phase: Phase)
    requires Lawful(JSON_DECODER) && (phase.First? || phase.After?) && Closing(text, a, b, c, phase)
    ensures Step(JSON_DECODER, text, phase).outcome == Stop
  {
    SkipsBlank(c, []);
    assert c + [] == c;
    var end := "]" + c;
    assert end[1..] == c;
    if text == a + "]" + c {
      assert text == a + end;
      SkipsBlank(a, end);
    } else {
      var rest := "," + (b + end);
      assert text == a + rest;
      SkipsBlank(a, rest);
      assert rest[1..] == b + end;
      SkipsBlank(b, end);
    }
  }

  /** Every text laid out as an array of JSON values is read to its end, and yields exactly those
      values' texts. */
  lemma {:induction false} ArrayIsRead(text: string, raws: seq<string>, phase: Phase)
    requires (phase.First? || phase.After?) && Lawful(JSON_DECODER)
    requires ArrayTail(text, raws, phase) && forall raw | raw in raws :: IsValueText(raw)
    ensures ScanAll(JSON_DECODER, text, phase).ending == Stop
    ensures Raws(ScanAll(JSON_DECODER, text, phase).records) == raws
    decreases |raws|
  {
    if raws == [] {
      var a, b, c :| Closing(text, a, b, c, phase);
      StepCloses(text, a, b, c, phase);
    } else {
      var a, b, tail :| Leading(text, a, b, raws[0], tail, phase) && ArrayTail(tail, raws[1..], After);
      TailStart(tail, raws[1..]);
      StepReads(text, a, b, raws[0], tail, phase);
      ArrayIsRead(tail, raws[1..], After);
      var scan := ScanAll(JSON_DECODER, text, phase);
      assert scan.records[1..] == ScanAll(JSON_DECODER, tail, After).records;
      assert [raws[0]] + raws[1..] == raws;
    }
  }

  /** After the opening bracket, the scan ends well with the elements `raws` exactly when the text
      is an array of those JSON values: blanks anywhere between tokens, commas between elements,
      one comma tolerated before the closing bracket, nothing but blanks after it. */
  lemma {:induction false} ScanAcceptsExactlyArrays(text: string, raws: seq<string>)
    ensures Lawful(JSON_DECODER)
    ensures var scan := ScanAll(JSON_DECODER, text, First);
            scan.ending == Stop && Raws(scan.records) == raws
            <==> ArrayTail(text, raws, First) && forall raw | raw in raws :: IsValueText(raw)
  {
    JsonIsLawful();
    var scan := ScanAll(JSON_DECODER, text, First);
    if scan.ending == Stop && Raws(scan.records) == raws {
      ScanTilesTheText(JSON_DECODER, text, First);
      RecordsDecodeAlone(JSON_DECODER, text, First);
      RawsAreValues(scan.records);
    }
    if ArrayTail(text, raws, First) && forall raw | raw in raws :: IsValueText(raw) {
      ArrayIsRead(text, raws, First);
    }
  }

  lemma {:induction false} RawsAreValues(records: seq<ExportRecord<Json>>)
    requires AllDecodeAlone(JSON_DECODER, records)
    ensures forall raw | raw in Raws(records) :: IsValueText(raw)
  {
    if records != [] {
      assert DecodesAlone(JSON_DECODER, records[0]);
      assert records[0].raw[0..] == records[0].raw;
      RawsAreValues(records[1..]);
    }
  }
}
