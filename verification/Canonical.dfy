/** The canonical bytes of a conversation: what a content hash is taken of. */
module Canonical {
  import opened Wrappers
  import opened Conversations
  import opened Json
  import opened JsonDecoder
  import opened JsonWriter
  import Utf8

  // ---------------------------------------------------------------------------------------------
  // Timestamps
  // ---------------------------------------------------------------------------------------------

  datatype Date = Date(year: nat, month: nat, day: nat)

  predicate IsLeap(year: nat) {
    year % 4 == 0 && (year % 100 != 0 || year % 400 == 0)
  }

  /** The days of a month, where `leap` says which years are leap years. */
  function DaysIn(leap: nat -> bool, year: nat, month: nat): nat {
    if month == 2 then if leap(year) then 29 else 28
    else if month == 4 || month == 6 || month == 9 || month == 11 then 30
    else 31
  }

  function NextDay(leap: nat -> bool, d: Date): Date {
    if d.day < DaysIn(leap, d.year, d.month) then d.(day := d.day + 1)
    else if d.month < 12 then Date(d.year, d.month + 1, 1)
    else Date(d.year + 1, 1, 1)
  }

  function DateIn(leap: nat -> bool, n: nat): (d: Date)
    ensures 1 <= d.month <= 12 && 1 <= d.day <= DaysIn(leap, d.year, d.month) <= 31
  {
    if n == 0 then Date(1, 1, 1) else NextDay(leap, DateIn(leap, n - 1))
  }

  /** The date `n` days after 0001-01-01. */
  function DateOf(n: nat): (d: Date)
    ensures 1 <= d.month <= 12 && 1 <= d.day <= 31
  {
    DateIn(IsLeap, n)
  }

  /** Dates in order. */
  function Rank(d: Date): nat {
    d.year * 372 + d.month * 31 + d.day
  }

  lemma {:induction false} LaterDaysRankHigher(leap: nat -> bool, a: nat, b: nat)
    requires a < b
    ensures Rank(DateIn(leap, a)) < Rank(DateIn(leap, b))
  {
    if a < b - 1 {
      LaterDaysRankHigher(leap, a, b - 1);
    }
  }

  const MICROSECONDS_IN_A_DAY := 86_400_000_000
  const MAX_YEAR := 9999

  /** The instants a datetime can hold. */
  predicate Representable(instant: int) {
    instant >= 0 && DateOf(instant / MICROSECONDS_IN_A_DAY).year <= MAX_YEAR
  }

  lemma {:induction false} DaysOfMonth(leap: nat -> bool, n: nat, year: nat, month: nat, day: nat)
    requires DateIn(leap, n) == Date(year, month, 1) && 1 <= day <= DaysIn(leap, year, month)
    ensures DateIn(leap, n + (day - 1)) == Date(year, month, day)
    decreases day
  {
    if day > 1 {
      DaysOfMonth(leap, n, year, month, day - 1);
    }
  }

  function DaysBeforeMonth(leap: nat -> bool, year: nat, month: nat): nat
    requires 1 <= month <= 12
  {
    if month == 1 then 0 else DaysBeforeMonth(leap, year, month - 1) + DaysIn(leap, year, month - 1)
  }

  lemma {:induction false} MonthBegins(leap: nat -> bool, n: nat, year: nat, month: nat)
    requires DateIn(leap, n) == Date(year, 1, 1) && 1 <= month <= 12
    ensures DateIn(leap, n + DaysBeforeMonth(leap, year, month)) == Date(year, month, 1)
  {
    if month > 1 {
      MonthBegins(leap, n, year, month - 1);
      DaysOfMonth(leap, n + DaysBeforeMonth(leap, year, month - 1), year, month - 1, DaysIn(leap, year, month - 1));
    }
  }

  function YearDays(leap: nat -> bool, year: nat): nat {
    DaysBeforeMonth(leap, year, 12) + 31
  }

  lemma {:induction false} YearLength(leap: nat -> bool, year: nat)
    ensures YearDays(leap, year) == if leap(year) then 366 else 365
  {
    var february := DaysIn(leap, year, 2);
    assert DaysBeforeMonth(leap, year, 2) == 31;
    assert DaysBeforeMonth(leap, year, 3) == 31 + february;
    assert DaysBeforeMonth(leap, year, 4) == 62 + february;
    assert DaysBeforeMonth(leap, year, 5) == 92 + february;
    assert DaysBeforeMonth(leap, year, 6) == 123 + february;
    assert DaysBeforeMonth(leap, year, 7) == 153 + february;
    assert DaysBeforeMonth(leap, year, 8) == 184 + february;
    assert DaysBeforeMonth(leap, year, 9) == 215 + february;
    assert DaysBeforeMonth(leap, year, 10) == 245 + february;
    assert DaysBeforeMonth(leap, year, 11) == 276 + february;
  }

  lemma {:induction false} NextYearBegins(leap: nat -> bool, n: nat, year: nat)
    requires DateIn(leap, n) == Date(year, 1, 1)
    ensures DateIn(leap, n + YearDays(leap, year)) == Date(year + 1, 1, 1)
  {
    MonthBegins(leap, n, year, 12);
    DaysOfMonth(leap, n + DaysBeforeMonth(leap, year, 12), year, 12, 31);
  }

  /** The days before the first of January of a year, counted year by year. */
  ghost function YearStart(leap: nat -> bool, year: nat): nat
    requires year > 0
  {
    if year == 1 then 0 else YearStart(leap, year - 1) + YearDays(leap, year - 1)
  }

  lemma {:induction false} YearBegins(leap: nat -> bool, year: nat)
    requires year > 0
    ensures DateIn(leap, YearStart(leap, year)) == Date(year, 1, 1)
  {
    if year > 1 {
      YearBegins(leap, year - 1);
      NextYearBegins(leap, YearStart(leap, year - 1), year - 1);
    }
  }

  lemma {:induction false} EarlierYear(leap: nat -> bool, day: nat, start: nat, year: nat)
    requires DateIn(leap, start) == Date(year, 1, 1)
    ensures DateIn(leap, day).year < year <==> day < start
  {
    if day < start {
      LaterDaysRankHigher(leap, day, start);
    } else if start < day {
      LaterDaysRankHigher(leap, start, day);
    }
  }

  /** The same days in closed form. */
  function DaysBefore(year: nat): int
    requires year > 0
  {
    var past := year - 1;
    365 * past + past / 4 - past / 100 + past / 400
  }

  lemma {:induction false} QuotientSteps(year: nat)
    requires year > 0
    ensures year / 4 == (year - 1) / 4 + (if year % 4 == 0 then 1 else 0)
    ensures year / 100 == (year - 1) / 100 + (if year % 100 == 0 then 1 else 0)
    ensures year / 400 == (year - 1) / 400 + (if year % 400 == 0 then 1 else 0)
  {
  }

  lemma {:induction false} CenturiesDivide(year: nat)
    ensures year % 100 == 0 ==> year % 4 == 0
    ensures year % 400 == 0 ==> year % 100 == 0
  {
    var century, rest := year / 100, year % 100;
    assert year == 4 * (25 * century) + rest;
    var cycle, left := year / 400, year % 400;
    assert year == 100 * (4 * cycle) + left;
  }

  lemma {:induction false} LeapYearsAddUp(year: nat)
    requires year > 0
    ensures DaysBefore(year + 1) == DaysBefore(year) + (if IsLeap(year) then 366 else 365)
  {
    QuotientSteps(year);
    CenturiesDivide(year);
  }

  lemma {:induction false} YearsAddUp(year: nat)
    requires year > 0
    ensures YearStart(IsLeap, year) == DaysBefore(year)
  {
    if year > 1 {
      YearsAddUp(year - 1);
      LeapYearsAddUp(year - 1);
      YearLength(IsLeap, year - 1);
    }
  }

  /** The days that come before a year are those counted before it. */
  lemma {:induction false} DaysBeforeYear(day: nat, year: nat)
    requires year > 0
    ensures DateOf(day).year < year <==> day < DaysBefore(year)
  {
    YearsAddUp(year);
    YearBegins(IsLeap, year);
    EarlierYear(IsLeap, day, YearStart(IsLeap, year), year);
  }

  /** The end of the last year a datetime can hold, in microseconds since 0001-01-01. */
  const END_OF_TIME := DaysBefore(MAX_YEAR + 1) * MICROSECONDS_IN_A_DAY

  /** The instants a datetime can hold are those of one interval, of 3652059 days. */
  lemma {:induction false} RepresentableInterval(instant: int)
    ensures Representable(instant) <==> 0 <= instant < END_OF_TIME
    ensures END_OF_TIME == 3652059 * MICROSECONDS_IN_A_DAY
  {
    if instant >= 0 {
      DaysBeforeYear(instant / MICROSECONDS_IN_A_DAY, MAX_YEAR + 1);
    }
  }

  /** The last `width` decimal digits. */
  function Padded(n: nat, width: nat): (r: string)
    ensures |r| == width
  {
    if width == 0 then [] else Padded(n / 10, width - 1) + [HexOf(n % 10)]
  }

  function TenTo(width: nat): nat {
    if width == 0 then 1 else 10 * TenTo(width - 1)
  }

  lemma {:induction false} PaddedTells(a: nat, b: nat, width: nat)
    requires a < TenTo(width) && b < TenTo(width) && Padded(a, width) == Padded(b, width)
    ensures a == b
  {
    if width > 0 {
      var x, y := Padded(a, width), Padded(b, width);
      assert x[..width - 1] == Padded(a / 10, width - 1) && y[..width - 1] == Padded(b / 10, width - 1);
      assert x[width - 1] == HexOf(a % 10) && y[width - 1] == HexOf(b % 10);
      PaddedTells(a / 10, b / 10, width - 1);
    }
  }

  /** An instant as UTC at fixed precision. */
  function Format(instant: int): string
    requires Representable(instant)
  {
    var date, time := DateOf(instant / MICROSECONDS_IN_A_DAY), instant % MICROSECONDS_IN_A_DAY;
    Padded(date.year, 4) + ("-" + (Padded(date.month, 2) + ("-" + (Padded(date.day, 2) + ("T" + FormatTime(time))))))
  }

  function FormatTime(time: nat): string {
    var seconds := time / 1_000_000;
    Clock(seconds / 3600, seconds / 60 % 60, seconds % 60, time % 1_000_000)
  }

  function Clock(hour: nat, minute: nat, second: nat, microsecond: nat): string {
    Padded(hour, 2) + (":" + (Padded(minute, 2) + (":" + (Padded(second, 2) + ("." + (Padded(microsecond, 6) + "Z"))))))
  }

  lemma {:induction false} SameParts(a: string, b: string, x: string, y: string, separator: string)
    requires |a| == |x| && a + (separator + b) == x + (separator + y)
    ensures a == x && b == y
  {
    var left, right := a + (separator + b), x + (separator + y);
    assert left[..|a|] == a && right[..|a|] == x;
    assert left[|a| + |separator|..] == b && right[|a| + |separator|..] == y;
  }

  lemma {:induction false} ClockTells(h: nat, m: nat, s: nat, u: nat, h': nat, m': nat, s': nat, u': nat)
    requires h < 100 && m < 100 && s < 100 && u < 1_000_000 && h' < 100 && m' < 100 && s' < 100 && u' < 1_000_000
    requires Clock(h, m, s, u) == Clock(h', m', s', u')
    ensures h == h' && m == m' && s == s' && u == u'
  {
    var micros, micros' := Padded(u, 6) + "Z", Padded(u', 6) + "Z";
    var seconds, seconds' := Padded(s, 2) + ("." + micros), Padded(s', 2) + ("." + micros');
    SameParts(Padded(h, 2), Padded(m, 2) + (":" + seconds), Padded(h', 2), Padded(m', 2) + (":" + seconds'), ":");
    SameParts(Padded(m, 2), seconds, Padded(m', 2), seconds', ":");
    SameParts(Padded(s, 2), micros, Padded(s', 2), micros', ".");
    assert "Z" + "" == "Z";
    SameParts(Padded(u, 6), "", Padded(u', 6), "", "Z");
    assert TenTo(2) == 100 && TenTo(6) == 1_000_000;
    PaddedTells(h, h', 2);
    PaddedTells(m, m', 2);
    PaddedTells(s, s', 2);
    PaddedTells(u, u', 6);
  }

  lemma {:induction false} SecondsAddUp(seconds: nat)
    ensures seconds == seconds / 3600 * 3600 + seconds / 60 % 60 * 60 + seconds % 60
  {
    assert seconds / 3600 == seconds / 60 / 60;
  }

  lemma {:induction false} FormatTimeTells(a: nat, b: nat)
    requires a < MICROSECONDS_IN_A_DAY && b < MICROSECONDS_IN_A_DAY && FormatTime(a) == FormatTime(b)
    ensures a == b
  {
    var x, y := a / 1_000_000, b / 1_000_000;
    SecondsAddUp(x);
    SecondsAddUp(y);
    ClockTells(x / 3600, x / 60 % 60, x % 60, a % 1_000_000, y / 3600, y / 60 % 60, y % 60, b % 1_000_000);
  }

  /** No two instants are written alike. */
  lemma {:induction false} FormatTells(a: int, b: int)
    requires Representable(a) && Representable(b) && Format(a) == Format(b)
    ensures a == b
  {
    var d, e := DateOf(a / MICROSECONDS_IN_A_DAY), DateOf(b / MICROSECONDS_IN_A_DAY);
    var x, y := a % MICROSECONDS_IN_A_DAY, b % MICROSECONDS_IN_A_DAY;
    var dayD, dayE := Padded(d.day, 2) + ("T" + FormatTime(x)), Padded(e.day, 2) + ("T" + FormatTime(y));
    var monthD, monthE := Padded(d.month, 2) + ("-" + dayD), Padded(e.month, 2) + ("-" + dayE);
    SameParts(Padded(d.year, 4), monthD, Padded(e.year, 4), monthE, "-");
    SameParts(Padded(d.month, 2), dayD, Padded(e.month, 2), dayE, "-");
    SameParts(Padded(d.day, 2), FormatTime(x), Padded(e.day, 2), FormatTime(y), "T");
    assert TenTo(2) == 100 && TenTo(4) == 10000;
    PaddedTells(d.year, e.year, 4);
    PaddedTells(d.month, e.month, 2);
    PaddedTells(d.day, e.day, 2);
    FormatTimeTells(x, y);
    var m, n := a / MICROSECONDS_IN_A_DAY, b / MICROSECONDS_IN_A_DAY;
    if m < n {
      LaterDaysRankHigher(IsLeap, m, n);
    } else if n < m {
      LaterDaysRankHigher(IsLeap, n, m);
    }
  }

  // ---------------------------------------------------------------------------------------------
  // The form
  // ---------------------------------------------------------------------------------------------

  /** A time whose UTC value lies outside the years a datetime can hold. */
  datatype CanonicalError = OutOfRange(at: Moment)

  function Optional(text: Option<string>): Plain {
    match text
    case None => Nothing
    case Some(t) => Words(t)
  }

  function RoleName(role: Role): string {
    match role
    case User => "user"
    case Assistant => "assistant"
    case System => "system"
    case Tool => "tool"
  }

  function KindName(kind: NonTextKind): string {
    match kind
    case Image => "image"
    case File => "file"
    case Audio => "audio"
    case Other => "other"
  }

  function Render(sentAt: Option<Moment>): Result<Option<string>, CanonicalError> {
    match sentAt
    case None => Success(None)
    case Some(moment) =>
      if Representable(moment.Instant()) then Success(Some(Format(moment.Instant()))) else Failure(OutOfRange(moment))
  }

  function ActivityForm(activity: ToolActivity): Plain {
    Record([
      Field("name", Words(activity.name)),
      Field("request", Optional(activity.request)),
      Field("result", Optional(activity.result))])
  }

  function PartForm(part: NonTextPart): Plain {
    Record([Field("kind", Words(KindName(part.kind))), Field("name", Optional(part.name))])
  }

  function ActivitiesForm(activities: seq<ToolActivity>): Plain {
    List(seq(|activities|, i requires 0 <= i < |activities| => ActivityForm(activities[i])))
  }

  function PartsForm(parts: seq<NonTextPart>): Plain {
    List(seq(|parts|, i requires 0 <= i < |parts| => PartForm(parts[i])))
  }

  function MessageForm(message: Message): Result<Plain, CanonicalError> {
    var sentAt :- Render(message.sentAt);
    Success(Record([
      Field("role", Words(RoleName(message.role))),
      Field("text", Words(message.text)),
      Field("sent_at", Optional(sentAt)),
      Field("tool_activity", ActivitiesForm(message.toolActivity)),
      Field("non_text_parts", PartsForm(message.nonTextParts))]))
  }

  function MessageForms(messages: seq<Message>): (r: Result<seq<Plain>, CanonicalError>)
    ensures r.Success? ==> |r.value| == |messages|
    ensures r.Success? ==> forall i | 0 <= i < |messages| :: MessageForm(messages[i]) == Success(r.value[i])
    ensures r.Failure? ==> exists i :: 0 <= i < |messages| && MessageForm(messages[i]).Failure?
  {
    if messages == [] then Success([])
    else
      var first :- MessageForm(messages[0]);
      var rest :- MessageForms(messages[1..]);
      Success([first] + rest)
  }

  const CANONICAL_VERSION := 1

  function CanonicalForm(conversation: Conversation): Result<Plain, CanonicalError> {
    var forms :- MessageForms(conversation.messages);
    Success(Record([Field("version", Whole(CANONICAL_VERSION)), Field("messages", List(forms))]))
  }

  function CanonicalBytes(conversation: Conversation): Result<seq<Utf8.Byte>, CanonicalError> {
    var payload :- CanonicalForm(conversation);
    Success(Utf8.Encode(Dumps(payload)))
  }

  // ---------------------------------------------------------------------------------------------
  // What the form tells
  // ---------------------------------------------------------------------------------------------

  /** What of a message is covered. */
  datatype Covered = Covered(
    role: Role,
    text: string,
    instant: Option<int>,
    toolActivity: seq<ToolActivity>,
    nonTextParts: seq<NonTextPart>)

  function CoveredBy(m: Message): Covered {
    Covered(m.role, m.text, if m.sentAt.None? then None else Some(m.sentAt.value.Instant()), m.toolActivity, m.nonTextParts)
  }

  function Content(c: Conversation): seq<Covered> {
    seq(|c.messages|, i requires 0 <= i < |c.messages| => CoveredBy(c.messages[i]))
  }

  /** One field of two records that decode alike decodes alike. */
  lemma {:induction false} SameField(a: Plain, b: Plain, i: nat)
    requires a.Record? && b.Record? && KeysDiffer(a.fields) && KeysDiffer(b.fields)
    requires AsJson(a) == AsJson(b) && i < |a.fields| && i < |b.fields| && a.fields[i].key == b.fields[i].key
    ensures AsJson(a.fields[i].value) == AsJson(b.fields[i].value)
  {
    TellField(a, i);
    TellField(b, i);
  }

  lemma {:induction false} TellField(v: Plain, i: nat)
    requires v.Record? && KeysDiffer(v.fields) && i < |v.fields|
    ensures AsJson(v).Get(v.fields[i].key) == AsJson(v.fields[i].value)
  {
    var pairs := Pairs(v.fields, v);
    forall j | 0 <= j < |pairs| ensures pairs[j] == (v.fields[j].key, AsJson(v.fields[j].value)) {
      PairAt(v.fields, v, j);
    }
    FieldsTell(pairs, v.fields[i].key);
    assert pairs[i].0 == v.fields[i].key;
  }

  lemma {:induction false} SameItems(a: Plain, b: Plain)
    requires a.List? && b.List? && AsJson(a) == AsJson(b)
    ensures |a.items| == |b.items|
    ensures forall i | 0 <= i < |a.items| :: AsJson(a.items[i]) == AsJson(b.items[i])
  {
    assert |AsJsons(a.items, a)| == |AsJsons(b.items, b)|;
    forall i | 0 <= i < |a.items| ensures AsJson(a.items[i]) == AsJson(b.items[i]) {
      AsJsonsAt(a.items, a, i);
      AsJsonsAt(b.items, b, i);
    }
  }

  lemma {:induction false} ActivityTells(a: ToolActivity, b: ToolActivity)
    requires AsJson(ActivityForm(a)) == AsJson(ActivityForm(b))
    ensures a == b
  {
    var x, y := ActivityForm(a), ActivityForm(b);
    SameField(x, y, 0);
    SameField(x, y, 1);
    SameField(x, y, 2);
  }

  lemma {:induction false} PartTells(a: NonTextPart, b: NonTextPart)
    requires AsJson(PartForm(a)) == AsJson(PartForm(b))
    ensures a == b
  {
    var x, y := PartForm(a), PartForm(b);
    PartKeysDiffer(a);
    PartKeysDiffer(b);
    SameField(x, y, 0);
    SameField(x, y, 1);
    KindNamesDiffer(a.kind, b.kind);
  }

  lemma {:induction false} PartKeysDiffer(a: NonTextPart)
    ensures KeysDiffer(PartForm(a).fields)
  {
    assert "kind"[0] != "name"[0];
  }

  lemma {:induction false} KindNamesDiffer(a: NonTextKind, b: NonTextKind)
    ensures KindName(a) == KindName(b) ==> a == b
  {
    assert KindName(a)[0] == KindName(b)[0] ==> a == b;
  }

  lemma {:induction false} RoleNamesDiffer(a: Role, b: Role)
    ensures RoleName(a) == RoleName(b) ==> a == b
  {
    assert RoleName(a)[0] == RoleName(b)[0] ==> a == b;
  }

  lemma {:induction false} MessageKeysDiffer(m: Message)
    requires MessageForm(m).Success?
    ensures KeysDiffer(MessageForm(m).value.fields)
  {
    assert "role"[0] != "text"[0];
  }

  lemma {:induction false} SentAtTells(a: Option<Moment>, b: Option<Moment>)
    requires Render(a).Success? && Render(b).Success? && AsJson(Optional(Render(a).value)) == AsJson(Optional(Render(b).value))
    ensures a.Some? == b.Some? && (a.Some? ==> a.value.Instant() == b.value.Instant())
  {
    if a.Some? && b.Some? {
      FormatTells(a.value.Instant(), b.value.Instant());
    }
  }

  lemma {:induction false} ActivitiesTell(a: seq<ToolActivity>, b: seq<ToolActivity>)
    requires AsJson(ActivitiesForm(a)) == AsJson(ActivitiesForm(b))
    ensures a == b
  {
    SameItems(ActivitiesForm(a), ActivitiesForm(b));
    forall i | 0 <= i < |a| ensures a[i] == b[i] {
      assert ActivitiesForm(a).items[i] == ActivityForm(a[i]) && ActivitiesForm(b).items[i] == ActivityForm(b[i]);
      ActivityTells(a[i], b[i]);
    }
  }

  lemma {:induction false} PartsTell(a: seq<NonTextPart>, b: seq<NonTextPart>)
    requires AsJson(PartsForm(a)) == AsJson(PartsForm(b))
    ensures a == b
  {
    SameItems(PartsForm(a), PartsForm(b));
    forall i | 0 <= i < |a| ensures a[i] == b[i] {
      assert PartsForm(a).items[i] == PartForm(a[i]) && PartsForm(b).items[i] == PartForm(b[i]);
      PartTells(a[i], b[i]);
    }
  }

  lemma {:induction false} MessageTells(a: Message, b: Message)
    requires MessageForm(a).Success? && MessageForm(b).Success?
    requires AsJson(MessageForm(a).value) == AsJson(MessageForm(b).value)
    ensures CoveredBy(a) == CoveredBy(b)
  {
    var x, y := MessageForm(a).value, MessageForm(b).value;
    MessageKeysDiffer(a);
    MessageKeysDiffer(b);
    SameField(x, y, 0);
    SameField(x, y, 1);
    SameField(x, y, 2);
    SameField(x, y, 3);
    SameField(x, y, 4);
    RoleNamesDiffer(a.role, b.role);
    SentAtTells(a.sentAt, b.sentAt);
    ActivitiesTell(a.toolActivity, b.toolActivity);
    PartsTell(a.nonTextParts, b.nonTextParts);
  }

  lemma {:induction false} FormTells(a: Conversation, b: Conversation)
    requires CanonicalForm(a).Success? && CanonicalForm(b).Success?
    requires AsJson(CanonicalForm(a).value) == AsJson(CanonicalForm(b).value)
    ensures Content(a) == Content(b)
  {
    var x, y := CanonicalForm(a).value, CanonicalForm(b).value;
    SameField(x, y, 1);
    SameItems(x.fields[1].value, y.fields[1].value);
    forall i | 0 <= i < |a.messages| ensures CoveredBy(a.messages[i]) == CoveredBy(b.messages[i]) {
      MessageTells(a.messages[i], b.messages[i]);
    }
  }

  lemma {:induction false} FormIsWellFormed(c: Conversation)
    requires CanonicalForm(c).Success?
    ensures WellFormed(CanonicalForm(c).value)
  {
    var forms := MessageForms(c.messages).value;
    forall i | 0 <= i < |forms| ensures WellFormed(forms[i]) {
      MessageIsWellFormed(c.messages[i]);
    }
    assert WellFormed(List(forms));
  }

  lemma {:induction false} MessageIsWellFormed(m: Message)
    requires MessageForm(m).Success?
    ensures WellFormed(MessageForm(m).value)
  {
    var form := MessageForm(m).value;
    MessageKeysDiffer(m);
    forall i | 0 <= i < |m.toolActivity| ensures WellFormed(form.fields[3].value.items[i]) {
      assert form.fields[3].value.items[i] == ActivityForm(m.toolActivity[i]);
    }
    forall i | 0 <= i < |m.nonTextParts| ensures WellFormed(form.fields[4].value.items[i]) {
      PartKeysDiffer(m.nonTextParts[i]);
    }
    assert WellFormed(form.fields[3].value) && WellFormed(form.fields[4].value);
  }

  // ---------------------------------------------------------------------------------------------
  // Equal bytes, equal content
  // ---------------------------------------------------------------------------------------------

  /** The bytes decode to the form they were written from. */
  lemma {:induction false} BytesDecode(c: Conversation)
    ensures CanonicalBytes(c).Success? ==> CanonicalForm(c).Success?
    ensures CanonicalBytes(c).Success? ==>
      var text := Utf8.Decode(CanonicalBytes(c).value);
      text.Some? && ScanValue(text.value, 0) == Good(AsJson(CanonicalForm(c).value), |text.value|)
  {
    if CanonicalForm(c).Success? {
      var form := CanonicalForm(c).value;
      FormIsWellFormed(c);
      Utf8.RoundTrip(Dumps(form));
      DumpsDecodes(form);
    }
  }

  lemma {:induction false} SameMessageForm(a: Message, b: Message)
    requires CoveredBy(a) == CoveredBy(b)
    ensures MessageForm(a).Success? == MessageForm(b).Success?
    ensures MessageForm(a).Success? ==> MessageForm(a) == MessageForm(b)
  {
  }

  lemma {:induction false} SameForms(a: seq<Message>, b: seq<Message>)
    requires |a| == |b| && forall i | 0 <= i < |a| :: CoveredBy(a[i]) == CoveredBy(b[i])
    ensures MessageForms(a).Success? == MessageForms(b).Success?
    ensures MessageForms(a).Success? ==> MessageForms(a) == MessageForms(b)
  {
    if a != [] {
      SameMessageForm(a[0], b[0]);
      SameForms(a[1..], b[1..]);
    }
  }

  /** A conversation has canonical bytes exactly when every message's instant can be written. */
  lemma {:induction false} BytesExist(c: Conversation)
    ensures CanonicalBytes(c).Success? <==> forall i | 0 <= i < |c.messages| && c.messages[i].sentAt.Some? ::
      Representable(c.messages[i].sentAt.value.Instant())
  {
    if CanonicalBytes(c).Success? {
      assert forall i | 0 <= i < |c.messages| :: MessageForm(c.messages[i]).Success?;
    }
  }

  /** A time on the first day of the calendar with an offset ahead of UTC has a UTC value before it. */
  lemma {:induction false} TooEarlyToWrite(c: Conversation, i: nat)
    requires i < |c.messages| && c.messages[i].sentAt == Some(Moment(0, 3_600_000_000))
    ensures CanonicalBytes(c).Failure?
  {
    BytesExist(c);
    assert !Representable(c.messages[i].sentAt.value.Instant());
  }

  /** Two conversations have equal canonical bytes exactly when their messages agree, in order, on
      role, text, instant, tool activity and non-text parts; nothing else about them matters. */
  lemma {:induction false} EqualBytesEqualContent(a: Conversation, b: Conversation)
    ensures CanonicalBytes(a).Success? ==> (CanonicalBytes(b) == CanonicalBytes(a) <==> Content(a) == Content(b))
  {
    if CanonicalBytes(a).Success? && CanonicalBytes(b) == CanonicalBytes(a) {
      BytesDecode(a);
      BytesDecode(b);
      FormTells(a, b);
    }
    if Content(a) == Content(b) {
      assert |Content(a)| == |Content(b)|;
      forall i | 0 <= i < |a.messages| ensures CoveredBy(a.messages[i]) == CoveredBy(b.messages[i]) {
        assert Content(a)[i] == Content(b)[i];
      }
      SameForms(a.messages, b.messages);
    }
  }
}
