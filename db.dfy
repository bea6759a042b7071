/**
 * The diary entry store (`src/db.py`): one Firestore document per user and day in the
 * collection `entries`, under the key `userId + "_" + date`. Saving an existing entry
 * applies only the fields the client sent and bumps the version; a month query lists one
 * user's entries of a month in date order; the difference summary writes only `diffText`
 * and `updatedAt`. Clocks are parameters (`now`); the Firestore client is either there or
 * not (`available`).
 */
module Db {
  import opened Wrappers
  import opened Strings
  import opened DateParse
  import opened TextGen

  type Timestamp = int

  /** A stored diary entry (`DiaryEntry`, also what `DiaryEntryResponse` returns). */
  datatype DiaryEntry = DiaryEntry(
    userId: string,
    date: string,
    planText: Option<string>,
    planImageUrl: Option<string>,
    actualText: Option<string>,
    actualImageUrl: Option<string>,
    diffText: Option<string>,
    tags: seq<string>,
    createdAt: Timestamp,
    updatedAt: Timestamp,
    version: int)

  /** A request field the client either sent (possibly as an explicit null) or left out. */
  datatype Patch<+T> = Unset | Set(value: T) {
    function Or(default: T): T
    {
      match this
      case Set(v) => v
      case Unset => default
    }
  }

  /** The body of a save (`DiaryEntryCreate`); `date` is required, so it is always sent. */
  datatype DiaryEntryCreate = DiaryEntryCreate(
    userId: Patch<string>,
    date: string,
    planText: Patch<Option<string>>,
    planImageUrl: Patch<Option<string>>,
    actualText: Patch<Option<string>>,
    actualImageUrl: Patch<Option<string>>,
    diffText: Patch<Option<string>>,
    tags: Patch<seq<string>>)

  /** Python's truthiness of an optional text: neither `None` nor empty. */
  predicate Present(t: Option<string>)
  {
    t.Some? && t.value != ""
  }

  const DefaultUserId: string := "anonymous"
  const Unavailable: string := "Firestore is not available"

  function RequestUserId(request: DiaryEntryCreate): string
  {
    request.userId.Or(DefaultUserId)
  }

  // ---- document keys ----

  /** `f"{user_id}_{date}"`: the user id, a `_`, then the date. */
  function DocKey(userId: string, date: string): (r: string)
    ensures |r| == |userId| + 1 + |date|
    ensures r[..|userId|] == userId && r[|userId|] == '_' && r[|userId| + 1..] == date
  {
    var key := userId + "_" + date;
    assert key[..|userId|] == userId && key[|userId| + 1..] == date;
    key
  }

  /** Keys of dates without `_` (every date the handlers accept) belong to one user and day only. */
  lemma DocKeyInjective(u1: string, d1: string, u2: string, d2: string)
    requires '_' !in d1 && '_' !in d2
    requires DocKey(u1, d1) == DocKey(u2, d2)
    ensures u1 == u2 && d1 == d2
  {
    KeySeparator(u1, d1);
    KeySeparator(u2, d2);
    var k := DocKey(u1, d1);
    assert |u1| == |u2|;
    assert u1 == k[..|u1|] == u2;
    assert d1 == k[|u1| + 1..] == d2;
  }

  /** In a key whose date has no `_`, the last `_` is the one after the user id. */
  lemma KeySeparator(u: string, d: string)
    requires '_' !in d
    ensures DocKey(u, d)[|u|] == '_'
    ensures forall i | |u| < i < |DocKey(u, d)| :: DocKey(u, d)[i] != '_'
  {
    var k := DocKey(u, d);
    forall i | |u| < i < |k| ensures k[i] != '_' {
      assert k[i] == d[i - |u| - 1];
    }
  }

  // ---- a field-by-field view of entries and requests ----

  datatype Field =
    | UserIdField | DateField | PlanTextField | PlanImageUrlField
    | ActualTextField | ActualImageUrlField | DiffTextField | TagsField

  datatype FieldValue = Text(text: string) | MaybeText(maybe: Option<string>) | TagList(list: seq<string>)

  function FieldOf(e: DiaryEntry, f: Field): FieldValue
  {
    match f
    case UserIdField => Text(e.userId)
    case DateField => Text(e.date)
    case PlanTextField => MaybeText(e.planText)
    case PlanImageUrlField => MaybeText(e.planImageUrl)
    case ActualTextField => MaybeText(e.actualText)
    case ActualImageUrlField => MaybeText(e.actualImageUrl)
    case DiffTextField => MaybeText(e.diffText)
    case TagsField => TagList(e.tags)
  }

  function SentValue<T>(p: Patch<T>, wrap: T -> FieldValue): Option<FieldValue>
  {
    match p
    case Set(v) => Some(wrap(v))
    case Unset => None
  }

  /** The fields `model_dump(exclude_unset=True)` gives: those the client sent. */
  function SentField(request: DiaryEntryCreate, f: Field): (r: Option<FieldValue>)
    ensures f == DateField ==> r.Some?
    ensures r.Some? ==> (r.value.Text? <==> f == UserIdField || f == DateField) && (r.value.TagList? <==> f == TagsField)
  {
    match f
    case UserIdField => SentValue(request.userId, s => Text(s))
    case DateField => Some(Text(request.date))
    case PlanTextField => SentValue(request.planText, o => MaybeText(o))
    case PlanImageUrlField => SentValue(request.planImageUrl, o => MaybeText(o))
    case ActualTextField => SentValue(request.actualText, o => MaybeText(o))
    case ActualImageUrlField => SentValue(request.actualImageUrl, o => MaybeText(o))
    case DiffTextField => SentValue(request.diffText, o => MaybeText(o))
    case TagsField => SentValue(request.tags, t => TagList(t))
  }

  /** The value of a field once the model's defaults are filled in. */
  function RequestField(request: DiaryEntryCreate, f: Field): (v: FieldValue)
    ensures SentField(request, f).Some? ==> v == SentField(request, f).value
  {
    match f
    case UserIdField => Text(RequestUserId(request))
    case DateField => Text(request.date)
    case PlanTextField => MaybeText(request.planText.Or(None))
    case PlanImageUrlField => MaybeText(request.planImageUrl.Or(None))
    case ActualTextField => MaybeText(request.actualText.Or(None))
    case ActualImageUrlField => MaybeText(request.actualImageUrl.Or(None))
    case DiffTextField => MaybeText(request.diffText.Or(None))
    case TagsField => TagList(request.tags.Or([]))
  }

  /** A new entry: every field from the request (defaults where it sent none), version 1, both times `now`. */
  function Create(request: DiaryEntryCreate, now: Timestamp): (e: DiaryEntry)
    ensures forall f :: FieldOf(e, f) == RequestField(request, f)
    ensures e.createdAt == now && e.updatedAt == now && e.version == 1
  {
    DiaryEntry(
      RequestUserId(request), request.date,
      request.planText.Or(None), request.planImageUrl.Or(None),
      request.actualText.Or(None), request.actualImageUrl.Or(None),
      request.diffText.Or(None), request.tags.Or([]),
      now, now, 1)
  }

  /**
   * An update of a stored entry: a field the client sent (an explicit null included)
   * replaces the stored one, every other field is kept, `createdAt` is kept, the
   * version goes up by one and `updatedAt` becomes `now`.
   */
  function Merge(stored: DiaryEntry, request: DiaryEntryCreate, now: Timestamp): (e: DiaryEntry)
    ensures forall f :: FieldOf(e, f) == if SentField(request, f).Some? then SentField(request, f).value else FieldOf(stored, f)
    ensures e.createdAt == stored.createdAt && e.updatedAt == now && e.version == stored.version + 1
  {
    DiaryEntry(
      request.userId.Or(stored.userId), request.date,
      request.planText.Or(stored.planText), request.planImageUrl.Or(stored.planImageUrl),
      request.actualText.Or(stored.actualText), request.actualImageUrl.Or(stored.actualImageUrl),
      request.diffText.Or(stored.diffText), request.tags.Or(stored.tags),
      stored.createdAt, now, stored.version + 1)
  }

  /** Saving the same request twice leaves the same fields as saving it once; only the bookkeeping moves on. */
  lemma MergeTwice(stored: DiaryEntry, request: DiaryEntryCreate, t1: Timestamp, t2: Timestamp)
    ensures var once, twice := Merge(stored, request, t2), Merge(Merge(stored, request, t1), request, t2);
      && (forall f :: FieldOf(twice, f) == FieldOf(once, f))
      && twice.version == once.version + 1 && twice.createdAt == once.createdAt && twice.updatedAt == once.updatedAt
  {
  }

  /** Updating with a request that sent only some plan fields leaves the reflection, tags and creation time alone. */
  lemma MergeKeepsReflection(stored: DiaryEntry, request: DiaryEntryCreate, now: Timestamp)
    requires request.actualText.Unset? && request.actualImageUrl.Unset? && request.tags.Unset?
    ensures var e := Merge(stored, request, now);
      e.actualText == stored.actualText && e.actualImageUrl == stored.actualImageUrl
      && e.tags == stored.tags && e.createdAt == stored.createdAt
  {
  }

  // ---- month ranges ----

  /** `year, month = map(int, year_month.split("-"))`, for parts made of ASCII digits. */
  function ParseYearMonth(yearMonth: string): (r: Option<(nat, nat)>)
    ensures r.Some? ==> |Split(yearMonth, '-')| == 2
  {
    var parts := Split(yearMonth, '-');
    if |parts| == 2 && parts[0] != "" && parts[1] != "" && AllDigits(parts[0]) && AllDigits(parts[1]) then
      Some((DigitsValue(parts[0]), DigitsValue(parts[1])))
    else None
  }

  /** The month after `(year, month)`: one more in the count of months since year 0, December rolling over to January. */
  function NextMonth(year: nat, month: nat): (r: (nat, nat))
    ensures 1 <= month <= 12 ==> 1 <= r.1 <= 12 && r.0 * 12 + r.1 == year * 12 + month + 1
  {
    if month == 12 then (year + 1, 1) else (year, month + 1)
  }

  /** `f"{next_year:04d}-{next_month:02d}-01"`: the canonical spelling of the first day of the next month. */
  function MonthEnd(year: nat, month: nat): (r: string)
    ensures 1 <= year <= 9999 && 1 <= month <= 12 && !(year == 9999 && month == 12) ==>
      r == FormatDate(Date(NextMonth(year, month).0, NextMonth(year, month).1, 1))
  {
    var (ny, nm) := NextMonth(year, month);
    assert Pow10(4) == 10000 && Pow10(2) == 100;
    TwoDigits(1);
    ZeroPadded(ny, 4) + "-" + ZeroPadded(nm, 2) + "-01"
  }

  /**
   * The start bound as the source writes it, `f"{year_month}-01"`: it agrees with the
   * corrected bound exactly when the client's month is already zero-padded.
   */
  function MonthStartAsWritten(yearMonth: string): (r: string)
    ensures forall year: nat, month: nat {:trigger MonthStart(year, month)} ::
      yearMonth == ZeroPadded(year, 4) + "-" + ZeroPadded(month, 2) ==> r == MonthStart(year, month)
  {
    yearMonth + "-01"
  }

  /** The corrected start bound, written like the end bound: `f"{year:04d}-{month:02d}-01"`, the canonical spelling of the first of the month. */
  function MonthStart(year: nat, month: nat): (r: string)
    ensures 1 <= year <= 9999 && 1 <= month <= 12 ==> r == FormatDate(Date(year, month, 1))
  {
    assert Pow10(4) == 10000 && Pow10(2) == 100;
    TwoDigits(1);
    ZeroPadded(year, 4) + "-" + ZeroPadded(month, 2) + "-01"
  }

  /** A zero-padded month passes the parsing in the query, and for it the bound as written is the corrected one. */
  lemma PaddedMonthAsWritten(year: nat, month: nat)
    requires 1 <= year <= 9999 && 1 <= month <= 12
    ensures var ym := ZeroPadded(year, 4) + "-" + ZeroPadded(month, 2);
      ParseYearMonth(ym) == Some((year, month)) && MonthStartAsWritten(ym) == MonthStart(year, month)
  {
    assert Pow10(4) == 10000 && Pow10(2) == 100;
    PaddedMonthParses(year, month);
  }

  lemma PaddedMonthParses(year: nat, month: nat)
    requires 1 <= year <= 9999 && 1 <= month <= 12
    ensures ParseYearMonth(Digits(year, 4) + "-" + Digits(month, 2)) == Some((year, month))
  {
    assert Pow10(4) == 10000 && Pow10(2) == 100;
    DigitsValueOfDigits(year, 4);
    DigitsValueOfDigits(month, 2);
    ParseDigitParts(Digits(year, 4), Digits(month, 2));
  }

  /** Two non-empty runs of digits around one `-` parse to their values. */
  lemma ParseDigitParts(y: string, m: string)
    requires y != "" && m != "" && AllDigits(y) && AllDigits(m)
    ensures ParseYearMonth(y + "-" + m) == Some((DigitsValue(y), DigitsValue(m)))
  {
    assert '-' !in y by { assert AllDigits(y); }
    assert '-' !in m by { assert AllDigits(m); }
    assert y + "-" + m == y + ['-'] + m;
    SplitAround(y, '-', m);
    SplitWithout(m, '-');
  }

  /** The month range `[start, end)` holds the canonical spelling of a date exactly when the date lies in that month. */
  lemma MonthRangeIsTheMonth(d: Date, year: nat, month: nat)
    requires IsValidDate(d)
    requires 1 <= year <= 9999 && 1 <= month <= 12 && !(year == 9999 && month == 12)
    ensures LexLe(MonthStart(year, month), FormatDate(d)) && LexLess(FormatDate(d), MonthEnd(year, month))
            <==> d.year == year && d.month == month
  {
    NotBeforeMonthStart(d, year, month);
    BeforeMonthEnd(d, year, month);
  }

  lemma NotBeforeMonthStart(d: Date, year: nat, month: nat)
    requires IsValidDate(d) && 1 <= year <= 9999 && 1 <= month <= 12
    ensures LexLe(MonthStart(year, month), FormatDate(d)) <==> d.year > year || (d.year == year && d.month >= month)
  {
    var first := Date(year, month, 1);
    var start, text := FormatDate(first), FormatDate(d);
    assert start == text <==> first == d by {
      if start == text {
        FormatDateInjective(first, d);
      }
    }
    FormatDateOrder(first, d);
    assert LexLess(start, text) <==> DateBefore(first, d);
    assert LexLe(start, text) <==> first == d || DateBefore(first, d);
  }

  lemma BeforeMonthEnd(d: Date, year: nat, month: nat)
    requires IsValidDate(d) && 1 <= year <= 9999 && 1 <= month <= 12 && !(year == 9999 && month == 12)
    ensures LexLess(FormatDate(d), MonthEnd(year, month)) <==> d.year < year || (d.year == year && d.month <= month)
  {
    var (ny, nm) := NextMonth(year, month);
    var next := Date(ny, nm, 1);
    FormatDateOrder(d, next);
    assert LexLess(FormatDate(d), FormatDate(next)) <==> DateBefore(d, next);
  }

  /** A canonically written date saved for a user is found by the query for its month (the save / list round trip). */
  lemma SavedDateInItsMonth(d: Date)
    requires IsValidDate(d) && !(d.year == 9999 && d.month == 12)
    ensures LexLe(MonthStart(d.year, d.month), FormatDate(d)) && LexLess(FormatDate(d), MonthEnd(d.year, d.month))
  {
    MonthRangeIsTheMonth(d, d.year, d.month);
  }

  /** Every month the handler's check `strptime(year_month + "-01")` lets through parses to that month here. */
  lemma CheckedMonthParses(yearMonth: string, d: Date)
    requires Strptime(yearMonth + "-01") == Some(d)
    ensures ParseYearMonth(yearMonth) == Some((d.year as nat, d.month as nat))
  {
    var s := yearMonth + "-01";
    var rest := s[5..];
    var k := MonthFieldLength(rest);
    var dayText := rest[k + 1..];
    assert IsDayField(dayText);
    assert s[|s| - 2] == '0' && s[|s| - 3] == '-';
    assert |dayText| == 2;
    assert |yearMonth| == 5 + k;
    var y, m := s[..4], rest[..k];
    assert yearMonth == y + ['-'] + m;
    assert '-' !in y by { assert AllDigits(y); }
    assert '-' !in m by { assert AllDigits(m); }
    SplitAround(y, '-', m);
    SplitWithout(m, '-');
  }

  /**
   * The month bound as written, for an unpadded month: `2024-3` passes the handler's
   * check, yet `2024-3-01` sorts after the end bound `2024-04-01`, so the query
   * matches no entry at all.
   */
  function UnpaddedMonth(year: nat, month: nat): string
    requires year < 10000 && 1 <= month <= 9
  {
    Digits(year, 4) + "-" + [DigitChar(month)]
  }

  lemma UnpaddedMonthRangeIsEmpty(year: nat, month: nat, userId: string)
    requires 1 <= year <= 9999 && 1 <= month <= 9
    ensures var ym := UnpaddedMonth(year, month);
      && Strptime(ym + "-01") == Some(Date(year, month, 1))
      && ParseYearMonth(ym) == Some((year, month))
      && LexLess(MonthEnd(year, month), MonthStartAsWritten(ym))
      && forall e :: !InRange(e, userId, MonthStartAsWritten(ym), MonthEnd(year, month))
  {
    UnpaddedMonthPassesCheck(year, month);
    UnpaddedMonthParses(year, month);
    UnpaddedBoundsCross(year, month);
    var start, end := MonthStartAsWritten(UnpaddedMonth(year, month)), MonthEnd(year, month);
    forall e ensures !InRange(e, userId, start, end) {
      if InRange(e, userId, start, end) {
        LexLessAsymmetric(end, start);
        if start != e.date {
          LexLessTransitive(start, e.date, end);
        }
      }
    }
  }

  lemma UnpaddedMonthPassesCheck(year: nat, month: nat)
    requires 1 <= year <= 9999 && 1 <= month <= 9
    ensures Strptime(UnpaddedMonth(year, month) + "-01") == Some(Date(year, month, 1))
  {
    var y, c := Digits(year, 4), DigitChar(month);
    assert Pow10(4) == 10000;
    DigitsValueOfDigits(year, 4);
    UnpaddedMonthField(month);
    assert UnpaddedMonth(year, month) + "-01" == y + "-" + [c] + "-" + "01";
    StrptimeOf(y, [c], "01");
  }

  /** `%m` takes the single digit of an unpadded month; `%d` reads `01` as 1. */
  lemma UnpaddedMonthField(month: nat)
    requires 1 <= month <= 9
    ensures var c := DigitChar(month);
      AllDigits([c]) && DigitsValue([c]) == month && MonthFieldLength([c] + "-01") == 1
    ensures IsDayField("01") && DayFieldValue("01") == 1
  {
    var c := DigitChar(month);
    assert [c][..0] == [];
    assert ([c] + "-01")[0] == c && ([c] + "-01")[1] == '-';
  }

  lemma UnpaddedMonthParses(year: nat, month: nat)
    requires 1 <= year <= 9999 && 1 <= month <= 9
    ensures ParseYearMonth(UnpaddedMonth(year, month)) == Some((year, month))
  {
    var y, c := Digits(year, 4), DigitChar(month);
    assert Pow10(4) == 10000;
    DigitsValueOfDigits(year, 4);
    assert DigitsValue([c]) == month by { assert [c][..0] == []; }
    assert '-' !in y by { assert AllDigits(y); }
    assert UnpaddedMonth(year, month) == y + ['-'] + [c];
    SplitAround(y, '-', [c]);
    SplitWithout([c], '-');
  }

  lemma UnpaddedBoundsCross(year: nat, month: nat)
    requires 1 <= year <= 9999 && 1 <= month <= 9
    ensures LexLess(MonthEnd(year, month), MonthStartAsWritten(UnpaddedMonth(year, month)))
  {
    var y, c := Digits(year, 4), DigitChar(month);
    assert Pow10(4) == 10000 && Pow10(2) == 100;
    var start, end := MonthStartAsWritten(UnpaddedMonth(year, month)), MonthEnd(year, month);
    var tailStart, tailEnd := [c] + "-01", Digits(month + 1, 2) + "-01";
    assert start == y + ("-" + tailStart);
    assert end == y + ("-" + tailEnd);
    TwoDigits(month + 1);
    assert LexLess(tailEnd, tailStart);
    LexLessIrreflexive(y);
    LexLessSplitAt(y, y, "-" + tailEnd, "-" + tailStart);
    LexLessSplitAt("-", "-", tailEnd, tailStart);
    LexLessIrreflexive("-");
  }

  /** With the start bound padded like the end bound, the same month lists the entries of that month. */
  lemma PaddedMonthRangeIsTheMonth(year: nat, month: nat, d: Date)
    requires 1 <= year <= 9999 && 1 <= month <= 9 && IsValidDate(d)
    ensures ParseYearMonth(UnpaddedMonth(year, month)) == Some((year, month))
    ensures LexLe(MonthStart(year, month), FormatDate(d)) && LexLess(FormatDate(d), MonthEnd(year, month))
            <==> d.year == year && d.month == month
  {
    UnpaddedMonthRangeIsEmpty(year, month, "");
    MonthRangeIsTheMonth(d, year, month);
  }

  // ---- month queries ----

  /**
   * The month query's filter: `userId == user_id`, `date >= start`, `date < end`.
   * Only a range whose start sorts before its end matches anything.
   */
  predicate InRange(e: DiaryEntry, userId: string, start: string, end: string): (r: bool)
    ensures r ==> LexLess(start, end)
  {
    var matches := e.userId == userId && LexLe(start, e.date) && LexLess(e.date, end);
    if matches && start != e.date then LexLessTransitive(start, e.date, end); matches else matches
  }

  predicate SortedByDate(entries: seq<DiaryEntry>)
  {
    forall i, j :: 0 <= i < j < |entries| ==> LexLe(entries[i].date, entries[j].date)
  }

  /** Puts `e` into date order, before the first entry that does not sort before it. */
  function InsertByDate(entries: seq<DiaryEntry>, e: DiaryEntry): (r: seq<DiaryEntry>)
    ensures |r| == |entries| + 1
    ensures forall x :: x in r <==> x == e || x in entries
    ensures multiset(r) == multiset(entries) + multiset{e}
    decreases |entries|
  {
    if entries == [] then [e]
    else if LexLe(e.date, entries[0].date) then [e] + entries
    else
      assert entries == [entries[0]] + entries[1..];
      [entries[0]] + InsertByDate(entries[1..], e)
  }

  lemma {:induction false} InsertByDateSorted(entries: seq<DiaryEntry>, e: DiaryEntry)
    requires SortedByDate(entries)
    ensures SortedByDate(InsertByDate(entries, e))
    decreases |entries|
  {
    if entries != [] {
      if LexLe(e.date, entries[0].date) {
        forall x | x in entries ensures LexLe(e.date, x.date) {
          var k :| 0 <= k < |entries| && entries[k] == x;
          if k > 0 {
            LexLeTransitive(e.date, entries[0].date, x.date);
          }
        }
        ConsSorted(e, entries);
      } else {
        var rest := InsertByDate(entries[1..], e);
        InsertByDateSorted(entries[1..], e);
        HeadBeforeInserted(entries, e);
        ConsSorted(entries[0], rest);
      }
    }
  }

  /** An entry not after any entry of a sorted sequence can go in front of it. */
  lemma ConsSorted(x: DiaryEntry, rest: seq<DiaryEntry>)
    requires SortedByDate(rest)
    requires forall y | y in rest :: LexLe(x.date, y.date)
    ensures SortedByDate([x] + rest)
  {
    var r := [x] + rest;
    forall i, j | 0 <= i < j < |r| ensures LexLe(r[i].date, r[j].date) {
      if i == 0 {
        assert r[j] in rest;
      } else {
        assert r[i] == rest[i - 1] && r[j] == rest[j - 1];
      }
    }
  }

  /** When `e` goes after the head, the head is not after anything in the rest with `e` put in. */
  lemma HeadBeforeInserted(entries: seq<DiaryEntry>, e: DiaryEntry)
    requires entries != [] && SortedByDate(entries) && !LexLe(e.date, entries[0].date)
    ensures forall y | y in InsertByDate(entries[1..], e) :: LexLe(entries[0].date, y.date)
  {
    forall y | y in InsertByDate(entries[1..], e) ensures LexLe(entries[0].date, y.date) {
      if y == e {
        LexLessTotal(e.date, entries[0].date);
      } else {
        var k :| 0 <= k < |entries[1..]| && entries[1..][k] == y;
        assert entries[k + 1] == y;
      }
    }
  }

  /**
   * What a month listing returns: exactly the user's entries in `[start, end)`, one per
   * document (an entry occurs as often as there are matching documents holding it), in date order.
   */
  ghost predicate IsListing(docs: map<string, DiaryEntry>, userId: string, start: string, end: string, entries: seq<DiaryEntry>)
  {
    && (forall e :: e in entries <==> e in docs.Values && InRange(e, userId, start, end))
    && |entries| == |set k | k in docs && InRange(docs[k], userId, start, end)|
    && (forall e :: multiset(entries)[e] == |set k | k in docs && docs[k] == e && InRange(e, userId, start, end)|)
    && SortedByDate(entries)
  }

  /** The keys among `keys` whose document is `e`. */
  ghost function Holding(docs: map<string, DiaryEntry>, keys: set<string>, e: DiaryEntry): (r: set<string>)
    ensures r <= keys
  {
    set k | k in keys && k in docs && docs[k] == e
  }

  /** Adding one more matched key adds one occurrence of its entry and of nothing else. */
  lemma HoldingStep(docs: map<string, DiaryEntry>, matched: set<string>, key: string, entries: seq<DiaryEntry>)
    requires key in docs && key !in matched
    requires forall e :: multiset(entries)[e] == |Holding(docs, matched, e)|
    ensures forall e :: multiset(InsertByDate(entries, docs[key]))[e] == |Holding(docs, matched + {key}, e)|
  {
    var x := docs[key];
    var r := InsertByDate(entries, x);
    assert multiset(r) == multiset(entries) + multiset{x};
    forall e ensures multiset(r)[e] == |Holding(docs, matched + {key}, e)| {
      HoldingAdd(docs, matched, key, e);
    }
  }

  lemma HoldingAdd(docs: map<string, DiaryEntry>, matched: set<string>, key: string, e: DiaryEntry)
    requires key in docs && key !in matched
    ensures Holding(docs, matched + {key}, e) == Holding(docs, matched, e) + (if docs[key] == e then {key} else {})
    ensures |Holding(docs, matched + {key}, e)| == |Holding(docs, matched, e)| + (if docs[key] == e then 1 else 0)
  {
    assert Holding(docs, matched + {key}, e) == Holding(docs, matched, e) + (if docs[key] == e then {key} else {});
  }

  /** The entries stored under a set of keys. */
  ghost function Image(docs: map<string, DiaryEntry>, keys: set<string>): (r: set<DiaryEntry>)
    requires keys <= docs.Keys
    ensures forall k | k in keys :: docs[k] in r
  {
    set k | k in keys :: docs[k]
  }

  /** The keys among `visited` whose entries the month query matches. */
  ghost function Matching(docs: map<string, DiaryEntry>, visited: set<string>, userId: string, start: string, end: string): (r: set<string>)
    ensures r <= visited
  {
    set k | k in visited && k in docs && InRange(docs[k], userId, start, end)
  }

  lemma MatchingStep(docs: map<string, DiaryEntry>, visited: set<string>, key: string, userId: string, start: string, end: string)
    requires key in docs
    ensures Matching(docs, visited + {key}, userId, start, end)
            == Matching(docs, visited, userId, start, end) + (if InRange(docs[key], userId, start, end) then {key} else {})
  {
  }

  /** One document of the query's stream: kept, in date order, when it matches. */
  function AddIfInRange(entries: seq<DiaryEntry>, e: DiaryEntry, userId: string, start: string, end: string): seq<DiaryEntry>
  {
    if InRange(e, userId, start, end) then InsertByDate(entries, e) else entries
  }

  /** The loop state of the month query after visiting some of the documents. */
  ghost predicate ListingSoFar(docs: map<string, DiaryEntry>, visited: set<string>, matched: set<string>,
                               entries: seq<DiaryEntry>, userId: string, start: string, end: string)
  {
    && visited <= docs.Keys
    && matched == Matching(docs, visited, userId, start, end)
    && |entries| == |matched|
    && (forall e :: e in entries <==> e in Image(docs, matched))
    && (forall e :: multiset(entries)[e] == |Holding(docs, matched, e)|)
    && SortedByDate(entries)
  }

  lemma ListingStep(docs: map<string, DiaryEntry>, visited: set<string>, matched: set<string>,
                    entries: seq<DiaryEntry>, key: string, userId: string, start: string, end: string)
    requires ListingSoFar(docs, visited, matched, entries, userId, start, end)
    requires key in docs && key !in visited
    ensures ListingSoFar(docs, visited + {key},
                         if InRange(docs[key], userId, start, end) then matched + {key} else matched,
                         AddIfInRange(entries, docs[key], userId, start, end), userId, start, end)
  {
    var e := docs[key];
    MatchingStep(docs, visited, key, userId, start, end);
    if InRange(e, userId, start, end) {
      ImageStep(docs, matched, key);
      InsertByDateSorted(entries, e);
      HoldingStep(docs, matched, key, entries);
      var entries', matched' := InsertByDate(entries, e), matched + {key};
      assert key !in matched;
      assert |entries'| == |matched'|;
      assert forall x :: x in entries' <==> x in Image(docs, matched');
      assert ListingSoFar(docs, visited + {key}, matched', entries', userId, start, end);
    } else {
      assert ListingSoFar(docs, visited + {key}, matched, entries, userId, start, end);
    }
  }

  /** Moving one key from the pending documents to the visited ones keeps them apart and covering the same keys. */
  lemma VisitOne(visited: set<string>, pending: set<string>, key: string)
    requires key in pending && visited !! pending
    ensures (visited + {key}) + (pending - {key}) == visited + pending && (visited + {key}) !! (pending - {key})
  {
  }

  /** Before the first document, nothing is visited, matched or listed. */
  lemma ListingStart(docs: map<string, DiaryEntry>, userId: string, start: string, end: string)
    ensures ListingSoFar(docs, {}, {}, [], userId, start, end)
  {
    forall e ensures multiset([])[e] == |Holding(docs, {}, e)| {
      assert Holding(docs, {}, e) == {};
    }
    assert Matching(docs, {}, userId, start, end) == {};
  }

  /** Once every document is visited, the loop state is the listing. */
  lemma ListingComplete(docs: map<string, DiaryEntry>, matched: set<string>, entries: seq<DiaryEntry>,
                        userId: string, start: string, end: string)
    requires ListingSoFar(docs, docs.Keys, matched, entries, userId, start, end)
    ensures IsListing(docs, userId, start, end, entries)
  {
    assert matched == set k | k in docs && InRange(docs[k], userId, start, end);
    forall e ensures e in entries <==> e in docs.Values && InRange(e, userId, start, end) {
      if e in docs.Values && InRange(e, userId, start, end) {
        var k :| k in docs && docs[k] == e;
        assert k in matched;
      }
    }
    forall e ensures multiset(entries)[e] == |set k | k in docs && docs[k] == e && InRange(e, userId, start, end)| {
      assert Holding(docs, matched, e) == set k | k in docs && docs[k] == e && InRange(e, userId, start, end);
    }
  }

  lemma ImageStep(docs: map<string, DiaryEntry>, keys: set<string>, key: string)
    requires keys <= docs.Keys && key in docs
    ensures Image(docs, keys + {key}) == Image(docs, keys) + {docs[key]}
  {
  }

  class Store {
    /** Whether the Firestore client was created at start-up. */
    const available: bool
    /** The `entries` collection, by document key. */
    var docs: map<string, DiaryEntry>

    ghost predicate Valid()
      reads this
    {
      forall k | k in docs :: docs[k].version >= 1
    }

    constructor (available: bool)
      ensures Valid() && this.available == available && docs == map[]
    {
      this.available := available;
      docs := map[];
    }

    /** `get_diary_entry`: the entry under the user's key for that day, or `None`. */
    function Get(userId: string, date: string): (r: Result<Option<DiaryEntry>, string>)
      reads this
      ensures !available <==> r == Err(Unavailable)
      ensures available ==> r.Ok? && (r.value.None? <==> DocKey(userId, date) !in docs)
      ensures available && r.value.Some? ==> r.value.value == docs[DocKey(userId, date)]
    {
      if !available then Err(Unavailable)
      else
        var key := DocKey(userId, date);
        if key in docs then Ok(Some(docs[key])) else Ok(None)
    }

    /** `save_diary_entry`: create the document, or merge the request into it. */
    method Save(request: DiaryEntryCreate, now: Timestamp) returns (r: Result<DiaryEntry, string>)
      requires Valid()
      modifies this
      ensures Valid()
      ensures !available ==> r == Err(Unavailable) && docs == old(docs)
      ensures available ==>
        var key := DocKey(RequestUserId(request), request.date);
        && r.Ok?
        && r.value == (if key in old(docs) then Merge(old(docs)[key], request, now) else Create(request, now))
        && docs == old(docs)[key := r.value]
        && Get(RequestUserId(request), request.date) == Ok(Some(r.value))
        && (r.value.version == 1 <==> key !in old(docs))
      ensures forall k | k in old(docs) :: k in docs && old(docs)[k].version <= docs[k].version
    {
      if !available {
        return Err(Unavailable);
      }
      var key := DocKey(RequestUserId(request), request.date);
      if key in docs {
        var existing := docs[key];
        docs := docs[key := Merge(existing, request, now)];
        r := Ok(docs[key]);
      } else {
        var entry := Create(request, now);
        docs := docs[key := entry];
        r := Ok(entry);
      }
    }

    /**
     * `get_diary_entries_by_month`: the user's entries from `f"{year_month}-01"`, the month
     * as the client wrote it, up to the first of the next month, in date order.
     */
    method EntriesByMonth(userId: string, yearMonth: string) returns (r: Result<seq<DiaryEntry>, string>)
      ensures !available ==> r == Err(Unavailable)
      ensures available && ParseYearMonth(yearMonth).None? ==> r.Err?
      ensures available && ParseYearMonth(yearMonth).Some? ==>
        var (year, month) := ParseYearMonth(yearMonth).value;
        r.Ok? && IsListing(docs, userId, MonthStartAsWritten(yearMonth), MonthEnd(year, month), r.value)
    {
      if !available {
        return Err(Unavailable);
      }
      var start := MonthStartAsWritten(yearMonth);
      var parsed := ParseYearMonth(yearMonth);
      if parsed.None? {
        return Err(NotAnInteger);
      }
      var (year, month) := parsed.value;
      var entries := Collect(userId, start, MonthEnd(year, month));
      r := Ok(entries);
    }

    /** The month query with the start bound padded like the end bound: for a valid month it lists exactly that month. */
    method EntriesByMonthPadded(userId: string, yearMonth: string) returns (r: Result<seq<DiaryEntry>, string>)
      ensures !available ==> r == Err(Unavailable)
      ensures available && ParseYearMonth(yearMonth).None? ==> r.Err?
      ensures available && ParseYearMonth(yearMonth).Some? ==>
        var (year, month) := ParseYearMonth(yearMonth).value;
        r.Ok? && IsListing(docs, userId, MonthStart(year, month), MonthEnd(year, month), r.value)
    {
      if !available {
        return Err(Unavailable);
      }
      var parsed := ParseYearMonth(yearMonth);
      if parsed.None? {
        return Err(NotAnInteger);
      }
      var (year, month) := parsed.value;
      var entries := Collect(userId, MonthStart(year, month), MonthEnd(year, month));
      r := Ok(entries);
    }

    /** The query's stream: every document of the user in `[start, end)`, in date order. */
    method Collect(userId: string, start: string, end: string) returns (entries: seq<DiaryEntry>)
      ensures IsListing(docs, userId, start, end, entries)
    {
      entries := [];
      var pending := docs.Keys;
      ghost var visited: set<string> := {};
      ghost var matched: set<string> := {};
      ListingStart(docs, userId, start, end);
      while pending != {}
        invariant visited + pending == docs.Keys && visited !! pending
        invariant ListingSoFar(docs, visited, matched, entries, userId, start, end)
        decreases pending
      {
        var key :| key in pending;
        var doc := docs[key];
        ListingStep(docs, visited, matched, entries, key, userId, start, end);
        entries := AddIfInRange(entries, doc, userId, start, end);
        matched := if InRange(doc, userId, start, end) then matched + {key} else matched;
        VisitOne(visited, pending, key);
        visited := visited + {key};
        pending := pending - {key};
      }
      assert visited == docs.Keys;
      ListingComplete(docs, matched, entries, userId, start, end);
    }

    /**
     * The store half of `generate_diff_summary`: a reply is stripped and written to
     * `diffText` with a new `updatedAt`; any failure (the model's, a missing document,
     * a missing client) is returned as text starting with the failure notice, and the
     * store is left as it was.
     */
    method GenerateDiffSummary(userId: string, date: string, plan: string, actual: string,
                               model: (string, string) -> Generation, now: Timestamp) returns (text: string)
      requires Valid()
      modifies this
      ensures Valid()
      ensures
        var key := DocKey(userId, date);
        if model(plan, actual).Generated? && available && key in old(docs) then
          && text == Strip(model(plan, actual).text)
          && docs == old(docs)[key := old(docs)[key].(diffText := Some(text), updatedAt := now)]
        else
          && text == FailureNotice(
               if model(plan, actual).GenerationFailed? then model(plan, actual).message
               else if !available then NoClient else NoDocument)
          && docs == old(docs)
    {
      var outcome := model(plan, actual);
      var key := DocKey(userId, date);
      if outcome.GenerationFailed? || !available || key !in docs {
        // the model's exception, then the missing client, then `update` on a missing document
        text := FailureNotice(if outcome.GenerationFailed? then outcome.message else if !available then NoClient else NoDocument);
      } else {
        text := Strip(outcome.text);
        docs := docs[key := docs[key].(diffText := Some(text), updatedAt := now)];
      }
    }
  }

  const DiffFailure: string := "差分要約の生成に失敗しました"

  /** `f"差分要約の生成に失敗しました: {str(e)}"`: the text returned in place of a summary. */
  function FailureNotice(reason: string): (t: string)
    ensures StartsWith(t, DiffFailure)
    ensures t[|DiffFailure|..] == ": " + reason
  {
    StartsWithConcat(DiffFailure, ": " + reason);
    DiffFailure + (": " + reason)
  }
  /** What `str(e)` starts with when `int()` meets a part that is not a number. */
  const NotAnInteger: string := "invalid literal for int() with base 10"
  /** What `str(e)` reads when the missing client is used. */
  const NoClient: string := "'NoneType' object has no attribute 'collection'"
  /** What `str(e)` reads when Firestore's `update` finds no document. */
  const NoDocument: string := "404 No document to update"
}
