/**
 * Video generation (`src/videogen.py`): a per-user status record in the collection
 * `video_generations` that guards the intro and the special (seven-day streak) video,
 * the decisions the two endpoints take on it, the status response, and the selection
 * of what feeds the video prompt. The video service (Veo, then the upload to Cloud
 * Storage) is a parameter that either yields the public URL or fails; timestamps and
 * generation ids are parameters.
 */
module VideoGen {
  import opened Wrappers
  import opened Strings
  import opened Http
  import opened Db

  // ---- the status record ----

  datatype Status = Generating | Completed | GeneratingSpecial | Special

  /** The `status` text stored in the record. */
  function StatusName(s: Status): string
  {
    match s
    case Generating => "generating"
    case Completed => "completed"
    case GeneratingSpecial => "generating_special"
    case Special => "special"
  }

  lemma StatusNameInjective(a: Status, b: Status)
    requires StatusName(a) == StatusName(b)
    ensures a == b
  {
  }

  datatype GenerationRecord = GenerationRecord(
    generationId: string,
    status: Status,
    startedAt: Timestamp,
    completedAt: Option<Timestamp>,
    videoUrl: Option<string>,
    videoType: Option<string>)

  /** A record still generating has no URL and no completion time; a finished one has both. */
  predicate WellFormed(r: GenerationRecord)
  {
    && (r.status == Generating || r.status == GeneratingSpecial ==> r.completedAt.None? && r.videoUrl.None?)
    && (r.status == Completed || r.status == Special ==> r.completedAt.Some? && r.videoUrl.Some?)
  }

  const SpecialType: string := "special"

  /** What `_mark_video_generation_started` writes. */
  function Started(generationId: string, now: Timestamp): (r: GenerationRecord)
    ensures WellFormed(r) && r.status == Generating && r.videoType.None?
  {
    GenerationRecord(generationId, Generating, now, None, None, None)
  }

  /** What `_mark_special_video_generation_started` writes. */
  function SpecialStarted(generationId: string, now: Timestamp): (r: GenerationRecord)
    ensures WellFormed(r) && r.status == GeneratingSpecial && r.videoType == Some(SpecialType)
  {
    GenerationRecord(generationId, GeneratingSpecial, now, None, None, Some(SpecialType))
  }

  /** The update both completion marks apply: the new status, the time and the URL; the rest of the record stays. */
  function Finished(r: GenerationRecord, status: Status, url: string, now: Timestamp): (f: GenerationRecord)
    requires status == Completed || status == Special
    ensures WellFormed(f) && f.status == status && f.videoUrl == Some(url) && f.completedAt == Some(now)
    ensures f.generationId == r.generationId && f.startedAt == r.startedAt && f.videoType == r.videoType
  {
    r.(status := status, completedAt := Some(now), videoUrl := Some(url))
  }

  /**
   * The `video_generations` collection. When Firestore is not there every read finds
   * nothing and every write is skipped: the source catches and logs those failures.
   */
  class VideoGenerations {
    const available: bool
    var records: map<string, GenerationRecord>

    ghost predicate Valid()
      reads this
    {
      forall u | u in records :: WellFormed(records[u])
    }

    constructor (available: bool)
      ensures Valid() && this.available == available && records == map[]
    {
      this.available := available;
      records := map[];
    }

    /** `_check_video_generation_status` */
    function Lookup(userId: string): (r: Option<GenerationRecord>)
      reads this
      ensures r.Some? <==> available && userId in records
      ensures r.Some? ==> r.value == records[userId]
    {
      if available && userId in records then Some(records[userId]) else None
    }

    /** `_mark_video_generation_started`: replaces whatever record the user had. */
    method MarkStarted(userId: string, generationId: string, now: Timestamp)
      requires Valid()
      modifies this
      ensures Valid()
      ensures records == if available then old(records)[userId := Started(generationId, now)] else old(records)
    {
      if available {
        records := records[userId := Started(generationId, now)];
      }
    }

    /** `_mark_special_video_generation_started` */
    method MarkSpecialStarted(userId: string, generationId: string, now: Timestamp)
      requires Valid()
      modifies this
      ensures Valid()
      ensures records == if available then old(records)[userId := SpecialStarted(generationId, now)] else old(records)
    {
      if available {
        records := records[userId := SpecialStarted(generationId, now)];
      }
    }

    /** Both completion marks: an `update`, which fails (and is ignored) when the record is gone. */
    method MarkFinished(userId: string, status: Status, url: string, now: Timestamp)
      requires Valid() && (status == Completed || status == Special)
      modifies this
      ensures Valid()
      ensures records == if available && userId in old(records)
        then old(records)[userId := Finished(old(records)[userId], status, url, now)]
        else old(records)
    {
      if available && userId in records {
        records := records[userId := Finished(records[userId], status, url, now)];
      }
    }

    /** The clean-up after a failed generation: the record is deleted, so the user may retry. */
    method Clear(userId: string)
      requires Valid()
      modifies this
      ensures Valid()
      ensures records == if available then old(records) - {userId} else old(records)
      ensures Lookup(userId).None?
    {
      if available {
        records := records - {userId};
      }
    }
  }

  // ---- decisions on the record ----

  datatype IntroDecision = ReturnCached(url: string, generationId: string) | AlreadyGenerating | Regenerate

  /** `generate_intro_video`: reuse a completed video, refuse while one is generating, otherwise generate anew. */
  function DecideIntro(existing: Option<GenerationRecord>): (d: IntroDecision)
    requires existing.Some? ==> WellFormed(existing.value)
    ensures d.ReturnCached? <==> existing.Some? && existing.value.status == Completed
    ensures d.ReturnCached? ==> Some(d.url) == existing.value.videoUrl && d.generationId == existing.value.generationId
    ensures d.AlreadyGenerating? <==> existing.Some? && existing.value.status == Generating
    ensures d.Regenerate? <==> existing.None? || existing.value.status == GeneratingSpecial || existing.value.status == Special
  {
    match existing
    case None => Regenerate
    case Some(r) =>
      if StatusName(r.status) == "completed" then ReturnCached(r.videoUrl.value, r.generationId)
      else if StatusName(r.status) == "generating" then AlreadyGenerating
      else Regenerate
  }

  /** `generate_special_video` reuses only a finished special video; nothing else stops a new one. */
  function DecideSpecial(existing: Option<GenerationRecord>): (d: Option<(string, string)>)
    requires existing.Some? ==> WellFormed(existing.value)
    ensures d.Some? <==> existing.Some? && existing.value.status == Special
    ensures d.Some? ==> Some(d.value.0) == existing.value.videoUrl && d.value.1 == existing.value.generationId
  {
    if existing.Some? && StatusName(existing.value.status) == "special" then
      Some((existing.value.videoUrl.value, existing.value.generationId))
    else None
  }

  /** The body of `GET /video/status`. */
  datatype VideoStatusResponse = VideoStatusResponse(
    introVideoGenerated: bool,
    introVideoUrl: Option<string>,
    lastGenerated: Option<Timestamp>,
    status: Option<string>,
    generationId: Option<string>)

  function VideoStatus(existing: Option<GenerationRecord>): (r: VideoStatusResponse)
    ensures r.introVideoGenerated <==> existing.Some? && existing.value.status == Completed
    ensures existing.None? ==> r == VideoStatusResponse(false, None, None, None, None)
    ensures existing.Some? ==>
      && r.status == Some(StatusName(existing.value.status))
      && r.introVideoUrl == existing.value.videoUrl
      && r.lastGenerated == existing.value.completedAt
      && r.generationId == Some(existing.value.generationId)
  {
    match existing
    case None => VideoStatusResponse(false, None, None, None, None)
    case Some(rec) =>
      VideoStatusResponse(StatusName(rec.status) == "completed", rec.videoUrl, rec.completedAt,
                          Some(StatusName(rec.status)), Some(rec.generationId))
  }

  /**
   * The record's life: a fresh start answers 409, a completed intro is reused, a
   * cleared record lets a new generation start, and a finished special video reads
   * as "no intro video" and does not stop a new intro.
   */
  lemma RecordLifecycle(generationId: string, url: string, started: Timestamp, done: Timestamp)
    ensures DecideIntro(Some(Started(generationId, started))) == AlreadyGenerating
    ensures DecideIntro(Some(Finished(Started(generationId, started), Completed, url, done))) == ReturnCached(url, generationId)
    ensures VideoStatus(Some(Finished(Started(generationId, started), Completed, url, done))).introVideoGenerated
    ensures DecideIntro(None) == Regenerate
    ensures DecideSpecial(Some(Finished(SpecialStarted(generationId, started), Special, url, done))) == Some((url, generationId))
    ensures DecideSpecial(Some(SpecialStarted(generationId, started))) == None
    ensures DecideIntro(Some(Finished(SpecialStarted(generationId, started), Special, url, done))) == Regenerate
    ensures !VideoStatus(Some(Finished(SpecialStarted(generationId, started), Special, url, done))).introVideoGenerated
  {
  }

  // ---- what feeds the prompts ----

  /** The user profile fields the prompts read; where they come from is not part of this model. */
  datatype UserProfile = UserProfile(
    userName: string,
    favoriteColors: Option<seq<string>>,
    favoriteSeason: Option<string>,
    occupation: Option<string>,
    hobbies: Option<string>,
    livingArea: Option<string>,
    prefecture: Option<string>)

  predicate HasColors(colors: Option<seq<string>>)
  {
    colors.Some? && colors.value != []
  }

  /** The intro's accent colours: at most the first two favourites, joined with `, `. */
  function AccentColors(colors: Option<seq<string>>): (r: Option<string>)
    ensures r.Some? <==> HasColors(colors)
    ensures r.Some? && |colors.value| <= 2 ==> r.value == Join(colors.value, ", ")
    ensures r.Some? && |colors.value| > 2 ==> r.value == Join(colors.value[..2], ", ")
  {
    if !HasColors(colors) then None
    else
      var cs := colors.value;
      Some(Join(cs[..if |cs| < 2 then |cs| else 2], ", "))
  }

  /** Favourites beyond the second never reach the intro prompt. */
  lemma AccentColorsFirstTwo(colors: seq<string>, more: seq<string>)
    requires |colors| == 2
    ensures AccentColors(Some(colors + more)) == AccentColors(Some(colors))
  {
    assert (colors + more)[..2] == colors;
  }

  /** The season map: the four Japanese season names, anything else read as spring. */
  function SeasonName(favorite: string): (r: string)
    ensures r in {"spring", "summer", "autumn", "winter"}
    ensures r == "summer" <==> favorite == "夏"
    ensures r == "autumn" <==> favorite == "秋"
    ensures r == "winter" <==> favorite == "冬"
    ensures favorite == "春" ==> r == "spring"
  {
    var seasons := map["春" := "spring", "夏" := "summer", "秋" := "autumn", "冬" := "winter"];
    if favorite in seasons then seasons[favorite] else "spring"
  }

  // ---- the streak days the special video shows ----

  /** An entry of the year, as the special video reads it. */
  datatype StreakEntry = StreakEntry(date: string, planText: Option<string>, actualText: Option<string>)

  /** What `check_streak` answers, or its failure; it is not part of this model. */
  datatype StreakCheck = StreakResult(hasSevenDayStreak: bool, streakDates: seq<string>) | StreakCheckFailed(message: string)

  datatype DayBody =
    | PlannedAndActual(planned: string, actual: string)
    | Reflection(text: string)
    | Plans(text: string)
    | Journaling

  datatype DayDescription = DayDescription(day: nat, date: string, body: DayBody) | GenericDay(day: nat)

  const PairLength: nat := 50
  const SingleLength: nat := 80
  const StreakDays: nat := 7

  /** One day's line: both texts cut to 50 characters, or the one text there is cut to 80. */
  function Describe(day: nat, e: StreakEntry): (d: DayDescription)
    ensures d.DayDescription? && d.day == day && d.date == e.date
    ensures d.body.PlannedAndActual? <==> Present(e.planText) && Present(e.actualText)
    ensures d.body.PlannedAndActual? ==>
      d.body.planned == Take(e.planText.value, PairLength) && d.body.actual == Take(e.actualText.value, PairLength)
    ensures d.body.Reflection? <==> Present(e.actualText) && !Present(e.planText)
    ensures d.body.Reflection? ==> d.body.text == Take(e.actualText.value, SingleLength)
    ensures d.body.Plans? <==> Present(e.planText) && !Present(e.actualText)
    ensures d.body.Plans? ==> d.body.text == Take(e.planText.value, SingleLength)
    ensures d.body.Journaling? <==> !Present(e.planText) && !Present(e.actualText)
  {
    var body :=
      if Present(e.planText) && Present(e.actualText) then
        PlannedAndActual(Take(e.planText.value, PairLength), Take(e.actualText.value, PairLength))
      else if Present(e.actualText) then Reflection(Take(e.actualText.value, SingleLength))
      else if Present(e.planText) then Plans(Take(e.planText.value, SingleLength))
      else Journaling;
    DayDescription(day, e.date, body)
  }

  /** The entries of the streak days, in the order they came. */
  function OnStreakDays(entries: seq<StreakEntry>, dates: seq<string>): (r: seq<StreakEntry>)
    ensures |r| <= |entries|
    ensures forall e :: e in r <==> e in entries && e.date in dates
    ensures multiset(r) <= multiset(entries)
    ensures forall e :: multiset(r)[e] == if e.date in dates then multiset(entries)[e] else 0
  {
    if entries == [] then []
    else
      var last := entries[|entries| - 1];
      var rest := OnStreakDays(entries[..|entries| - 1], dates);
      assert entries == entries[..|entries| - 1] + [last];
      if last.date in dates then rest + [last] else rest
  }

  predicate NewestFirst(entries: seq<StreakEntry>)
  {
    forall i, j :: 0 <= i < j < |entries| ==> LexLe(entries[j].date, entries[i].date)
  }

  /** Puts `e` before the first entry that is not newer than it. */
  function InsertNewestFirst(entries: seq<StreakEntry>, e: StreakEntry): (r: seq<StreakEntry>)
    ensures multiset(r) == multiset(entries) + multiset{e}
    decreases |entries|
  {
    if entries == [] then [e]
    else if !LexLess(e.date, entries[0].date) then [e] + entries
    else
      assert entries == [entries[0]] + entries[1..];
      [entries[0]] + InsertNewestFirst(entries[1..], e)
  }

  lemma {:induction false} InsertNewestFirstOrdered(entries: seq<StreakEntry>, e: StreakEntry)
    requires NewestFirst(entries)
    ensures NewestFirst(InsertNewestFirst(entries, e))
    decreases |entries|
  {
    if entries != [] {
      if !LexLess(e.date, entries[0].date) {
        LexLessTotal(e.date, entries[0].date);
        forall x | x in entries ensures LexLe(x.date, e.date) {
          var k :| 0 <= k < |entries| && entries[k] == x;
          LexLeTransitive(x.date, entries[0].date, e.date);
        }
        ConsNewestFirst(e, entries);
      } else {
        var rest := InsertNewestFirst(entries[1..], e);
        InsertNewestFirstOrdered(entries[1..], e);
        HeadNewerThanInserted(entries, e);
        ConsNewestFirst(entries[0], rest);
      }
    }
  }

  /** An entry not older than any entry of a newest-first sequence can go in front of it. */
  lemma ConsNewestFirst(x: StreakEntry, rest: seq<StreakEntry>)
    requires NewestFirst(rest)
    requires forall y | y in rest :: LexLe(y.date, x.date)
    ensures NewestFirst([x] + rest)
  {
    var r := [x] + rest;
    forall i, j | 0 <= i < j < |r| ensures LexLe(r[j].date, r[i].date) {
      if i == 0 {
        assert r[j] in rest;
      } else {
        assert r[i] == rest[i - 1] && r[j] == rest[j - 1];
      }
    }
  }

  /** When `e` goes after the head, nothing in the rest with `e` put in is newer than the head. */
  lemma HeadNewerThanInserted(entries: seq<StreakEntry>, e: StreakEntry)
    requires entries != [] && NewestFirst(entries) && LexLess(e.date, entries[0].date)
    ensures forall y | y in InsertNewestFirst(entries[1..], e) :: LexLe(y.date, entries[0].date)
  {
    forall y | y in InsertNewestFirst(entries[1..], e) ensures LexLe(y.date, entries[0].date) {
      assert y in multiset(InsertNewestFirst(entries[1..], e));
      if y != e {
        assert y in multiset(entries[1..]);
        var k :| 0 <= k < |entries[1..]| && entries[1..][k] == y;
        assert entries[k + 1] == y;
      }
    }
  }

  /** `sort(key=date, reverse=True)`: newest first, the same entries. */
  function SortNewestFirst(entries: seq<StreakEntry>): (r: seq<StreakEntry>)
    ensures NewestFirst(r)
    ensures multiset(r) == multiset(entries)
  {
    if entries == [] then []
    else
      assert entries == [entries[0]] + entries[1..];
      var sorted := SortNewestFirst(entries[1..]);
      InsertNewestFirstOrdered(sorted, entries[0]);
      InsertNewestFirst(sorted, entries[0])
  }

  /** The seven stand-in lines used when the entries cannot be fetched. */
  function GenericDays(): (r: seq<DayDescription>)
    ensures |r| == StreakDays && forall i :: 0 <= i < |r| ==> r[i] == GenericDay(i + 1)
  {
    seq(StreakDays, i requires 0 <= i < StreakDays => GenericDay(i + 1))
  }

  /** The day lines the special prompt is given, as a value. */
  function StreakPages(yearEntries: Result<seq<StreakEntry>, string>, streakDates: seq<string>): (r: seq<DayDescription>)
    ensures |r| <= StreakDays && forall i :: 0 <= i < |r| ==> r[i].day == i + 1
    ensures yearEntries.Err? ==> |r| == StreakDays && forall i :: 0 <= i < |r| ==> r[i].GenericDay?
  {
    match yearEntries
    case Err(_) => GenericDays()
    case Ok(all) => DescribeFirst(SortNewestFirst(OnStreakDays(all, streakDates)))
  }

  /** The descriptions of the first (at most) seven entries, numbered from 1. */
  function DescribeFirst(chosen: seq<StreakEntry>): (r: seq<DayDescription>)
    ensures var n := if |chosen| < StreakDays then |chosen| else StreakDays;
      |r| == n && forall i :: 0 <= i < n ==> r[i] == Describe(i + 1, chosen[i])
  {
    var n := if |chosen| < StreakDays then |chosen| else StreakDays;
    seq(n, i requires 0 <= i < n => Describe(i + 1, chosen[i]))
  }

  /**
   * The day lines of the special video. The streak days' entries, newest first, give
   * at most seven lines numbered from 1; when the year's entries cannot be fetched,
   * seven generic lines stand in.
   */
  method DescribeStreak(yearEntries: Result<seq<StreakEntry>, string>, streakDates: seq<string>)
    returns (days: seq<DayDescription>)
    ensures days == StreakPages(yearEntries, streakDates)
  {
    if yearEntries.Err? {
      days := GenericLines();
    } else {
      var kept := KeepStreakDays(yearEntries.value, streakDates);
      days := DescribeNewest(SortNewestFirst(kept));
    }
  }

  /** The seven generic lines, numbered from 1. */
  method GenericLines() returns (days: seq<DayDescription>)
    ensures days == GenericDays()
  {
    days := [];
    var n := 1;
    while n <= StreakDays
      invariant 1 <= n <= StreakDays + 1
      invariant |days| == n - 1 && forall i :: 0 <= i < |days| ==> days[i] == GenericDay(i + 1)
    {
      days := days + [GenericDay(n)];
      n := n + 1;
    }
  }

  /** The entries whose date is one of the streak days, in their original order. */
  method KeepStreakDays(all: seq<StreakEntry>, streakDates: seq<string>) returns (kept: seq<StreakEntry>)
    ensures kept == OnStreakDays(all, streakDates)
  {
    kept := [];
    for i := 0 to |all|
      invariant kept == OnStreakDays(all[..i], streakDates)
    {
      assert all[..i + 1][..i] == all[..i];
      if all[i].date in streakDates {
        kept := kept + [all[i]];
      }
    }
    assert all[..|all|] == all;
  }

  /** Describes the chosen entries one by one; at most seven, numbered from 1. */
  method DescribeNewest(chosen: seq<StreakEntry>) returns (days: seq<DayDescription>)
    ensures days == DescribeFirst(chosen)
  {
    days := [];
    var i := 0;
    while i < |chosen| && i < StreakDays
      invariant 0 <= i <= |chosen| && i <= StreakDays
      invariant |days| == i
      invariant forall j :: 0 <= j < i ==> days[j] == Describe(j + 1, chosen[j])
    {
      days := days + [Describe(i + 1, chosen[i])];
      i := i + 1;
    }
  }

  /**
   * The pages are the streak days only, newest first, at most seven, numbered from 1,
   * each the description of an entry of the year.
   */
  lemma StreakPagesSelection(all: seq<StreakEntry>, streakDates: seq<string>)
    ensures var pages, chosen := StreakPages(Ok(all), streakDates), SortNewestFirst(OnStreakDays(all, streakDates));
      && |pages| <= StreakDays
      && |pages| == (if |chosen| < StreakDays then |chosen| else StreakDays)
      && (forall i :: 0 <= i < |pages| ==> pages[i] == Describe(i + 1, chosen[i]) && pages[i].day == i + 1)
      && (forall i :: 0 <= i < |pages| ==> pages[i].DayDescription? && pages[i].date in streakDates)
      && (forall i, j :: 0 <= i < j < |pages| ==>
            pages[i].DayDescription? && pages[j].DayDescription? && LexLe(pages[j].date, pages[i].date))
  {
    var chosen := SortNewestFirst(OnStreakDays(all, streakDates));
    var pages := StreakPages(Ok(all), streakDates);
    assert pages == DescribeFirst(chosen);
    ChosenOnStreakDays(all, streakDates);
    forall i | 0 <= i < |pages|
      ensures pages[i] == Describe(i + 1, chosen[i]) && pages[i].DayDescription?
      ensures pages[i].day == i + 1 && pages[i].date == chosen[i].date
    {
    }
  }

  /** Sorting keeps only entries of streak days. */
  lemma ChosenOnStreakDays(all: seq<StreakEntry>, streakDates: seq<string>)
    ensures var chosen := SortNewestFirst(OnStreakDays(all, streakDates));
      forall i :: 0 <= i < |chosen| ==> chosen[i].date in streakDates
  {
    var kept := OnStreakDays(all, streakDates);
    var chosen := SortNewestFirst(kept);
    forall i | 0 <= i < |chosen| ensures chosen[i].date in streakDates {
      assert chosen[i] in multiset(kept);
    }
  }

  // ---- the endpoints ----

  datatype PromptInputs =
    | IntroPrompt(userName: string, accentColors: Option<string>, season: Option<string>)
    | SpecialPrompt(userName: string, pages: seq<DayDescription>, colors: Option<string>, favoriteSeason: Option<string>,
                    occupation: Option<string>, hobbies: Option<string>, landscape: Option<(string, string)>)

  /** One call of the video service: the prompt, the length in seconds and the file name of the upload. */
  datatype VideoJob = VideoJob(prompt: PromptInputs, durationSeconds: nat, filename: string)

  datatype VideoOutcome = Uploaded(url: string) | VideoFailed(message: string)

  datatype PromptUsed = PreviouslyGenerated(note: string) | UsedPrompt(inputs: PromptInputs)

  datatype VideoGenerateResponse = VideoGenerateResponse(videoUrl: string, promptUsed: PromptUsed, generationId: string)

  const UserNotFound: string := "ユーザーが見つかりません"
  const AlreadyGeneratingMessage: string := "動画は既に生成中です。しばらくお待ちください。"
  const IntroFailed: string := "動画生成に失敗しました"
  const SpecialFailed: string := "特別動画生成に失敗しました"
  const StreakCheckFailure: string := "ストリークチェックに失敗しました"
  const CachedIntroNote: string := "Previously generated video"
  const CachedSpecialNote: string := "Previously generated special video"
  const IntroSeconds: nat := 8
  const SpecialSeconds: nat := 12

  function OptionalText(t: Option<string>): (r: Option<string>)
    ensures r.Some? <==> Present(t)
    ensures r.Some? ==> r == t
  {
    if Present(t) then t else None
  }

  function IntroPromptFor(user: UserProfile): (p: PromptInputs)
    ensures p.IntroPrompt? && p.userName == user.userName && p.accentColors == AccentColors(user.favoriteColors)
    ensures p.season.Some? <==> Present(user.favoriteSeason)
    ensures p.season.Some? ==> p.season.value == SeasonName(user.favoriteSeason.value)
  {
    IntroPrompt(user.userName, AccentColors(user.favoriteColors),
                if Present(user.favoriteSeason) then Some(SeasonName(user.favoriteSeason.value)) else None)
  }

  /** The special prompt takes every favourite colour, the season as the user wrote it, and the place only when both parts are there. */
  function SpecialPromptFor(user: UserProfile, pages: seq<DayDescription>): (p: PromptInputs)
    ensures p.SpecialPrompt? && p.userName == user.userName && p.pages == pages
    ensures p.colors.Some? <==> HasColors(user.favoriteColors)
    ensures p.colors.Some? ==> p.colors.value == Join(user.favoriteColors.value, ", ")
    ensures p.favoriteSeason == OptionalText(user.favoriteSeason)
    ensures p.occupation == OptionalText(user.occupation) && p.hobbies == OptionalText(user.hobbies)
    ensures p.landscape.Some? <==> Present(user.livingArea) && Present(user.prefecture)
    ensures p.landscape.Some? ==> p.landscape.value == (user.prefecture.value, user.livingArea.value)
  {
    SpecialPrompt(user.userName, pages,
                  if HasColors(user.favoriteColors) then Some(Join(user.favoriteColors.value, ", ")) else None,
                  OptionalText(user.favoriteSeason), OptionalText(user.occupation), OptionalText(user.hobbies),
                  if Present(user.livingArea) && Present(user.prefecture) then Some((user.prefecture.value, user.livingArea.value))
                  else None)
  }

  /** `f"intro_{user_id}_{generation_id}.mp4"` and its special counterpart: an `.mp4` name led by the kind and the user. */
  function VideoFilename(kind: string, userId: string, generationId: string): (r: string)
    ensures StartsWith(r, kind + "_" + userId + "_")
    ensures |r| >= 4 && r[|r| - 4..] == ".mp4"
  {
    var lead := kind + "_" + userId + "_";
    StartsWithConcat(lead, generationId + ".mp4");
    assert lead + generationId + ".mp4" == lead + (generationId + ".mp4");
    lead + generationId + ".mp4"
  }

  /** Each generation of a user's video of one kind uploads to a file of its own. */
  lemma VideoFilenameDistinct(kind: string, userId: string, g1: string, g2: string)
    requires g1 != g2
    ensures VideoFilename(kind, userId, g1) != VideoFilename(kind, userId, g2)
  {
    var lead := kind + "_" + userId + "_";
    var f1, f2 := VideoFilename(kind, userId, g1), VideoFilename(kind, userId, g2);
    if |g1| == |g2| {
      assert f1[|lead|..|lead| + |g1|] == g1;
      assert f2[|lead|..|lead| + |g2|] == g2;
    } else {
      assert |f1| != |f2|;
    }
  }

  /**
   * The generation both endpoints run once they decided to: mark the record started,
   * call the service, then mark it finished with the URL, or delete it on failure.
   */
  method RunGeneration(gens: VideoGenerations, userId: string, special: bool, job: VideoJob, generationId: string,
                       startedAt: Timestamp, completedAt: Timestamp, service: VideoJob -> VideoOutcome)
    returns (r: Result<VideoGenerateResponse, HttpError>)
    requires gens.Valid()
    modifies gens
    ensures gens.Valid()
    ensures
      var start := if special then SpecialStarted(generationId, startedAt) else Started(generationId, startedAt);
      match service(job)
      case Uploaded(url) =>
        && r == Ok(VideoGenerateResponse(url, UsedPrompt(job.prompt), generationId))
        && gens.records == if gens.available
             then old(gens.records)[userId := Finished(start, if special then Special else Completed, url, completedAt)]
             else old(gens.records)
      case VideoFailed(_) =>
        && r == Err(HttpError(InternalError, if special then SpecialFailed else IntroFailed))
        && gens.records == if gens.available then old(gens.records) - {userId} else old(gens.records)
  {
    if special {
      gens.MarkSpecialStarted(userId, generationId, startedAt);
    } else {
      gens.MarkStarted(userId, generationId, startedAt);
    }
    var outcome := service(job);
    if outcome.VideoFailed? {
      gens.Clear(userId);
      return Err(HttpError(InternalError, if special then SpecialFailed else IntroFailed));
    }
    gens.MarkFinished(userId, if special then Special else Completed, outcome.url, completedAt);
    r := Ok(VideoGenerateResponse(outcome.url, UsedPrompt(job.prompt), generationId));
  }

  /**
   * `POST /video/generate-intro`. `user` is the profile lookup (an error, no user, or the
   * profile); `service` runs the video job.
   */
  method GenerateIntroVideo(gens: VideoGenerations, userId: string, user: Result<Option<UserProfile>, string>,
                            generationId: string, startedAt: Timestamp, completedAt: Timestamp,
                            service: VideoJob -> VideoOutcome) returns (r: Result<VideoGenerateResponse, HttpError>)
    requires gens.Valid()
    modifies gens
    ensures gens.Valid()
    ensures user.Err? ==> r == Err(HttpError(InternalError, IntroFailed)) && gens.records == old(gens.records)
    ensures user == Ok(None) ==> r == Err(HttpError(NotFound, UserNotFound)) && gens.records == old(gens.records)
    ensures user.Ok? && user.value.Some? ==>
      var existing := old(gens.Lookup(userId));
      match DecideIntro(existing)
      case ReturnCached(url, gid) =>
        r == Ok(VideoGenerateResponse(url, PreviouslyGenerated(CachedIntroNote), gid)) && gens.records == old(gens.records)
      case AlreadyGenerating =>
        r == Err(HttpError(Conflict, AlreadyGeneratingMessage)) && gens.records == old(gens.records)
      case Regenerate =>
        var prompt := IntroPromptFor(user.value.value);
        var job := VideoJob(prompt, IntroSeconds, VideoFilename("intro", userId, generationId));
        match service(job)
        case Uploaded(url) =>
          && r == Ok(VideoGenerateResponse(url, UsedPrompt(prompt), generationId))
          && gens.records == if gens.available
               then old(gens.records)[userId := Finished(Started(generationId, startedAt), Completed, url, completedAt)]
               else old(gens.records)
        case VideoFailed(_) =>
          && r == Err(HttpError(InternalError, IntroFailed))
          && gens.records == if gens.available then old(gens.records) - {userId} else old(gens.records)
  {
    if user.Err? {
      return Err(HttpError(InternalError, IntroFailed));
    }
    if user.value.None? {
      return Err(HttpError(NotFound, UserNotFound));
    }
    var profile := user.value.value;
    var existing := gens.Lookup(userId);
    var decision := DecideIntro(existing);
    if decision.ReturnCached? {
      return Ok(VideoGenerateResponse(decision.url, PreviouslyGenerated(CachedIntroNote), decision.generationId));
    }
    if decision.AlreadyGenerating? {
      return Err(HttpError(Conflict, AlreadyGeneratingMessage));
    }
    var job := VideoJob(IntroPromptFor(profile), IntroSeconds, VideoFilename("intro", userId, generationId));
    r := RunGeneration(gens, userId, false, job, generationId, startedAt, completedAt, service);
  }

  /**
   * The streak gate of the special video. A negative answer raises a 400 inside the
   * same `try` whose handler turns every exception into the 500 of a failed check, so
   * a user without a streak and a failing check get the same 500.
   */
  function StreakGate(check: StreakCheck): (r: Result<seq<string>, HttpError>)
    ensures r.Ok? <==> check.StreakResult? && check.hasSevenDayStreak
    ensures r.Ok? ==> r.value == check.streakDates
    ensures r.Err? ==> r.error == HttpError(InternalError, StreakCheckFailure)
  {
    match check
    case StreakCheckFailed(_) => Err(HttpError(InternalError, StreakCheckFailure))
    case StreakResult(has, dates) => if has then Ok(dates) else Err(HttpError(InternalError, StreakCheckFailure))
  }

  /** `POST /video/generate-special`, with the streak check and the year's entries as inputs. */
  method GenerateSpecialVideo(gens: VideoGenerations, userId: string, user: Result<Option<UserProfile>, string>,
                              streak: StreakCheck, yearEntries: Result<seq<StreakEntry>, string>,
                              generationId: string, startedAt: Timestamp, completedAt: Timestamp,
                              service: VideoJob -> VideoOutcome) returns (r: Result<VideoGenerateResponse, HttpError>)
    requires gens.Valid()
    modifies gens
    ensures gens.Valid()
    ensures user.Err? ==> r == Err(HttpError(InternalError, SpecialFailed)) && gens.records == old(gens.records)
    ensures user == Ok(None) ==> r == Err(HttpError(NotFound, UserNotFound)) && gens.records == old(gens.records)
    ensures user.Ok? && user.value.Some? && StreakGate(streak).Err? ==>
      r == Err(StreakGate(streak).error) && gens.records == old(gens.records)
    ensures user.Ok? && user.value.Some? && StreakGate(streak).Ok? ==>
      var cached := DecideSpecial(old(gens.Lookup(userId)));
      if cached.Some? then
        r == Ok(VideoGenerateResponse(cached.value.0, PreviouslyGenerated(CachedSpecialNote), cached.value.1))
        && gens.records == old(gens.records)
      else
        var prompt := SpecialPromptFor(user.value.value, StreakPages(yearEntries, StreakGate(streak).value));
        var job := VideoJob(prompt, SpecialSeconds, VideoFilename("special", userId, generationId));
        match service(job)
        case Uploaded(url) =>
          && r == Ok(VideoGenerateResponse(url, UsedPrompt(prompt), generationId))
          && gens.records == if gens.available
               then old(gens.records)[userId := Finished(SpecialStarted(generationId, startedAt), Special, url, completedAt)]
               else old(gens.records)
        case VideoFailed(_) =>
          && r == Err(HttpError(InternalError, SpecialFailed))
          && gens.records == if gens.available then old(gens.records) - {userId} else old(gens.records)
  {
    if user.Err? {
      return Err(HttpError(InternalError, SpecialFailed));
    }
    if user.value.None? {
      return Err(HttpError(NotFound, UserNotFound));
    }
    var profile := user.value.value;
    var gate := StreakGate(streak);
    if gate.Err? {
      return Err(gate.error);
    }
    var cached := DecideSpecial(gens.Lookup(userId));
    if cached.Some? {
      return Ok(VideoGenerateResponse(cached.value.0, PreviouslyGenerated(CachedSpecialNote), cached.value.1));
    }
    var pages := DescribeStreak(yearEntries, gate.value);
    var job := VideoJob(SpecialPromptFor(profile, pages), SpecialSeconds, VideoFilename("special", userId, generationId));
    r := RunGeneration(gens, userId, true, job, generationId, startedAt, completedAt, service);
  }
}
