# Diary backend: store, handlers, reply parser and video status, in Dafny

This project models the sequential logic of the Python backend of an illustrated diary service.

- **Diary store** (`src/db.py`). One Firestore document per user and day, keyed by `userId_date`. Saving creates version 1, or merges only the fields the client sent and bumps the version. A month query lists one user's entries of a month in date order. The difference summary writes only `diffText` and `updatedAt`.
- **REST handlers** (`src/diary.py`). They check dates with Python's `strptime("%Y-%m-%d")`, default the user to `anonymous`, and map failures to 400, 404 and 500.
- **Reply parser** (`src/textgen.py`). It reads the language model's reply line by line, where the last matching line wins. It then applies the fixed fallbacks and chooses the prompt branch.
- **Video generation** (`src/videogen.py`). A per-user status record, `generating` → `completed` or `generating_special` → `special`, deleted on failure. On top of it sit:
  - the decisions of the intro and special endpoints;
  - the status response;
  - the selection and description of a seven-day streak's entries;
  - the season and colour inputs of the prompts.

Modules:

| module | what it holds |
|---|---|
| `Wrappers`, `Http` | `Option`, `Result` and HTTP errors |
| `Strings` | the Python string operations the code uses (`strip`, `split`, `join`, `replace`, slicing, `lower`), code-point order of strings, zero-padded decimals |
| `DateParse` | `strptime` for `%Y-%m-%d` |
| `Db` | `src/db.py`; the store is the class `Db.Store` over a map |
| `Diary` | `src/diary.py` |
| `TextGen` | `src/textgen.py` |
| `VideoGen` | `src/videogen.py`; the status collection is the class `VideoGen.VideoGenerations` over a map |

Everything outside the program is a parameter:

| external call | modelled as |
|---|---|
| Gemini | a function from the prompt to `Generated(text)` or `GenerationFailed(message)` |
| Veo and the Cloud Storage upload | a function from the video job to `Uploaded(url)` or `VideoFailed(message)` |
| `get_user`, `check_streak`, `get_diary_entries_by_year` | inputs, with their failures |
| whether the Firestore client exists | the `available` constant of each store |

Timestamps and generation ids are arguments.

`strptime` is modelled on CPython's regular expressions for the three directives:
- `%Y` is four digits;
- `%m` is `1[0-2]|0[1-9]|[1-9]`;
- `%d` is `3[01]|[12]\d|0[1-9]|[1-9]| [1-9]`.

The whole string must be consumed and the date must exist, leap years included. So `2024-3-1` is accepted and `2023-02-29` is not.

## Model

| member | source | states |
|---|---|---|
| DateParse.Strptime | src/diary.py:35 | an accepted string always denotes a real calendar date of years 1 to 9999 |
| DateParse.StrptimeCharacters | src/diary.py:35 | an accepted date string holds only digits, `-` and blanks |
| DateParse.StrptimeNoUnderscore | src/diary.py:35 | an accepted date string contains no `_`, so it cannot disturb the `userId_date` key |
| DateParse.StrptimeOf | src/diary.py:35 | a string `Y-m-d` whose fields have the shapes `%Y`, `%m`, `%d` take is read as the date of those digits exactly when that date exists |
| DateParse.StrptimeFormatDate | src/diary.py:35 | every valid date written as `YYYY-MM-DD` is accepted and read back as itself |
| DateParse.AcceptsUnpadded | src/diary.py:35 | `2024-3-1` is accepted as 1 March 2024 (the check does not demand zero padding) |
| DateParse.RejectsNonLeapFebruary29 | src/diary.py:35 | `2023-02-29` is rejected |
| DateParse.AcceptsLeapFebruary29 | src/diary.py:35 | `2024-02-29` is accepted |
| DateParse.FormatDateOrder | src/db.py:143-145 | string order of canonical date spellings is chronological order, both ways |
| DateParse.FormatDateInjective | src/db.py:143-145 | distinct dates have distinct canonical spellings |
| Db.DocKey | src/db.py:67 | the key is the user id, one `_`, then the date, each recoverable from its position |
| Db.DocKeyInjective | src/db.py:67 | two keys `userId_date` with `_`-free dates are equal only for the same user and date |
| Db.KeySeparator | src/db.py:67 | in a key whose date has no `_`, the separator sits right after the user id and no `_` follows it |
| Db.SentField | src/db.py:78 | the date is always among the sent fields; a sent value has its field's shape (text for `userId` and `date`, a list for `tags`, an optional text for the rest) |
| Db.RequestField | src/db.py:92-104 | a field the client sent keeps the value sent; the others take the model's defaults |
| Db.Create | src/db.py:90-107 | a new entry holds every request field (defaults where none was sent), `version` 1 and `createdAt == updatedAt == now` |
| Db.Merge | src/db.py:75-84 | an update replaces exactly the sent fields (an explicit null included), keeps every other field and `createdAt`, sets `version` to the stored one plus 1 and `updatedAt` to `now` |
| Db.MergeTwice | src/db.py:75-84 | repeating the same update changes no field again; only the version and time move on |
| Db.MergeKeepsReflection | src/db.py:78 | an update that did not send the reflection fields or tags leaves them and `createdAt` as stored |
| Db.Store.constructor | src/db.py:13-22 | the store starts empty, with the client present or not |
| Db.Store.Get | src/db.py:109-121 | no client is an error; otherwise the entry under `userId_date`, or none exactly when no document has that key |
| Db.Store.Save | src/db.py:62-107 | no client is an error and nothing changes; otherwise the key `userId_date` gets the created or merged entry, which is what `Get` then returns; the returned version is 1 exactly when no document existed (an update always gives 2 or more); no version ever goes down |
| Db.ParseYearMonth | src/db.py:132 | a parsed month came from a string with exactly one `-` |
| Db.CheckedMonthParses | src/db.py:132 | every month the handler's check `strptime(month + "-01")` accepts splits into that year and month |
| Db.NextMonth | src/db.py:133-136 | the next month is a month again and comes exactly one month later; December rolls over to January of the next year |
| Db.MonthEnd | src/db.py:137 | the end bound `f"{next_year:04d}-{next_month:02d}-01"` is the canonical spelling of the first day of the next month |
| Db.MonthStartAsWritten | src/db.py:129 | the start bound `f"{year_month}-01"` is the corrected bound whenever the client's month is already written `YYYY-MM` |
| Db.MonthStart | src/db.py:137 | the corrected start bound, padded like the end bound, is the canonical spelling of the first of the month |
| Db.PaddedMonthAsWritten | src/db.py:129-132 | a month written `YYYY-MM` splits into that year and month, and its start bound as written equals the corrected one |
| Db.PaddedMonthParses | src/db.py:132 | `YYYY-MM` splits into its year and month |
| Db.ParseDigitParts | src/db.py:132 | two non-empty runs of digits around one `-` give the two numbers they spell |
| Db.MonthRangeIsTheMonth | src/db.py:129-137 | a canonically written date lies in `[MonthStart, MonthEnd)` exactly when it is in that month; December rolls over to January of the next year |
| Db.NotBeforeMonthStart | src/db.py:143 | `date >= start` exactly when the date is in the month or later |
| Db.BeforeMonthEnd | src/db.py:133-137 | `date < end` exactly when the date is in the month or earlier |
| Db.SavedDateInItsMonth | src/db.py:129-145 | a saved, canonically written date is found by the query for its own month |
| Db.UnpaddedMonthRangeIsEmpty | src/db.py:129 | for `YYYY-M` with a one-digit month, the handler's check passes and the month parses, but the start bound `YYYY-M-01` sorts after the end bound, so no entry is in range |
| Db.UnpaddedMonthPassesCheck | src/diary.py:86 | `strptime(YYYY-M + "-01")` accepts a one-digit month |
| Db.UnpaddedMonthParses | src/db.py:132 | `YYYY-M` splits into its year and month |
| Db.UnpaddedBoundsCross | src/db.py:129-137 | `MonthEnd` sorts strictly before `YYYY-M-01` |
| Db.PaddedMonthRangeIsTheMonth | src/db.py:129-137 | with the start bound padded like the end bound, the same month's range holds exactly that month's dates |
| Db.InRange | src/db.py:140-144 | the filter `userId ==`, `date >=`, `date <`; it can hold only when the start sorts before the end |
| Db.InsertByDate | src/db.py:145 | insertion adds exactly one occurrence of the entry and keeps every other occurrence (as multisets) |
| Db.InsertByDateSorted | src/db.py:145 | insertion keeps a date-ordered list in date order |
| Db.Store.EntriesByMonth | src/db.py:123-152 | no client is an error, an unparsable month too; otherwise the result lists exactly the user's entries from the start bound as written, `year_month + "-01"`, to the padded first of the next month, each entry as often as there are matching documents holding it, ascending by date |
| Db.Store.EntriesByMonthPadded | src/db.py:123-152 | the same query with the corrected start bound: no client or an unparsable month is an error; otherwise the listing of `[MonthStart, MonthEnd)` |
| Db.Store.Collect | src/db.py:140-152 | the loop over the documents yields exactly the matching entries, one occurrence per matching document, in date order |
| Db.HoldingStep | src/db.py:150-151 | appending the entry of one more matching document adds one occurrence of that entry and of nothing else |
| Db.Store.GenerateDiffSummary | src/db.py:154-194 | on success the returned text is the stripped reply, and only `diffText` and `updatedAt` of that document change (`version` untouched); on any failure the store is unchanged and the text is the failure notice |
| Db.FailureNotice | src/db.py:193-194 | the text returned in place of a summary starts with `差分要約の生成に失敗しました` followed by `: ` and the reason |
| Diary.SaveEntry | src/diary.py:21-46 | a rejected path date gives 400 and never reaches the store; no client gives 500 `Failed to save entry: ...`; otherwise the entry is saved under the path date, whatever date the body had, and a later `GetEntry` returns it |
| Diary.GetEntry | src/diary.py:48-70 | a rejected date gives 400; no client gives 500; otherwise the user's entry (user `anonymous` by default), or none |
| Diary.GetEntriesByMonth | src/diary.py:72-94 | `month + "-01"` rejected gives 400; no client gives 500; otherwise the listing from `month + "-01"`, as the client wrote the month, to the first of the checked month's successor |
| Diary.CreateDiffSummary | src/diary.py:96-139 | 400 for a rejected date; 404 when the entry is absent; 400 when `planText` or `actualText` is missing or empty; otherwise exactly `{date, userId, diffText}`, with the store change of the summary |
| TextGen.ChoosePrompt | src/textgen.py:59-83 | a non-empty plan selects the plan prompt; otherwise the interests joined with `, `, or `リラックス、読書、散歩` when there are none |
| TextGen.ReplyLines | src/textgen.py:111 | the lines, joined again with newlines, give back the stripped reply |
| TextGen.LastIndex | src/textgen.py:115-121 | the index, if any, of a matching line after which no line matches |
| TextGen.ParseReply | src/textgen.py:110-121 | the parsing loop yields the value of the last diary line and of the last image-prompt line |
| TextGen.ParseLines | src/textgen.py:115-121 | the loop over the lines, in order, ends with the last diary line's value and the last prompt line's value |
| TextGen.ReadLine | src/textgen.py:116-121 | a line starting with `日記文:` sets only the diary text; one starting with `画像プロンプト:` or containing `watercolor` sets only the prompt |
| TextGen.LastIndexStep | src/textgen.py:115 | one more line moves the last match to it exactly when it matches |
| TextGen.LastIndexIs | src/textgen.py:115-121 | a matching line with no match after it is the last match |
| TextGen.ParsedDiaryStep | src/textgen.py:116-117 | a further line changes the diary text only when it is a diary line, and then to its value |
| TextGen.ParsedPromptStep | src/textgen.py:118-121 | a further line changes the image prompt only when it is a prompt line, and then to its value |
| TextGen.LastDiaryLineWins | src/textgen.py:115-117 | after a last line `日記文: text`, the diary text is `text` stripped, whatever came before |
| TextGen.DiaryLineNeverPrompt | src/textgen.py:116-121 | the line the image prompt comes from never starts with `日記文:` |
| TextGen.DiaryOrFallback | src/textgen.py:124-125 | the diary text is never empty: the parsed text, else the first 200 characters of the fallback source, else the fixed default |
| TextGen.PromptOrDefault | src/textgen.py:126-127 | the image prompt is never empty: the parsed one, else the fixed watercolor default |
| TextGen.UnparsableReplyFallsBack | src/textgen.py:123-127 | a reply without markers or `watercolor` gives its first 200 characters and the default prompt |
| TextGen.GenerateFutureDiary | src/textgen.py:47-135 | no project id gives 500 before any generation; a failed generation gives 500 `Text generation failed: ...`; otherwise both fields are non-empty and are the parsed values or the fallbacks from the raw reply |
| TextGen.GenerateTodayReflection | src/textgen.py:137-198 | as above, with the fallback text taken from the user's own input |
| VideoGen.StatusNameInjective | src/videogen.py:65 | distinct statuses are stored as distinct texts |
| VideoGen.Started | src/videogen.py:59-71 | the start record is `generating` with no URL and no completion time |
| VideoGen.SpecialStarted | src/videogen.py:401-414 | the special start record is `generating_special` with no URL, no completion time and `video_type = "special"` |
| VideoGen.Finished | src/videogen.py:73-83 | completion sets the status, the URL and the completion time and keeps the rest of the record |
| VideoGen.VideoGenerations.constructor | src/videogen.py:50 | the status collection starts empty |
| VideoGen.VideoGenerations.Lookup | src/videogen.py:47-57 | the user's record, or none when there is none or Firestore is not there |
| VideoGen.VideoGenerations.MarkStarted | src/videogen.py:59-71 | the user's record becomes the start record, whatever was there |
| VideoGen.VideoGenerations.MarkSpecialStarted | src/videogen.py:401-414 | the user's record becomes the special start record |
| VideoGen.VideoGenerations.MarkFinished | src/videogen.py:73-83 | an existing record is completed; a missing one stays missing |
| VideoGen.VideoGenerations.Clear | src/videogen.py:215-220 | after a failure the user has no record, so a retry is possible |
| VideoGen.DecideIntro | src/videogen.py:140-152 | `completed` returns the stored URL and id; `generating` refuses; no record or any other status regenerates |
| VideoGen.DecideSpecial | src/videogen.py:273-280 | the cached special video is returned exactly when the status is `special` |
| VideoGen.VideoStatus | src/videogen.py:229-249 | no record gives `false` and nulls; otherwise `intro_video_generated` holds exactly for `completed`, with the record's URL, time, status and id |
| VideoGen.RecordLifecycle | src/videogen.py:59-83 | the lifecycle: a started record answers 409, a completed one is reused, a special one is not an intro video |
| VideoGen.AccentColors | src/videogen.py:175-177 | the intro's accent colours are at most the first two favourites, joined with `, `, and there are none without favourites |
| VideoGen.AccentColorsFirstTwo | src/videogen.py:176 | favourites beyond the second never change the intro prompt |
| VideoGen.SeasonName | src/videogen.py:179-182 | `春/夏/秋/冬` give `spring/summer/autumn/winter`, anything else `spring` |
| VideoGen.IntroPromptFor | src/videogen.py:154-182 | the intro prompt takes the user name, the accent colours, and the season only when one is set |
| VideoGen.SpecialPromptFor | src/videogen.py:319-355 | the special prompt takes the day lines, every favourite colour, the season as given, the occupation and the hobbies only when set and non-empty, and the place only when both of its parts are set |
| VideoGen.Describe | src/videogen.py:303-311 | a day's line holds both texts cut to 50 characters, or the one text there is cut to 80, or none |
| VideoGen.OnStreakDays | src/videogen.py:293-296 | every occurrence of an entry whose date is a streak date is kept, and no other entry |
| VideoGen.InsertNewestFirst | src/videogen.py:299 | insertion adds exactly the one entry |
| VideoGen.InsertNewestFirstOrdered | src/videogen.py:299 | insertion keeps a newest-first list newest first |
| VideoGen.SortNewestFirst | src/videogen.py:299 | the sort gives the same entries, newest first |
| VideoGen.GenericDays | src/videogen.py:314-316 | seven generic lines numbered from 1 |
| VideoGen.DescribeFirst | src/videogen.py:302 | the first seven (or fewer) entries, numbered from 1 |
| VideoGen.DescribeStreak | src/videogen.py:282-316 | the day lines are those of the streak pages: the generic lines when fetching fails |
| VideoGen.GenericLines | src/videogen.py:314-316 | the loop builds the seven generic lines |
| VideoGen.KeepStreakDays | src/videogen.py:293-296 | the filter loop keeps exactly the streak days' entries, in order |
| VideoGen.DescribeNewest | src/videogen.py:301-312 | the describe loop numbers at most seven entries from 1 |
| VideoGen.ChosenOnStreakDays | src/videogen.py:293-299 | after filtering and sorting, every entry is one of a streak date |
| VideoGen.StreakPages | src/videogen.py:282-316 | at most seven day lines numbered from 1; seven generic ones when the year's entries cannot be fetched |
| VideoGen.StreakPagesSelection | src/videogen.py:292-312 | at most seven pages, numbered from 1, each describing an entry of a streak date, newest first |
| VideoGen.VideoFilename | src/videogen.py:186 | the upload name starts with the kind, the user id and `_`, and ends in `.mp4` |
| VideoGen.VideoFilenameDistinct | src/videogen.py:184-186 | distinct generation ids give distinct file names for the same user and kind |
| VideoGen.RunGeneration | src/videogen.py:192-221 | start the record, call the service; on success the record is completed with the URL, on failure it is deleted and the answer is 500 |
| VideoGen.GenerateIntroVideo | src/videogen.py:131-227 | a failed user lookup gives 500, no user 404; a completed video is returned as cached, 409 while generating; otherwise a new 8-second generation with its record lifecycle |
| VideoGen.StreakGate | src/videogen.py:263-271 | the gate passes exactly for a positive streak answer; a negative answer and a failed check both give the 500 of a failed check |
| VideoGen.GenerateSpecialVideo | src/videogen.py:254-399 | user lookup, streak gate, cached `special` video, else a new 12-second generation from the selected streak pages with its record lifecycle |

## Left out

- External services are parameters: Gemini, Veo, the Cloud Storage upload, `make_public` and the Firestore client. So are their initialisation and the connection probes (`src/db.py:13-22`, `src/db.py:196-220`).
- The Veo polling loop with its wall-clock timeout and `asyncio.sleep` (`src/videogen.py:99-106`). It is time-driven, and its outcome is part of the video service's result.
- JWT handling, the user functions, the register, login and cover endpoints, the CRUD smoke test, `src/intro.py`, `src/main.py` and `test_env.py`. These are I/O orchestration or configuration.
- The prose of every prompt. The model keeps the prompt's inputs, not its text.
- `get_user`, `check_streak` and `get_diary_entries_by_year` are not defined in the shown code. Their answers, including their failures, are inputs and their behaviour is not modelled.
- Db.Merge: the stored `version` is always present in the model, because every document this code writes has one. The `missing version => 1` default of `src/db.py:81` is therefore not modelled.
- Db.ParseYearMonth reads only ASCII digits. Python's `int()` also accepts blanks, signs, underscores and other Unicode digits, but only strings that already passed the `strptime` check ever reach it (Db.CheckedMonthParses).
- DateParse.Strptime reads only ASCII digits. CPython's `\d` also matches other Unicode decimal digits.
- TextGen.ReadLine: `lower()` is modelled on ASCII letters only. No Unicode case mapping is modelled.
- Db.Store.Collect: the Firestore query's `order_by("date")` is modelled by inserting each match in date order while visiting the documents. The order among entries with the same date (one per user and day, so only under distinct keys) is left open.
- VideoGen.SortNewestFirst is a function on sequences. The in-place `list.sort` and its stability for equal dates are not modelled.
- Db.MonthRangeIsTheMonth leaves out December 9999, whose end bound `10000-01-01` has five digits.
- The `DiaryEntryResponse` re-validation of stored documents (`src/db.py:120`, `src/db.py:150`) is left out: every stored document already has the `DiaryEntry` shape.
- The 500 of the status endpoint (`src/videogen.py:250-252`) is left out. The lookup already catches every failure, so this path cannot be reached through the modelled code.
- The exact texts of Python exceptions are constants standing in for `str(e)`: `Db.NoClient`, `Db.NoDocument` and the parse error of `Db.Store.EntriesByMonth`.
- Diary.GetEntriesByMonth calls the month query as written, so a one-digit month lists nothing (see Findings). The corrected query Db.Store.EntriesByMonthPadded is not called by any handler.
- Concurrency. The read-then-write of a save is not atomic in the source. Saves, like every other operation, run one after another here.

## Findings

| source | as written | input that shows it | evidently intended | confidence | as-written member | corrected member |
|---|---|---|---|---|---|---|
| src/db.py:129 | the range start is `f"{year_month}-01"`, the month string as the client sent it, while the handler's check (src/diary.py:86) accepts one-digit months | `month=2024-3`: start `2024-3-01` sorts after end `2024-04-01`, so the query returns nothing although March has entries | the start bound padded like the end bound, `f"{year:04d}-{month:02d}-01"` | high (proved; not executed) | Db.UnpaddedMonthRangeIsEmpty (Db.MonthStartAsWritten, used by Db.Store.EntriesByMonth and Diary.GetEntriesByMonth) | Db.PaddedMonthRangeIsTheMonth (Db.MonthStart, used by Db.Store.EntriesByMonthPadded) |
