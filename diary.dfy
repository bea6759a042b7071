/**
 * The diary router (`src/diary.py`): four handlers that check the date (or month) with
 * `strptime`, call the store, and turn failures into HTTP errors: a rejected date is a
 * 400, a missing entry a 404, anything the store raises a 500 whose detail names the
 * handler. The user id is a query parameter that defaults to `anonymous`.
 */
module Diary {
  import opened Wrappers
  import opened Strings
  import opened Http
  import opened DateParse
  import opened TextGen
  import opened Db

  const InvalidDate: string := "Invalid date format. Use YYYY-MM-DD"
  const InvalidMonth: string := "Invalid month format. Use YYYY-MM"
  const EntryNotFound: string := "Diary entry not found"
  const BothTextsRequired: string := "Both planText and actualText are required for diff generation"
  const SaveFailed: string := "Failed to save entry: "
  const GetFailed: string := "Failed to get entry: "
  const ListFailed: string := "Failed to get entries: "
  const DiffFailed: string := "Failed to generate diff: "

  /** The body `create_diff_summary` returns. */
  datatype DiffResponse = DiffResponse(date: string, userId: string, diffText: string)

  /**
   * `POST /diary/entries/{date}`: the date in the path replaces the one in the body,
   * and the entry is saved under the user of the body.
   */
  method SaveEntry(store: Store, date: string, entry: DiaryEntryCreate, now: Timestamp) returns (r: Result<DiaryEntry, HttpError>)
    requires store.Valid()
    modifies store
    ensures store.Valid()
    ensures Strptime(date).None? ==> r == Err(HttpError(BadRequest, InvalidDate)) && store.docs == old(store.docs)
    ensures Strptime(date).Some? && !store.available ==>
      r == Err(HttpError(InternalError, SaveFailed + Unavailable)) && store.docs == old(store.docs)
    ensures Strptime(date).Some? && store.available ==>
      var request, key := entry.(date := date), DocKey(RequestUserId(entry), date);
      && r.Ok? && r.value.date == date
      && r.value == (if key in old(store.docs) then Merge(old(store.docs)[key], request, now) else Create(request, now))
      && store.docs == old(store.docs)[key := r.value]
      && GetEntry(store, date, Some(RequestUserId(entry))) == Ok(Some(r.value))
  {
    if Strptime(date).None? {
      return Err(HttpError(BadRequest, InvalidDate));
    }
    var request := entry.(date := date);
    var saved := store.Save(request, now);
    if saved.Err? {
      return Err(HttpError(InternalError, SaveFailed + saved.error));
    }
    r := Ok(saved.value);
  }

  /** `GET /diary/entries/{date}`: the user's entry of that day, or `None`. */
  function GetEntry(store: Store, date: string, userId: Option<string>): (r: Result<Option<DiaryEntry>, HttpError>)
    reads store
    ensures Strptime(date).None? ==> r == Err(HttpError(BadRequest, InvalidDate))
    ensures Strptime(date).Some? && !store.available ==> r == Err(HttpError(InternalError, GetFailed + Unavailable))
    ensures Strptime(date).Some? && store.available ==>
      var key := DocKey(userId.GetOr(DefaultUserId), date);
      r == Ok(if key in store.docs then Some(store.docs[key]) else None)
  {
    if Strptime(date).None? then Err(HttpError(BadRequest, InvalidDate))
    else
      match store.Get(userId.GetOr(DefaultUserId), date)
      case Err(e) => Err(HttpError(InternalError, GetFailed + e))
      case Ok(found) => Ok(found)
  }

  /** `GET /diary/entries?month=YYYY-MM`: the user's entries of the month, in date order. */
  method GetEntriesByMonth(store: Store, month: string, userId: Option<string>) returns (r: Result<seq<DiaryEntry>, HttpError>)
    ensures Strptime(month + "-01").None? ==> r == Err(HttpError(BadRequest, InvalidMonth))
    ensures Strptime(month + "-01").Some? && !store.available ==> r == Err(HttpError(InternalError, ListFailed + Unavailable))
    ensures Strptime(month + "-01").Some? && store.available ==>
      var d := Strptime(month + "-01").value;
      r.Ok? && IsListing(store.docs, userId.GetOr(DefaultUserId), MonthStartAsWritten(month), MonthEnd(d.year, d.month), r.value)
  {
    var checked := Strptime(month + "-01");
    if checked.None? {
      return Err(HttpError(BadRequest, InvalidMonth));
    }
    CheckedMonthParses(month, checked.value);
    var listed := store.EntriesByMonth(userId.GetOr(DefaultUserId), month);
    if listed.Err? {
      return Err(HttpError(InternalError, ListFailed + listed.error));
    }
    r := Ok(listed.value);
  }

  /**
   * `POST /diary/entries/{date}/diff`: summarise how the day differed from the plan.
   * It needs a stored entry with both texts; the summary (or the failure notice the
   * store returns in its place) is the response.
   */
  method CreateDiffSummary(store: Store, date: string, userId: Option<string>,
                           model: (string, string) -> Generation, now: Timestamp) returns (r: Result<DiffResponse, HttpError>)
    requires store.Valid()
    modifies store
    ensures store.Valid()
    ensures Strptime(date).None? ==> r == Err(HttpError(BadRequest, InvalidDate)) && store.docs == old(store.docs)
    ensures Strptime(date).Some? && !store.available ==>
      r == Err(HttpError(InternalError, DiffFailed + Unavailable)) && store.docs == old(store.docs)
    ensures Strptime(date).Some? && store.available ==>
      var user := userId.GetOr(DefaultUserId);
      var key := DocKey(user, date);
      if key !in old(store.docs) then
        r == Err(HttpError(NotFound, EntryNotFound)) && store.docs == old(store.docs)
      else
        var e := old(store.docs)[key];
        if !Present(e.planText) || !Present(e.actualText) then
          r == Err(HttpError(BadRequest, BothTextsRequired)) && store.docs == old(store.docs)
        else
          var outcome := model(e.planText.value, e.actualText.value);
          && r.Ok? && r.value.date == date && r.value.userId == user
          && (outcome.Generated? ==>
                r.value.diffText == Strip(outcome.text)
                && store.docs == old(store.docs)[key := e.(diffText := Some(r.value.diffText), updatedAt := now)])
          && (outcome.GenerationFailed? ==>
                r.value.diffText == FailureNotice(outcome.message) && store.docs == old(store.docs))
  {
    if Strptime(date).None? {
      return Err(HttpError(BadRequest, InvalidDate));
    }
    var user := userId.GetOr(DefaultUserId);
    var found := store.Get(user, date);
    if found.Err? {
      return Err(HttpError(InternalError, DiffFailed + found.error));
    }
    if found.value.None? {
      return Err(HttpError(NotFound, EntryNotFound));
    }
    var e := found.value.value;
    if !Present(e.planText) || !Present(e.actualText) {
      return Err(HttpError(BadRequest, BothTextsRequired));
    }
    var text := store.GenerateDiffSummary(user, date, e.planText.value, e.actualText.value, model, now);
    r := Ok(DiffResponse(date, user, text));
  }
}
