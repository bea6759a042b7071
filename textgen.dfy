/**
 * The text endpoints (`/text/future-diary`, `/text/today-reflection`): which prompt is
 * sent, and how the model's reply is read back into a diary text and an image prompt.
 * The language model is a parameter: a function from the prompt to its outcome.
 */
module TextGen {
  import opened Wrappers
  import opened Strings
  import opened Http

  /** What a call to the generative model gives: the reply text, or the exception it raised. */
  datatype Generation = Generated(text: string) | GenerationFailed(message: string)

  /** The inputs of the prompt sent to the model; the surrounding prose is not modelled. */
  datatype Prompt =
    | PlanPrompt(plan: string)
    | InterestsPrompt(interests: string)
    | ReflectionPrompt(reflection: string)

  datatype FutureDiaryRequest = FutureDiaryRequest(plan: Option<string>, interests: Option<seq<string>>, style: string)
  datatype TodayReflectionRequest = TodayReflectionRequest(reflectionText: string, style: string)
  datatype TextGenerateResponse = TextGenerateResponse(generatedText: string, imagePrompt: string)

  const DiaryMarker: string := "日記文:"
  const PromptMarker: string := "画像プロンプト:"
  const DefaultImagePrompt: string := "watercolor style, peaceful daily life scene, soft and warm illustration"
  const FutureDiaryDefault: string := "素敵な一日だった！"
  const ReflectionDefault: string := "今日も良い一日だった。"
  const DefaultInterests: string := "リラックス、読書、散歩"
  const FallbackLength: nat := 200
  const ProjectIdMissing: string := "PROJECT_ID is not set"
  const TextGenerationFailed: string := "Text generation failed: "

  /** With a non-empty plan the plan prompt is used; otherwise the interests, or a default list. */
  function ChoosePrompt(request: FutureDiaryRequest): (p: Prompt)
    ensures p.PlanPrompt? <==> request.plan.Some? && request.plan.value != ""
    ensures p.PlanPrompt? ==> p.plan == request.plan.value
    ensures p.InterestsPrompt? <==> !p.PlanPrompt?
    ensures p.InterestsPrompt? && (request.interests == None || request.interests == Some([])) ==>
              p.interests == DefaultInterests
    ensures p.InterestsPrompt? && request.interests.Some? && request.interests.value != [] ==>
              p.interests == Join(request.interests.value, ", ")
  {
    if request.plan.Some? && request.plan.value != "" then PlanPrompt(request.plan.value)
    else if request.interests.Some? && request.interests.value != [] then
      InterestsPrompt(Join(request.interests.value, ", "))
    else InterestsPrompt(DefaultInterests)
  }

  // ---- reading the reply ----

  predicate IsDiaryLine(line: string)
  {
    StartsWith(line, DiaryMarker)
  }

  /** A line that sets the image prompt; a diary line never does, as its branch is tried first. */
  predicate IsPromptLine(line: string)
  {
    !IsDiaryLine(line) && (StartsWith(line, PromptMarker) || Contains(Lower(line), "watercolor"))
  }

  function DiaryValue(line: string): string
  {
    Strip(RemoveAll(line, DiaryMarker))
  }

  function PromptValue(line: string): string
  {
    if StartsWith(line, PromptMarker) then Strip(RemoveAll(line, PromptMarker)) else Strip(line)
  }

  /** The index of the last line satisfying `p`, or -1 when none does. */
  function LastIndex(lines: seq<string>, p: string -> bool): (i: int)
    ensures -1 <= i < |lines|
    ensures i >= 0 ==> p(lines[i])
    ensures forall j :: i < j < |lines| ==> !p(lines[j])
  {
    if lines == [] then -1
    else if p(lines[|lines| - 1]) then |lines| - 1
    else LastIndex(lines[..|lines| - 1], p)
  }

  /** The diary text the last diary line gives, or "" when there is none. */
  function ParsedDiary(lines: seq<string>): string
  {
    var i := LastIndex(lines, IsDiaryLine);
    if i < 0 then "" else DiaryValue(lines[i])
  }

  /** The image prompt the last prompt line gives, or "" when there is none. */
  function ParsedPrompt(lines: seq<string>): string
  {
    var i := LastIndex(lines, IsPromptLine);
    if i < 0 then "" else PromptValue(lines[i])
  }

  /** The lines of a reply: the whole reply stripped, then split at each newline. */
  function ReplyLines(reply: string): (lines: seq<string>)
    ensures Join(lines, "\n") == Strip(reply)
  {
    JoinSplit(Strip(reply), '\n');
    Split(Strip(reply), '\n')
  }

  /** The parsing loop both endpoints share: later matching lines overwrite earlier ones. */
  method ParseReply(reply: string) returns (diaryText: string, imagePrompt: string)
    ensures diaryText == ParsedDiary(ReplyLines(reply))
    ensures imagePrompt == ParsedPrompt(ReplyLines(reply))
  {
    diaryText, imagePrompt := ParseLines(ReplyLines(reply));
  }

  /** The loop over the reply's lines, in order. */
  method ParseLines(lines: seq<string>) returns (diaryText: string, imagePrompt: string)
    ensures diaryText == ParsedDiary(lines)
    ensures imagePrompt == ParsedPrompt(lines)
  {
    diaryText, imagePrompt := "", "";
    for i := 0 to |lines|
      invariant diaryText == ParsedDiary(lines[..i])
      invariant imagePrompt == ParsedPrompt(lines[..i])
    {
      var line := lines[i];
      assert lines[..i + 1] == lines[..i] + [line];
      ParsedDiaryStep(lines[..i], line);
      ParsedPromptStep(lines[..i], line);
      diaryText, imagePrompt := ReadLine(line, diaryText, imagePrompt);
    }
    assert lines[..|lines|] == lines;
  }

  /** One pass of the loop: a diary line sets the diary text, a prompt line the image prompt. */
  method ReadLine(line: string, diaryText: string, imagePrompt: string) returns (diary: string, prompt: string)
    ensures diary == if IsDiaryLine(line) then DiaryValue(line) else diaryText
    ensures prompt == if IsPromptLine(line) then PromptValue(line) else imagePrompt
  {
    diary, prompt := diaryText, imagePrompt;
    if StartsWith(line, DiaryMarker) {
      diary := Strip(RemoveAll(line, DiaryMarker));
    } else if StartsWith(line, PromptMarker) {
      prompt := Strip(RemoveAll(line, PromptMarker));
    } else if Contains(Lower(line), "watercolor") {
      prompt := Strip(line);
    }
  }

  lemma LastIndexStep(lines: seq<string>, line: string, p: string -> bool)
    ensures LastIndex(lines + [line], p) == if p(line) then |lines| else LastIndex(lines, p)
  {
    assert (lines + [line])[..|lines|] == lines;
  }

  /** The last index is the matching line after which no line matches. */
  lemma {:induction false} LastIndexIs(lines: seq<string>, p: string -> bool, k: nat)
    requires k < |lines| && p(lines[k])
    requires forall j :: k < j < |lines| ==> !p(lines[j])
    ensures LastIndex(lines, p) == k
    decreases |lines|
  {
    if k < |lines| - 1 {
      var prefix := lines[..|lines| - 1];
      assert forall j :: k < j < |prefix| ==> prefix[j] == lines[j];
      LastIndexIs(prefix, p, k);
    }
  }

  /** One more line changes the parsed diary text only when it is a diary line, and then to its value. */
  lemma ParsedDiaryStep(lines: seq<string>, line: string)
    ensures ParsedDiary(lines + [line]) == if IsDiaryLine(line) then DiaryValue(line) else ParsedDiary(lines)
  {
    LastIndexStep(lines, line, IsDiaryLine);
    var i := LastIndex(lines, IsDiaryLine);
    if i >= 0 { assert (lines + [line])[i] == lines[i]; }
  }

  /** One more line changes the parsed image prompt only when it is a prompt line, and then to its value. */
  lemma ParsedPromptStep(lines: seq<string>, line: string)
    ensures ParsedPrompt(lines + [line]) == if IsPromptLine(line) then PromptValue(line) else ParsedPrompt(lines)
  {
    LastIndexStep(lines, line, IsPromptLine);
    var j := LastIndex(lines, IsPromptLine);
    if j >= 0 { assert (lines + [line])[j] == lines[j]; }
  }

  /** The diary text after the fallback: the parsed text, else the first 200 characters of `source`, else `default`. */
  function DiaryOrFallback(parsed: string, source: string, default: string): (text: string)
    requires default != ""
    ensures text != ""
    ensures parsed != "" ==> text == parsed
    ensures parsed == "" && source != "" ==> text == Take(source, FallbackLength)
    ensures parsed == "" && source == "" ==> text == default
  {
    if parsed != "" then parsed
    else if source != "" then Take(source, FallbackLength)
    else default
  }

  function PromptOrDefault(parsed: string): (prompt: string)
    ensures prompt != ""
    ensures prompt == if parsed != "" then parsed else DefaultImagePrompt
  {
    if parsed != "" then parsed else DefaultImagePrompt
  }

  /**
   * `/text/future-diary`. A missing project id fails before the model is asked; a failed
   * generation is reported as 500; otherwise both returned texts are non-empty.
   */
  method GenerateFutureDiary(request: FutureDiaryRequest, projectIdSet: bool, model: Prompt -> Generation)
    returns (r: Result<TextGenerateResponse, HttpError>)
    ensures !projectIdSet ==> r == Err(HttpError(InternalError, ProjectIdMissing))
    ensures projectIdSet ==>
      match model(ChoosePrompt(request))
      case GenerationFailed(message) => r == Err(HttpError(InternalError, TextGenerationFailed + message))
      case Generated(reply) =>
        && r.Ok?
        && r.value.generatedText != "" && r.value.imagePrompt != ""
        && r.value.generatedText == DiaryOrFallback(ParsedDiary(ReplyLines(reply)), reply, FutureDiaryDefault)
        && r.value.imagePrompt == PromptOrDefault(ParsedPrompt(ReplyLines(reply)))
  {
    if !projectIdSet {
      return Err(HttpError(InternalError, ProjectIdMissing));
    }
    var outcome := model(ChoosePrompt(request));
    match outcome {
      case GenerationFailed(message) =>
        r := Err(HttpError(InternalError, TextGenerationFailed + message));
      case Generated(reply) =>
        var diaryText, imagePrompt := ParseReply(reply);
        diaryText := DiaryOrFallback(diaryText, reply, FutureDiaryDefault);
        imagePrompt := PromptOrDefault(imagePrompt);
        r := Ok(TextGenerateResponse(diaryText, imagePrompt));
    }
  }

  /** `/text/today-reflection`: as above, but the fallback diary text comes from the user's own input. */
  method GenerateTodayReflection(request: TodayReflectionRequest, projectIdSet: bool, model: Prompt -> Generation)
    returns (r: Result<TextGenerateResponse, HttpError>)
    ensures !projectIdSet ==> r == Err(HttpError(InternalError, ProjectIdMissing))
    ensures projectIdSet ==>
      match model(ReflectionPrompt(request.reflectionText))
      case GenerationFailed(message) => r == Err(HttpError(InternalError, TextGenerationFailed + message))
      case Generated(reply) =>
        && r.Ok?
        && r.value.generatedText != "" && r.value.imagePrompt != ""
        && r.value.generatedText ==
             DiaryOrFallback(ParsedDiary(ReplyLines(reply)), request.reflectionText, ReflectionDefault)
        && r.value.imagePrompt == PromptOrDefault(ParsedPrompt(ReplyLines(reply)))
  {
    if !projectIdSet {
      return Err(HttpError(InternalError, ProjectIdMissing));
    }
    var outcome := model(ReflectionPrompt(request.reflectionText));
    match outcome {
      case GenerationFailed(message) =>
        r := Err(HttpError(InternalError, TextGenerationFailed + message));
      case Generated(reply) =>
        var diaryText, imagePrompt := ParseReply(reply);
        diaryText := DiaryOrFallback(diaryText, request.reflectionText, ReflectionDefault);
        imagePrompt := PromptOrDefault(imagePrompt);
        r := Ok(TextGenerateResponse(diaryText, imagePrompt));
    }
  }

  // ---- properties of the parser ----

  /** A reply whose last diary line is `日記文: text` yields exactly `text` (stripped). */
  lemma LastDiaryLineWins(before: seq<string>, text: string, after: seq<string>)
    requires !Contains(text, DiaryMarker)
    requires forall j :: 0 <= j < |after| ==> !IsDiaryLine(after[j])
    ensures ParsedDiary(before + [DiaryMarker + text] + after) == Strip(text)
  {
    var line := DiaryMarker + text;
    var lines := before + [line] + after;
    assert line[..|DiaryMarker|] == DiaryMarker;
    assert lines[|before|] == line && IsDiaryLine(line);
    forall j | |before| < j < |lines| ensures !IsDiaryLine(lines[j]) {
      assert lines[j] == after[j - |before| - 1];
    }
    LastIndexIs(lines, IsDiaryLine, |before|);
    RemoveAllLeading(DiaryMarker, text);
  }

  /** A diary line is never taken as the image prompt, even when it mentions watercolor. */
  lemma DiaryLineNeverPrompt(lines: seq<string>)
    ensures var i := LastIndex(lines, IsPromptLine); i >= 0 ==> !IsDiaryLine(lines[i])
  {
  }

  /** A reply with no marker and no "watercolor" gives the fallbacks: its first 200 characters and the default prompt. */
  lemma UnparsableReplyFallsBack(reply: string)
    requires reply != ""
    requires forall j :: 0 <= j < |ReplyLines(reply)| ==> !IsDiaryLine(ReplyLines(reply)[j]) && !IsPromptLine(ReplyLines(reply)[j])
    ensures DiaryOrFallback(ParsedDiary(ReplyLines(reply)), reply, FutureDiaryDefault) == Take(reply, FallbackLength)
    ensures PromptOrDefault(ParsedPrompt(ReplyLines(reply))) == DefaultImagePrompt
  {
  }
}
