/**
 * src/clinical_note_coder.py: the earlier coder, with a fixed system prompt,
 * an `extract_json` that swallows every decoding exception, the same
 * retrying prediction and an evaluation without a sample-size cap. The
 * client, printing, the CSV files and sleeping are outside the model; see
 * README.md.
 */
module NoteCoder {
  import opened Wrappers
  import Text
  import Json
  import Messages
  import Retry
  import Dataset
  import Prompt
  import Scoring
  import ClassifierLLM

  /** `SYSTEM_PROMPT` and `SYSTEM_PROMPT_2`; their wording is not modelled. */
  datatype SystemPrompt = ExpertPrompt | ConfidencePrompt

  /** The prompt every request of `predict_code` carries (`SYSTEM_PROMPT_2`). */
  const System: SystemPrompt := ConfidencePrompt

  /**
   * `extract_json`: decode the first `{...}` span; no span and any exception
   * of `json.loads` alike give `None`.
   */
  function ExtractJson(decode: string -> Json.Decoded, text: string): (r: Option<Json.Object>)
    ensures r.Some? <==>
      Json.Search(text).Some? && decode(Json.Group(text, Json.Search(text).value)).Parsed?
    ensures r.Some? ==> r.value == decode(Json.Group(text, Json.Search(text).value)).fields
  {
    match Json.Search(text)
    case None => None
    case Some(m) =>
      match decode(Json.Group(text, m))
      case Parsed(fields) => Some(fields)
      case DecodeError => None
      case OtherError(_) => None
  }

  /**
   * This `extract_json` never raises, and it agrees with the one in
   * `clinical_notes_classifier_LLM.py` except where that one lets a
   * non-`JSONDecodeError` exception escape: there this one gives `None`.
   */
  lemma ExtractJsonAgrees(decode: string -> Json.Decoded, text: string)
    ensures ExtractJson(decode, text).Some? <==> ClassifierLLM.ExtractJson(decode, text).Record?
    ensures ExtractJson(decode, text).Some? ==>
      ExtractJson(decode, text).value == ClassifierLLM.ExtractJson(decode, text).fields
    ensures ExtractJson(decode, text).None? <==>
      ClassifierLLM.ExtractJson(decode, text).NoRecord? || ClassifierLLM.ExtractJson(decode, text).Raised?
  {
  }

  /** Only the first span is tried, whatever text follows it. */
  lemma ExtractTriesOnlyFirstSpan(decode: string -> Json.Decoded, a: string, b: string)
    requires Json.Search(a).Some?
    ensures ExtractJson(decode, a + b) == ExtractJson(decode, a)
  {
    Json.FirstSpanWins(a, b);
    var m := Json.Search(a).value;
    assert Json.Group(a + b, m) == Json.Group(a, m);
  }

  /**
   * The heading above the candidate list: "Choose the best code from this candidate list:".
   * It is written in three pieces so that proving it holds no newline stays cheap.
   */
  const Title: string := "Choose the best " + "code from this " + "candidate list:"
  /** What separates a code from its description in a menu line. */
  const Separator: string := " : "

  /** The prompt `build_user_prompt` returns. */
  function UserPrompt(note: string, candidates: Option<seq<Dataset.Candidate>>): string {
    Prompt.Compose(Title, Separator, note, candidates)
  }

  /** `build_user_prompt`, appending to `base` in a loop. */
  method BuildUserPrompt(note: string, candidates: Option<seq<Dataset.Candidate>>) returns (base: string)
    ensures base == UserPrompt(note, candidates)
  {
    base := "Clinical note:\n\n" + note + "\n\n";
    if candidates.Some? && candidates.value != [] {
      var cands := candidates.value;
      base := base + Title + "\n";
      ghost var head := base;
      assert base == head + Prompt.Menu(Separator, cands[..0]);
      var i := 0;
      while i < |cands|
        invariant 0 <= i <= |cands|
        invariant base == head + Prompt.Menu(Separator, cands[..i])
      {
        Prompt.MenuGrows(head, Separator, cands, i);
        base := base + ("- " + cands[i].code + Separator + cands[i].desc + "\n");
        i := i + 1;
      }
      assert cands[..i] == cands;
    }
    Prompt.ComposeInOrder(Title, Separator, note, candidates);
    base := base + "\nReturn JSON only.";
  }

  lemma TitleIsOneLine()
    ensures Prompt.NoNewline(Title) && Prompt.NoNewline(Separator)
  {
    Prompt.NoNewlineConcat("Choose the best ", "code from this ");
    Prompt.NoNewlineConcat("Choose the best " + "code from this ", "candidate list:");
  }

  /**
   * The user prompt starts with `"Clinical note:\n\n" + note + "\n\n"`, ends
   * with `"\nReturn JSON only."`, holds nothing else without candidates, and
   * otherwise lists the title and then `- c : d` for each pair in order.
   */
  lemma UserPromptShape(note: string, candidates: Option<seq<Dataset.Candidate>>)
    requires candidates.Some? ==> forall i :: 0 <= i < |candidates.value| ==>
      Prompt.NoNewline(candidates.value[i].code) && Prompt.NoNewline(candidates.value[i].desc)
    ensures var p := UserPrompt(note, candidates);
      && |Prompt.Opening(note)| + |Prompt.Closing| <= |p|
      && p[..|Prompt.Opening(note)|] == Prompt.Opening(note)
      && p[|p| - |Prompt.Closing|..] == Prompt.Closing
      && (!Prompt.HasMenu(candidates) ==> p == Prompt.Opening(note) + Prompt.Closing)
      && (Prompt.HasMenu(candidates) ==>
            var lines := Prompt.Lines(p[|Prompt.Opening(note)|..|p| - |Prompt.Closing|]);
            && |lines| == 1 + |candidates.value|
            && lines[0] == Title
            && forall i :: 0 <= i < |candidates.value| ==>
                 lines[i + 1] == "- " + candidates.value[i].code + Separator + candidates.value[i].desc)
  {
    TitleIsOneLine();
    Prompt.ComposeShape(Title, Separator, note, candidates);
  }

  /** How one attempt of `predict_code` ends, given what the endpoint did. */
  function AttemptStep(decode: string -> Json.Decoded, outcome: Messages.Outcome): Retry.Step {
    match outcome
    case Raise(message) => Retry.Failed(message)
    case Reply(content) =>
      var out := Messages.TextOf(content);
      match ExtractJson(decode, out)
      case None => Retry.Miss
      case Some(fields) => Retry.AcceptRecord(fields, out)
  }

  function StepsOf(decode: string -> Json.Decoded, net: nat -> Messages.Outcome): nat -> Retry.Step {
    (k: nat) => AttemptStep(decode, net(k))
  }

  /**
   * An attempt ends here as in `clinical_notes_classifier_LLM.py`, except
   * that a decoding exception other than `JSONDecodeError` is a miss (no
   * sleep, no error text) rather than a failure.
   */
  lemma AttemptStepAgrees(decode: string -> Json.Decoded, outcome: Messages.Outcome)
    ensures var mine := AttemptStep(decode, outcome);
      var theirs := ClassifierLLM.AttemptStep(decode, outcome);
      && (mine != theirs ==>
            outcome.Reply? && mine.Miss? &&
            ClassifierLLM.ExtractJson(decode, Messages.TextOf(outcome.content)).Raised? &&
            theirs == Retry.Failed(ClassifierLLM.ExtractJson(decode, Messages.TextOf(outcome.content)).message))
      && (outcome.Reply? && ClassifierLLM.ExtractJson(decode, Messages.TextOf(outcome.content)).Raised? ==>
            mine.Miss? && theirs.Failed?)
  {
    if outcome.Reply? {
      ExtractJsonAgrees(decode, Messages.TextOf(outcome.content));
    }
  }

  /**
   * Only the endpoint fails an attempt here: when it always replies, every
   * attempt is accepted or missed, so `predict_code` never reports an error
   * other than exhausting its retries.
   */
  lemma RepliesNeverFail(decode: string -> Json.Decoded, net: nat -> Messages.Outcome, note: string,
                         candidates: Option<seq<Dataset.Candidate>>, maxRetries: int)
    requires forall k :: net(k).Reply?
    requires forall k: nat ::
      var out := Messages.TextOf(net(k).content);
      ExtractJson(decode, out).Some? ==>
        var f := ExtractJson(decode, out).value;
        ("code" in f && "description" in f) ==> f["code"].Str? && f["description"].Str?
    ensures var p := Predict(note, candidates, maxRetries, net, decode);
      p.code.None? ==> p.raw == Retry.Exhausted
  {
    var steps := StepsOf(decode, net);
    forall i: nat | 0 <= i < maxRetries ensures !steps(i).Failed? {
      assert steps(i) == AttemptStep(decode, net(i));
    }
    Retry.RunAccepts(steps, maxRetries, 0, System, UserPrompt(note, candidates));
    if Predict(note, candidates, maxRetries, net, decode).code.None? {
      Retry.RunReportsFailure(steps, maxRetries, 0, System, UserPrompt(note, candidates));
    }
  }

  /** `max_retries=3`, the default `evaluate` relies on. */
  const MaxRetries: int := 3

  /**
   * `predict_code`: one request per attempt with `SYSTEM_PROMPT_2`,
   * `net(attempt)` being what the endpoint does on that attempt and `decode`
   * standing for `json.loads`. `trace` records the requests and the sleeps
   * in order.
   */
  method PredictCode(
    note: string, candidates: Option<seq<Dataset.Candidate>>, maxRetries: int,
    net: nat -> Messages.Outcome, decode: string -> Json.Decoded)
    returns (code: Option<string>, desc: Option<string>, raw: string, trace: seq<Retry.Event<SystemPrompt>>)
    ensures (Retry.Prediction(code, desc, raw), trace)
         == Retry.RunFrom(StepsOf(decode, net), maxRetries, 0, System, UserPrompt(note, candidates))
  {
    var system := System;
    var user := BuildUserPrompt(note, candidates);
    ghost var steps := StepsOf(decode, net);
    ghost var run := Retry.RunFrom(steps, maxRetries, 0, system, user);
    trace := [];
    var attempt: nat := 0;
    while attempt < maxRetries
      invariant attempt == 0 || attempt <= maxRetries
      invariant run.0 == Retry.RunFrom(steps, maxRetries, attempt, system, user).0
      invariant run.1 == trace + Retry.RunFrom(steps, maxRetries, attempt, system, user).1
      decreases maxRetries - attempt
    {
      var step := TryAttempt(net(attempt), decode);
      assert step == steps(attempt);
      Retry.Resume(steps, maxRetries, attempt, system, user, run, trace);
      trace := trace + [Retry.Request(attempt, system, user)];
      match step {
        case Accepted(c, d, out) =>
          return Some(c), Some(d), out, trace;
        case Miss =>
        case Failed(message) =>
          if attempt == maxRetries - 1 {
            return None, None, Retry.ErrorText(message), trace;
          }
          trace := trace + [Retry.Sleep(attempt)];
      }
      attempt := attempt + 1;
    }
    Retry.Resume(steps, maxRetries, attempt, system, user, run, trace);
    return None, None, Retry.Exhausted, trace;
  }

  /**
   * The body of the `try` in `predict_code` for one attempt: the endpoint's
   * outcome, the text blocks gathered into `out`, `extract_json`, and the
   * key check and the two `.strip()` calls as `Retry.AcceptRecord` judges
   * them; any exception raised on the way becomes a failed attempt carrying
   * `str(e)`.
   */
  method TryAttempt(outcome: Messages.Outcome, decode: string -> Json.Decoded) returns (step: Retry.Step)
    ensures step == AttemptStep(decode, outcome)
  {
    match outcome {
      case Raise(message) =>
        return Retry.Failed(message);
      case Reply(content) =>
        var out := Messages.CollectText(content);
        var data := ExtractJson(decode, out);
        if data.Some? {
          return Retry.AcceptRecord(data.value, out);
        }
        return Retry.Miss;
    }
  }

  /** The prediction `predict_code` returns for a note. */
  function Predict(
    note: string, candidates: Option<seq<Dataset.Candidate>>, maxRetries: int,
    net: nat -> Messages.Outcome, decode: string -> Json.Decoded): Retry.Prediction
  {
    Retry.RunFrom(StepsOf(decode, net), maxRetries, 0, System, UserPrompt(note, candidates)).0
  }

  /** Every request `predict_code` makes carries `SYSTEM_PROMPT_2` and the same user prompt. */
  lemma RequestsUseSecondPrompt(
    note: string, candidates: Option<seq<Dataset.Candidate>>, maxRetries: int,
    net: nat -> Messages.Outcome, decode: string -> Json.Decoded)
    ensures var t := Retry.RunFrom(StepsOf(decode, net), maxRetries, 0, System, UserPrompt(note, candidates)).1;
      forall i :: 0 <= i < |t| && t[i].Request? ==>
        t[i].system == ConfidencePrompt && t[i].user == UserPrompt(note, candidates)
  {
    Retry.RunSamePrompts(StepsOf(decode, net), maxRetries, 0, System, UserPrompt(note, candidates));
  }

  /**
   * One pass of the loop in `evaluate`: predict the note's code and build
   * the row appended to `preds`.
   */
  method ScoreNote(
    note: Dataset.Note, i: nat, candidates: Option<seq<Dataset.Candidate>>,
    net: nat -> nat -> Messages.Outcome, decode: string -> Json.Decoded)
    returns (row: Scoring.ResultRow)
    ensures row == Scoring.ScoreRow(note, Predictor(candidates, net, decode)(i, note.text))
  {
    var code, desc, raw, _ := PredictCode(note.text, candidates, MaxRetries, net(i), decode);
    var isCorrect := code == Some(note.code);
    row := Scoring.ResultRow(note.id, note.code, note.desc, code, desc, raw, isCorrect);
  }

  /**
   * The loop over `eval_df.iterrows()` in `evaluate`: the rows appended to
   * `preds`, in sampled order, and the `correct` counter.
   */
  method ScoreSample(
    evalDf: seq<Dataset.Note>, candidates: Option<seq<Dataset.Candidate>>,
    net: nat -> nat -> Messages.Outcome, decode: string -> Json.Decoded)
    returns (rows: seq<Scoring.ResultRow>, correct: nat)
    ensures rows == Scoring.ScoreAll(evalDf, Predictor(candidates, net, decode))
    ensures correct == Scoring.CorrectCount(rows)
  {
    ghost var predictor := Predictor(candidates, net, decode);
    rows := [];
    correct := 0;
    var i := 0;
    while i < |evalDf|
      invariant 0 <= i <= |evalDf|
      invariant rows == Scoring.ScoreAll(evalDf[..i], predictor)
      invariant correct == Scoring.CorrectCount(rows)
    {
      var row := ScoreNote(evalDf[i], i, candidates, net, decode);
      Scoring.ScoreAllNext(evalDf, predictor, i);
      Scoring.CorrectCountNext(rows, row);
      rows := rows + [row];
      if row.correct {
        correct := correct + 1;
      }
      i := i + 1;
    }
    assert evalDf[..i] == evalDf;
  }

  /** The prediction `evaluate` gets for the `i`-th sampled note, given its text. */
  function Predictor(candidates: Option<seq<Dataset.Candidate>>,
                     net: nat -> nat -> Messages.Outcome, decode: string -> Json.Decoded)
    : (nat, string) -> Retry.Prediction
  {
    (i: nat, text: string) => Predict(text, candidates, MaxRetries, net(i), decode)
  }

  /**
   * `evaluate`: score the sampled notes in sampled order. `df.sample` raises
   * when more notes are asked for than there are, so `sampleSize` is at most
   * `|df|`. `sampler(n, seed)` stands for `df.sample(n=n, random_state=seed)`,
   * `ranking` for `df["icd10_code"].value_counts().index`, and `net(i)` for
   * what the endpoint does on the `i`-th sampled note.
   */
  method Evaluate(
    df: seq<Dataset.Note>, sampleSize: nat, candidateMode: bool,
    ranking: seq<string>, sampler: (nat, int) -> seq<nat>,
    net: nat -> nat -> Messages.Outcome, decode: string -> Json.Decoded)
    returns (rows: seq<Scoring.ResultRow>, accuracy: real)
    requires sampleSize <= |df|
    requires Dataset.IsSample(sampler(sampleSize, Dataset.Seed), sampleSize, |df|)
    ensures var picks := sampler(sampleSize, Dataset.Seed);
      rows == Scoring.ScoreAll(Dataset.Select(df, picks),
                               Predictor(Dataset.CandidatesFor(df, ranking, candidateMode), net, decode))
    ensures |rows| == sampleSize
    ensures accuracy == Scoring.Accuracy(Scoring.CorrectCount(rows), |rows|)
  {
    var picks := sampler(sampleSize, Dataset.Seed);
    var evalDf := Dataset.Select(df, picks);
    var candidates := None;
    if candidateMode {
      candidates := Some(Dataset.CandidateList(df, ranking));
    }
    assert candidates == Dataset.CandidatesFor(df, ranking, candidateMode);
    var correct;
    rows, correct := ScoreSample(evalDf, candidates, net, decode);
    accuracy := if |rows| > 0 then (correct as real) / (|rows| as real) else 0.0;
  }
}
