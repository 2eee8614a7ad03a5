/**
 * src/clinical_notes_classifier_LLM.py: the classifier with five selectable
 * system prompts (A to E), its JSON extraction, user prompt, retrying
 * prediction and evaluation loop. The client, the CLI, printing, the CSV
 * files and sleeping are outside the model; see README.md.
 */
module ClassifierLLM {
  import opened Wrappers
  import Text
  import Json
  import Messages
  import Retry
  import Dataset
  import Prompt
  import Scoring

  /** `PROMPT_A` to `PROMPT_E`; their wording is not modelled. */
  datatype SystemPrompt = PromptA | PromptB | PromptC | PromptD | PromptE

  /** `choose_system_prompt`: the variant named by the upper-cased letter, and `PROMPT_A` for anything else. */
  function ChooseSystemPrompt(version: string): (p: SystemPrompt)
    ensures p == PromptB <==> Text.Upper(version) == "B"
    ensures p == PromptC <==> Text.Upper(version) == "C"
    ensures p == PromptD <==> Text.Upper(version) == "D"
    ensures p == PromptE <==> Text.Upper(version) == "E"
    ensures p == PromptA <==> Text.Upper(version) !in {"B", "C", "D", "E"}
  {
    var v := Text.Upper(version);
    if v == "A" then PromptA
    else if v == "B" then PromptB
    else if v == "C" then PromptC
    else if v == "D" then PromptD
    else if v == "E" then PromptE
    else PromptA
  }

  /** `x.upper() == letter` exactly for the letter and its lower-case form. */
  lemma UpperIsLetter(x: string, letter: char)
    requires 'A' <= letter <= 'Z'
    ensures Text.Upper(x) == [letter] <==> x == [letter] || x == [(letter as int + 32) as char]
  {
    if Text.Upper(x) == [letter] {
      assert |x| == 1 && Text.UpperChar(x[0]) == letter;
      assert x == [x[0]];
    }
  }

  /**
   * Each of B, C, D and E is chosen exactly by that letter in either case;
   * every other version, the empty one included, chooses `PROMPT_A`.
   */
  lemma ChooseSystemPromptByLetter(version: string)
    ensures ChooseSystemPrompt(version) == PromptB <==> version == "b" || version == "B"
    ensures ChooseSystemPrompt(version) == PromptC <==> version == "c" || version == "C"
    ensures ChooseSystemPrompt(version) == PromptD <==> version == "d" || version == "D"
    ensures ChooseSystemPrompt(version) == PromptE <==> version == "e" || version == "E"
    ensures ChooseSystemPrompt(version) == PromptA <==>
      version !in {"b", "B", "c", "C", "d", "D", "e", "E"}
  {
    UpperIsLetter(version, 'A');
    UpperIsLetter(version, 'B');
    UpperIsLetter(version, 'C');
    UpperIsLetter(version, 'D');
    UpperIsLetter(version, 'E');
  }

  /**
   * The choice ignores case: upper-casing the version first changes nothing,
   * and an unrecognised version behaves exactly like "A".
   */
  lemma ChooseSystemPromptIgnoresCase(version: string)
    ensures ChooseSystemPrompt(Text.Upper(version)) == ChooseSystemPrompt(version)
    ensures version !in {"a", "A", "b", "B", "c", "C", "d", "D", "e", "E"} ==>
      ChooseSystemPrompt(version) == ChooseSystemPrompt("A")
  {
    var u := Text.Upper(version);
    assert Text.Upper(u) == u;
    ChooseSystemPromptByLetter(version);
  }

  /** What `extract_json` hands back: a decoded object, `None`, or an exception it lets escape. */
  datatype Extracted = Record(fields: Json.Object) | NoRecord | Raised(message: string)

  /**
   * `extract_json`: decode the first `{...}` span; no span or a
   * `JSONDecodeError` gives `None`, and any other exception of `json.loads`
   * propagates to the caller.
   */
  function ExtractJson(decode: string -> Json.Decoded, text: string): (r: Extracted)
    ensures Json.Search(text).None? ==> r == NoRecord
    ensures Json.Search(text).Some? ==>
      var d := decode(Json.Group(text, Json.Search(text).value));
      && (r.Record? <==> d.Parsed?) && (r.Record? ==> r.fields == d.fields)
      && (r.Raised? <==> d.OtherError?) && (r.Raised? ==> r.message == d.message)
  {
    match Json.Search(text)
    case None => NoRecord
    case Some(m) =>
      match decode(Json.Group(text, m))
      case Parsed(fields) => Record(fields)
      case DecodeError => NoRecord
      case OtherError(message) => Raised(message)
  }

  /**
   * Only the first span is tried: text that already holds a `{...}` span
   * decides the result whatever follows it, so a well-formed answer after a
   * brace-holding reasoning text is never reached.
   */
  lemma ExtractTriesOnlyFirstSpan(decode: string -> Json.Decoded, a: string, b: string)
    requires Json.Search(a).Some?
    ensures ExtractJson(decode, a + b) == ExtractJson(decode, a)
  {
    Json.FirstSpanWins(a, b);
    var m := Json.Search(a).value;
    assert Json.Group(a + b, m) == Json.Group(a, m);
  }

  /**
   * Reasoning text without `{` before the answer is skipped: the decoder is
   * given exactly the answer object, provided it holds no `}` before its end.
   */
  lemma ExtractAfterReasoning(decode: string -> Json.Decoded, reasoning: string, inner: string, rest: string)
    requires forall k :: 0 <= k < |reasoning| ==> reasoning[k] != '{'
    requires forall k :: 0 <= k < |inner| ==> inner[k] != '}'
    ensures var text := reasoning + "{" + inner + "}" + rest;
      ExtractJson(decode, text) ==
        match decode("{" + inner + "}")
        case Parsed(fields) => Record(fields)
        case DecodeError => NoRecord
        case OtherError(message) => Raised(message)
  {
    Json.SpanAfterReasoning(reasoning, inner, rest);
  }

  /**
   * The heading above the candidate list: "Choose the best code from the following list:".
   * It is written in three pieces so that proving it holds no newline stays cheap.
   */
  const Title: string := "Choose the best " + "code from the " + "following list:"
  /** What separates a code from its description in a menu line. */
  const Separator: string := ": "

  /** The prompt `build_user_prompt` returns. */
  function UserPrompt(note: string, candidates: Option<seq<Dataset.Candidate>>): string {
    Prompt.Compose(Title, Separator, note, candidates)
  }

  /** `build_user_prompt`, appending to `base` in a loop. */
  method BuildUserPrompt(note: string, candidates: Option<seq<Dataset.Candidate>>) returns (base: string)
    ensures base == UserPrompt(note, candidates)
  {
    base := "Clinical note:\n\n" + note + "\n\n";
    if candidates.Some? && candidates.value != [] {
      var cands := candidates.value;
      base := base + Title + "\n";
      ghost var head := base;
      assert base == head + Prompt.Menu(Separator, cands[..0]);
      var i := 0;
      while i < |cands|
        invariant 0 <= i <= |cands|
        invariant base == head + Prompt.Menu(Separator, cands[..i])
      {
        Prompt.MenuGrows(head, Separator, cands, i);
        base := base + ("- " + cands[i].code + Separator + cands[i].desc + "\n");
        i := i + 1;
      }
      assert cands[..i] == cands;
    }
    Prompt.ComposeInOrder(Title, Separator, note, candidates);
    base := base + "\nReturn JSON only.";
  }

  /**
   * The user prompt starts with `"Clinical note:\n\n" + note + "\n\n"`, ends
   * with `"\nReturn JSON only."`, holds nothing else without candidates, and
   * otherwise lists the title and then `- c: d` for each pair in order.
   */
  lemma UserPromptShape(note: string, candidates: Option<seq<Dataset.Candidate>>)
    requires candidates.Some? ==> forall i :: 0 <= i < |candidates.value| ==>
      Prompt.NoNewline(candidates.value[i].code) && Prompt.NoNewline(candidates.value[i].desc)
    ensures var p := UserPrompt(note, candidates);
      && |Prompt.Opening(note)| + |Prompt.Closing| <= |p|
      && p[..|Prompt.Opening(note)|] == Prompt.Opening(note)
      && p[|p| - |Prompt.Closing|..] == Prompt.Closing
      && (!Prompt.HasMenu(candidates) ==> p == Prompt.Opening(note) + Prompt.Closing)
      && (Prompt.HasMenu(candidates) ==>
            var lines := Prompt.Lines(p[|Prompt.Opening(note)|..|p| - |Prompt.Closing|]);
            && |lines| == 1 + |candidates.value|
            && lines[0] == Title
            && forall i :: 0 <= i < |candidates.value| ==>
                 lines[i + 1] == "- " + candidates.value[i].code + Separator + candidates.value[i].desc)
  {
    TitleIsOneLine();
    Prompt.ComposeShape(Title, Separator, note, candidates);
  }

  lemma TitleIsOneLine()
    ensures Prompt.NoNewline(Title) && Prompt.NoNewline(Separator)
  {
    Prompt.NoNewlineConcat("Choose the best ", "code from the ");
    Prompt.NoNewlineConcat("Choose the best " + "code from the ", "following list:");
  }

  /** How one attempt of `predict_code` ends, given what the endpoint did. */
  function AttemptStep(decode: string -> Json.Decoded, outcome: Messages.Outcome): Retry.Step {
    match outcome
    case Raise(message) => Retry.Failed(message)
    case Reply(content) =>
      var out := Messages.TextOf(content);
      match ExtractJson(decode, out)
      case Raised(message) => Retry.Failed(message)
      case NoRecord => Retry.Miss
      case Record(fields) => Retry.AcceptRecord(fields, out)
  }

  function StepsOf(decode: string -> Json.Decoded, net: nat -> Messages.Outcome): nat -> Retry.Step {
    (k: nat) => AttemptStep(decode, net(k))
  }

  /**
   * A reply without text blocks is a miss, and so is a reply whose first span
   * is not valid JSON: neither uses a sleep. A `json.loads` exception other
   * than `JSONDecodeError` escapes `extract_json` and fails the attempt.
   */
  lemma AttemptStepMisses(decode: string -> Json.Decoded, content: seq<Messages.Block>)
    ensures (forall i :: 0 <= i < |content| ==> !content[i].TextBlock?) ==>
      AttemptStep(decode, Messages.Reply(content)) == Retry.Miss
    ensures var out := Messages.TextOf(content);
      Json.Search(out).Some? ==>
        var span := Json.Group(out, Json.Search(out).value);
        && (decode(span).DecodeError? ==> AttemptStep(decode, Messages.Reply(content)) == Retry.Miss)
        && (decode(span).OtherError? ==>
              AttemptStep(decode, Messages.Reply(content)) == Retry.Failed(decode(span).message))
  {
    if forall i :: 0 <= i < |content| ==> !content[i].TextBlock? {
      Messages.NoTextBlocks(content);
    }
  }

  /** `max_retries=3`, the default `evaluate` relies on. */
  const MaxRetries: int := 3

  /**
   * The body of the `try` in `predict_code` for one attempt: the endpoint's
   * outcome, the text blocks gathered into `out`, `extract_json`, and the
   * key check and the two `.strip()` calls as `Retry.AcceptRecord` judges
   * them; any exception raised on the way becomes a failed attempt carrying
   * `str(e)`.
   */
  method TryAttempt(outcome: Messages.Outcome, decode: string -> Json.Decoded) returns (step: Retry.Step)
    ensures step == AttemptStep(decode, outcome)
  {
    match outcome {
      case Raise(message) =>
        return Retry.Failed(message);
      case Reply(content) =>
        var out := Messages.CollectText(content);
        var data := ExtractJson(decode, out);
        match data {
          case Raised(message) =>
            return Retry.Failed(message);
          case NoRecord =>
            return Retry.Miss;
          case Record(fields) =>
            return Retry.AcceptRecord(fields, out);
        }
    }
  }

  /**
   * `predict_code`: the system prompt chosen from `version`, and one request
   * per attempt, `net(attempt)` being what the endpoint does on that attempt
   * and `decode` standing for `json.loads`. `trace` records the requests and
   * the sleeps in order.
   */
  method PredictCode(
    note: string, version: string, candidates: Option<seq<Dataset.Candidate>>, maxRetries: int,
    net: nat -> Messages.Outcome, decode: string -> Json.Decoded)
    returns (code: Option<string>, desc: Option<string>, raw: string, trace: seq<Retry.Event<SystemPrompt>>)
    ensures (Retry.Prediction(code, desc, raw), trace)
         == Retry.RunFrom(StepsOf(decode, net), maxRetries, 0, ChooseSystemPrompt(version), UserPrompt(note, candidates))
  {
    var system := ChooseSystemPrompt(version);
    var user := BuildUserPrompt(note, candidates);
    ghost var steps := StepsOf(decode, net);
    ghost var run := Retry.RunFrom(steps, maxRetries, 0, system, user);
    trace := [];
    var attempt: nat := 0;
    while attempt < maxRetries
      invariant attempt == 0 || attempt <= maxRetries
      invariant run.0 == Retry.RunFrom(steps, maxRetries, attempt, system, user).0
      invariant run.1 == trace + Retry.RunFrom(steps, maxRetries, attempt, system, user).1
      decreases maxRetries - attempt
    {
      var step := TryAttempt(net(attempt), decode);
      assert step == steps(attempt);
      Retry.Resume(steps, maxRetries, attempt, system, user, run, trace);
      trace := trace + [Retry.Request(attempt, system, user)];
      match step {
        case Accepted(c, d, out) =>
          return Some(c), Some(d), out, trace;
        case Miss =>
        case Failed(message) =>
          if attempt == maxRetries - 1 {
            return None, None, Retry.ErrorText(message), trace;
          }
          trace := trace + [Retry.Sleep(attempt)];
      }
      attempt := attempt + 1;
    }
    Retry.Resume(steps, maxRetries, attempt, system, user, run, trace);
    return None, None, Retry.Exhausted, trace;
  }

  /** The prediction `predict_code` returns for a note. */
  function Predict(
    note: string, version: string, candidates: Option<seq<Dataset.Candidate>>, maxRetries: int,
    net: nat -> Messages.Outcome, decode: string -> Json.Decoded): Retry.Prediction
  {
    Retry.RunFrom(StepsOf(decode, net), maxRetries, 0, ChooseSystemPrompt(version), UserPrompt(note, candidates)).0
  }

  /** `if sample_size > len(df): sample_size = len(df)`. */
  function SampleSize(requested: nat, size: nat): (n: nat)
    ensures n <= size && n <= requested
    ensures n == requested || n == size
  {
    if requested > size then size else requested
  }

  /**
   * One pass of the loop in `evaluate`: predict the note's code and build
   * the row appended to `preds`.
   */
  method ScoreNote(
    note: Dataset.Note, i: nat, version: string, candidates: Option<seq<Dataset.Candidate>>,
    net: nat -> nat -> Messages.Outcome, decode: string -> Json.Decoded)
    returns (row: Scoring.ResultRow)
    ensures row == Scoring.ScoreRow(note, Predictor(version, candidates, net, decode)(i, note.text))
  {
    var code, desc, raw, _ := PredictCode(note.text, version, candidates, MaxRetries, net(i), decode);
    var isCorrect := code == Some(note.code);
    row := Scoring.ResultRow(note.id, note.code, note.desc, code, desc, raw, isCorrect);
  }

  /**
   * The loop over `eval_df.iterrows()` in `evaluate`: the rows appended to
   * `preds`, in sampled order, and the `correct` counter.
   */
  method ScoreSample(
    evalDf: seq<Dataset.Note>, version: string, candidates: Option<seq<Dataset.Candidate>>,
    net: nat -> nat -> Messages.Outcome, decode: string -> Json.Decoded)
    returns (rows: seq<Scoring.ResultRow>, correct: nat)
    ensures rows == Scoring.ScoreAll(evalDf, Predictor(version, candidates, net, decode))
    ensures correct == Scoring.CorrectCount(rows)
  {
    ghost var predictor := Predictor(version, candidates, net, decode);
    rows := [];
    correct := 0;
    var i := 0;
    while i < |evalDf|
      invariant 0 <= i <= |evalDf|
      invariant rows == Scoring.ScoreAll(evalDf[..i], predictor)
      invariant correct == Scoring.CorrectCount(rows)
    {
      var row := ScoreNote(evalDf[i], i, version, candidates, net, decode);
      Scoring.ScoreAllNext(evalDf, predictor, i);
      Scoring.CorrectCountNext(rows, row);
      rows := rows + [row];
      if row.correct {
        correct := correct + 1;
      }
      i := i + 1;
    }
    assert evalDf[..i] == evalDf;
  }

  /** The prediction `evaluate` gets for the `i`-th sampled note, given its text. */
  function Predictor(version: string, candidates: Option<seq<Dataset.Candidate>>,
                     net: nat -> nat -> Messages.Outcome, decode: string -> Json.Decoded)
    : (nat, string) -> Retry.Prediction
  {
    (i: nat, text: string) => Predict(text, version, candidates, MaxRetries, net(i), decode)
  }

  /**
   * `evaluate`: score the sampled notes in sampled order. `sampler(n, seed)`
   * stands for `df.sample(n=n, random_state=seed)`, `ranking` for
   * `df["icd10_code"].value_counts().index`, and `net(i)` for what the
   * endpoint does on the `i`-th sampled note.
   */
  method Evaluate(
    df: seq<Dataset.Note>, sampleSize: nat, version: string, candidateMode: bool,
    ranking: seq<string>, sampler: (nat, int) -> seq<nat>,
    net: nat -> nat -> Messages.Outcome, decode: string -> Json.Decoded)
    returns (rows: seq<Scoring.ResultRow>, accuracy: real)
    requires var n := SampleSize(sampleSize, |df|); Dataset.IsSample(sampler(n, Dataset.Seed), n, |df|)
    ensures var picks := sampler(SampleSize(sampleSize, |df|), Dataset.Seed);
      rows == Scoring.ScoreAll(Dataset.Select(df, picks),
                               Predictor(version, Dataset.CandidatesFor(df, ranking, candidateMode), net, decode))
    ensures |rows| == SampleSize(sampleSize, |df|)
    ensures accuracy == Scoring.Accuracy(Scoring.CorrectCount(rows), |rows|)
  {
    var n := sampleSize;
    if n > |df| {
      n := |df|;
    }
    var picks := sampler(n, Dataset.Seed);
    var evalDf := Dataset.Select(df, picks);
    var candidates := None;
    if candidateMode {
      candidates := Some(Dataset.CandidateList(df, ranking));
    }
    assert candidates == Dataset.CandidatesFor(df, ranking, candidateMode);
    var correct;
    rows, correct := ScoreSample(evalDf, version, candidates, net, decode);
    accuracy := if |rows| > 0 then (correct as real) / (|rows| as real) else 0.0;
  }
}
