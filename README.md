# ICD-10 clinical-note coding harness, modelled in Dafny

The repository is an evaluation harness around a large language model. Each
synthetic clinical note is sent to the model, which is asked for a single
ICD-10 diagnosis code. The answer is parsed as JSON and compared with the
gold code. Two scripts do this, each in its own way:

- `src/clinical_notes_classifier_LLM.py` offers five system prompts (A to E)
  and caps the sample size at the size of the dataset.
- `src/clinical_note_coder.py` always uses its second system prompt. Its
  `extract_json` swallows every decoding exception, and it has no cap on the
  sample size.

This project models the logic the two scripts share, and where they differ:

- `extract_json`: the lazy `\{.*?\}` search and the decode of the first span;
- `choose_system_prompt`;
- `build_user_prompt`: an opening, an optional candidate menu, a closing;
- `predict_code`: a retry loop over attempts that each end in one of three
  ways (accepted, missed, failed);
- `evaluate`: the sample-size cap, the top-20 candidate list, and the fold
  that builds one result row per sampled note and a `correct` counter, with
  accuracy as an exact rational.

The modules are:

| module | file | what it holds |
|---|---|---|
| `Wrappers` | `wrappers.dfy` | `Option` |
| `Text` | `text.dfy` | Python `str.strip()`, `str.upper()` and a first-occurrence search |
| `Json` | `json.dfy` | decoded values, the abstract `json.loads` outcome, the regex search |
| `Messages` | `messages.dfy` | reply content blocks and the loop that joins their texts |
| `Retry` | `retry.dfy` | the specification `RunFrom` of the retry loop, and its properties |
| `Dataset` | `dataset.dfy` | notes, candidate list, frequency ranking, sample |
| `Prompt` | `prompt.dfy` | the user prompt shared by both scripts, and its line structure |
| `Scoring` | `scoring.dfy` | result rows, the correct count, accuracy |
| `ClassifierLLM` | `classifier_llm.dfy` | `src/clinical_notes_classifier_LLM.py` |
| `NoteCoder` | `note_coder.dfy` | `src/clinical_note_coder.py` |

The model's inputs stand for what the scripts cannot see:

- The endpoint is a parameter `net`. `net(k)` is what attempt `k` of one
  `predict_code` call gets back: `Raise(message)` or `Reply(blocks)`. In
  `evaluate`, `net(i)(k)` is attempt `k` for the `i`-th sampled note.
- `json.loads` is a parameter `decode`. It is applied to a span that starts
  with `{`, so on success it yields an object. It can also fail with a
  `JSONDecodeError`, or with another exception that carries a message.
- `df.sample(n, random_state=42)` is a parameter `sampler(n, 42)` that gives
  row positions.
- `value_counts().index` is a parameter `ranking`.
- `time.sleep` is not performed. Each call returns a trace of `Request` and
  `Sleep` events, so the side effects stay visible.

The scripts' loops are methods, each proved equal to a specification
function: `PredictCode` to `Retry.RunFrom`, `BuildUserPrompt` to
`Prompt.Compose`, `Messages.CollectText` (the loop that joins the text
blocks of a reply) to `Messages.TextOf`, and `ScoreSample` to
`Scoring.ScoreAll`. `Evaluate` calls `ScoreSample` after the sampling and the
candidate list. The properties the scripts promise are then proved as lemmas
about those functions.

## Behaviour worth noting

- Some replies use up an attempt without sleeping: a reply with no `{...}`
  span, one whose span fails to decode with a `JSONDecodeError` (with any
  decoding exception in `clinical_note_coder.py`), and one whose record
  lacks `code` or `description`. When every attempt ends that way, the raw
  text is `ERROR: Exhausted retries`; the reply itself is not returned.
- A record whose `code` or `description` is not a string makes `.strip()`
  raise, and that attempt is handled like an endpoint error: it sleeps, or,
  on the last attempt, its message is reported. So is any other decoding
  exception in `clinical_notes_classifier_LLM.py`, which escapes
  `extract_json`.
- The exception's message is reported (`ERROR: <message>`) only when the
  last attempt raised. Otherwise, when no attempt was accepted, the raw text
  is `ERROR: Exhausted retries`.
- Only `clinical_notes_classifier_LLM.py` caps the number of rows at the
  dataset size; `clinical_note_coder.py` produces exactly `sample_size` rows.

## Model

| member | source | states |
|---|---|---|
| Text.Strip | src/clinical_notes_classifier_LLM.py:181 | `.strip()` returns the contiguous middle of the string between its longest leading and trailing whitespace runs, and the result has no whitespace at either end |
| Text.StripUnique | src/clinical_notes_classifier_LLM.py:181 | any string made of whitespace, a middle with no whitespace at either end, and whitespace strips to exactly that middle |
| Text.StripIdempotent | src/clinical_note_coder.py:72 | stripping a returned code or description again changes nothing |
| Json.Search | src/clinical_notes_classifier_LLM.py:122 | the search finds nothing exactly when no `{` is followed later by a `}`; otherwise the match is the leftmost one, and the shortest at that start |
| Json.SpanShape | src/clinical_notes_classifier_LLM.py:121-124 | the matched span starts at the first `{` of the text, ends at the first `}` after it, and holds no other `}` |
| Json.FirstSpanWins | src/clinical_notes_classifier_LLM.py:122-126 | once a prefix of the reply holds a span, nothing appended after it changes the match |
| Json.SpanAfterReasoning | src/clinical_notes_classifier_LLM.py:122-126 | reasoning text without `{` before an object without an inner `}` is skipped, and the object is matched exactly |
| Json.NestedObjectIsCut | src/clinical_note_coder.py:46 | a nested object `{a{b}c}` is cut at its first `}`, so `{a{b}` is what gets decoded |
| Messages.CollectText | src/clinical_notes_classifier_LLM.py:173-176 | the loop over `msg.content` yields the texts of the text blocks, in order, concatenated |
| Messages.TextOfConcat | src/clinical_notes_classifier_LLM.py:173-176 | the text of two runs of blocks is the text of the first followed by the text of the second |
| Messages.NoTextBlocks | src/clinical_notes_classifier_LLM.py:173-176 | a reply without text blocks gives the empty string |
| Retry.AcceptRecord | src/clinical_notes_classifier_LLM.py:180-181 | a decoded record is a miss exactly when it lacks `code` or `description`, is accepted exactly when both are strings, and then gives both values stripped along with the raw text; a non-string value raises |
| Retry.AcceptIgnoresExtraKeys | src/clinical_note_coder.py:71-72 | adding a key other than `code` and `description`, such as `confidence`, does not change how a record is judged |
| Retry.RunFrom | src/clinical_notes_classifier_LLM.py:163-189 | the specification of the retry loop from attempt `k` on, giving the prediction and the trace of requests and sleeps: a code comes back exactly when a description does; with no attempt left there is no request and the raw text is `ERROR: Exhausted retries`; otherwise the first event is the request of attempt `k` |
| Retry.Resume | src/clinical_notes_classifier_LLM.py:163-189 | step lemma for the loop proofs: it unfolds `RunFrom` by one attempt, after events already produced (accepted returns; a raise on the last attempt returns its error; a miss goes on without a sleep; any other raise sleeps and goes on; past the last attempt, `ERROR: Exhausted retries`) |
| Retry.RunAccepts | src/clinical_notes_classifier_LLM.py:163-189 | a code is returned exactly when some attempt within the bound got a usable record, and a code comes back exactly when a description does |
| Retry.RunReturnsFirstAccepted | src/clinical_notes_classifier_LLM.py:180-181 | the first accepted attempt decides the returned code, description and raw text |
| Retry.RunReportsFailure | src/clinical_notes_classifier_LLM.py:183-189 | with no accepted attempt, the raw text is `ERROR: ` plus the last attempt's message if that attempt raised, and `ERROR: Exhausted retries` otherwise, with code and description `None` |
| Retry.RunAttempts | src/clinical_notes_classifier_LLM.py:163 | at most `max_retries` requests are made, at least one when `max_retries` is positive, and they are numbered consecutively from 0 |
| Retry.RunSamePrompts | src/clinical_notes_classifier_LLM.py:160-171 | every request carries the same system prompt and the same user prompt |
| Retry.RunSleepsFollowFailures | src/clinical_notes_classifier_LLM.py:183-187 | each sleep directly follows the request of an attempt that raised and was not the last one |
| Retry.RunFailuresSleep | src/clinical_notes_classifier_LLM.py:183-187 | each request of an attempt that raised and was not the last one is directly followed by a sleep |
| Dataset.FirstDescription | src/clinical_notes_classifier_LLM.py:206-207 | a code's description is that of the first row carrying the code, and `""` for a code no row carries |
| Dataset.CandidateList | src/clinical_notes_classifier_LLM.py:205-207 | the candidate list is the first 20 codes of the frequency ranking (all of them when there are fewer), in ranking order, each paired with its first-seen description |
| Dataset.SampleRowsOnce | src/clinical_notes_classifier_LLM.py:201 | when no position is drawn twice, as when `df.sample` draws without replacement, `eval_df` holds each dataset row at most as often as the dataset does (the multiset of sampled rows is contained in that of the dataset) |
| Dataset.CandidateListIsTopCodes | src/clinical_note_coder.py:84-87 | at most 20 pairs with distinct codes, all of them dataset codes; each description comes from the first row with that code; no code left out is more frequent than one listed; every code is listed when there are at most 20 |
| Prompt.Compose | src/clinical_notes_classifier_LLM.py:135-144 | the prompt `build_user_prompt` returns, for a script's title and separator: it always begins with the opening around the note and ends with the closing, and is just those two when the candidate list is missing or empty |
| Prompt.ComposeInOrder | src/clinical_notes_classifier_LLM.py:135-144 | step lemma for the loop proofs: `Compose` unfolded into the order in which `build_user_prompt` appends (opening; then title line and menu when there are candidates; then closing) |
| Prompt.MenuLines | src/clinical_notes_classifier_LLM.py:140-141 | when no code or description contains a newline, the menu splits into exactly one line per candidate, each `- code<sep>description`, in input order |
| Prompt.ComposeShape | src/clinical_note_coder.py:36-43 | between the opening and the closing there is nothing without candidates, and otherwise, when none of the title, the separator, the codes and the descriptions contains a newline, exactly the title line and then one menu line per candidate, in order |
| Scoring.ScoreRow | src/clinical_notes_classifier_LLM.py:221-230 | a row copies the note's id, gold code and description and the prediction; it is correct exactly when the predicted code is present and equals the gold code, so a `None` prediction is never correct |
| Scoring.ScoreAll | src/clinical_notes_classifier_LLM.py:214-230 | the fold produces as many rows as there are sampled notes |
| Scoring.ScoreAllRows | src/clinical_note_coder.py:91-102 | the `i`-th row scores the `i`-th sampled note against the prediction for that note |
| Scoring.CorrectCountIsNumberCorrect | src/clinical_notes_classifier_LLM.py:232-233 | the `correct` counter equals the number of rows flagged correct and never exceeds the number of rows |
| Scoring.AllCorrectIffFullCount | src/clinical_note_coder.py:103-104 | the counter reaches the number of rows exactly when every row is correct |
| Scoring.Accuracy | src/clinical_notes_classifier_LLM.py:236 | accuracy is 0 when there are no rows, and otherwise the number that, times the number of rows, gives the correct count |
| Scoring.AccuracyRange | src/clinical_notes_classifier_LLM.py:236 | accuracy lies in [0, 1], is 0 without rows, and is 1 exactly when there are rows and all are correct |
| ClassifierLLM.ChooseSystemPrompt | src/clinical_notes_classifier_LLM.py:102-114 | `choose_system_prompt` picks B, C, D or E exactly when the upper-cased version is that letter, and prompt A for every other version |
| ClassifierLLM.ChooseSystemPromptByLetter | src/clinical_notes_classifier_LLM.py:102-114 | B, C, D and E are each chosen exactly by that letter in either case, and every other version, the empty one included, chooses prompt A |
| ClassifierLLM.ChooseSystemPromptIgnoresCase | src/clinical_notes_classifier_LLM.py:102-114 | upper-casing the version first changes nothing, and a version outside a..e and A..E behaves as "A" |
| ClassifierLLM.ExtractJson | src/clinical_notes_classifier_LLM.py:121-128 | `extract_json` gives `None` without a match; otherwise it gives the decoded object exactly when the first span decodes, `None` on a `JSONDecodeError`, and lets any other decode exception escape with its message |
| ClassifierLLM.ExtractTriesOnlyFirstSpan | src/clinical_notes_classifier_LLM.py:121-128 | once the text holds a span, what follows it cannot change what `extract_json` returns, so a valid answer after a brace in the reasoning is never reached |
| ClassifierLLM.ExtractAfterReasoning | src/clinical_notes_classifier_LLM.py:121-128 | after reasoning text without `{`, the decoder gets exactly the answer object; a `JSONDecodeError` gives `None` and any other exception escapes |
| ClassifierLLM.BuildUserPrompt | src/clinical_notes_classifier_LLM.py:135-144 | the loop that appends to `base` builds exactly the composed prompt with title "Choose the best code from the following list:" and separator `": "` |
| ClassifierLLM.UserPromptShape | src/clinical_notes_classifier_LLM.py:135-144 | the user prompt starts with `"Clinical note:\n\n" + note + "\n\n"`, ends with `"\nReturn JSON only."`, and in between holds nothing without candidates and otherwise, when no code or description contains a newline, the title line and then one `- c: d` line per pair, in order |
| ClassifierLLM.AttemptStepMisses | src/clinical_notes_classifier_LLM.py:173-187 | a reply with no text blocks, or whose first span fails with `JSONDecodeError`, is a miss; any other decode exception fails the attempt with its message |
| ClassifierLLM.TryAttempt | src/clinical_notes_classifier_LLM.py:164-187 | one pass through the `try` yields how that attempt ends, as the attempt specification defines it |
| ClassifierLLM.PredictCode | src/clinical_notes_classifier_LLM.py:157-189 | the returned code, description, raw text and trace of requests and sleeps are those of the retry specification, with the chosen system prompt and the built user prompt |
| ClassifierLLM.SampleSize | src/clinical_notes_classifier_LLM.py:198-199 | the sample size is the requested size capped at the dataset size |
| ClassifierLLM.ScoreNote | src/clinical_notes_classifier_LLM.py:215-230 | one pass of the loop builds the result row of the note against its prediction |
| ClassifierLLM.ScoreSample | src/clinical_notes_classifier_LLM.py:214-233 | the loop appends one row per sampled note, in order, and its counter equals the number of correct rows |
| ClassifierLLM.Evaluate | src/clinical_notes_classifier_LLM.py:196-244 | `evaluate` returns one row per sampled note (the capped sample size), scored with the top-20 candidates in candidate mode, and accuracy equal to correct rows over rows (0 without rows) |
| NoteCoder.ExtractJson | src/clinical_note_coder.py:45-53 | `extract_json` gives an object exactly when there is a match and its first span decodes, and then the decoded object; no match and every decode exception give `None` |
| NoteCoder.ExtractJsonAgrees | src/clinical_note_coder.py:45-53 | this `extract_json` never raises; it returns a record exactly when the other script's does, and `None` where that one returns `None` or lets an exception escape |
| NoteCoder.ExtractTriesOnlyFirstSpan | src/clinical_note_coder.py:45-53 | only the first span is ever decoded, whatever text follows it |
| NoteCoder.BuildUserPrompt | src/clinical_note_coder.py:36-43 | the loop that appends to `base` builds exactly the composed prompt with title "Choose the best code from this candidate list:" and separator `" : "` |
| NoteCoder.UserPromptShape | src/clinical_note_coder.py:36-43 | the user prompt starts with the opening around the note and ends with `"\nReturn JSON only."`; in between is nothing without candidates and otherwise, when no code or description contains a newline, the title line and then one `- c : d` line per pair, in order |
| NoteCoder.AttemptStepAgrees | src/clinical_note_coder.py:66-77 | an attempt ends as in the other script, except where a decode exception other than `JSONDecodeError` fails that script's attempt: here it is a miss |
| NoteCoder.RepliesNeverFail | src/clinical_note_coder.py:55-78 | when the endpoint always replies and usable records hold strings, a call without a code reports `ERROR: Exhausted retries` |
| NoteCoder.TryAttempt | src/clinical_note_coder.py:58-77 | one pass through the `try` yields how that attempt ends, as the attempt specification defines it |
| NoteCoder.PredictCode | src/clinical_note_coder.py:55-78 | the returned code, description, raw text and trace are those of the retry specification, with the second system prompt and the built user prompt |
| NoteCoder.RequestsUseSecondPrompt | src/clinical_note_coder.py:59-65 | every request carries `SYSTEM_PROMPT_2` and the same user prompt |
| NoteCoder.ScoreNote | src/clinical_note_coder.py:92-102 | one pass of the loop builds the result row of the note against its prediction |
| NoteCoder.ScoreSample | src/clinical_note_coder.py:91-104 | the loop appends one row per sampled note, in order, and its counter equals the number of correct rows |
| NoteCoder.Evaluate | src/clinical_note_coder.py:80-111 | `evaluate` returns exactly `sample_size` rows, one per sampled note in order, and accuracy equal to correct rows over rows (0 without rows) |

## Left out

- The Anthropic client is not modelled: its construction, the model name, `max_tokens`, `temperature` and the API-key check at import. The endpoint's behaviour is the parameter `net`.
- `time.sleep` is left out. Its duration (`sleep=1.5`) is not modelled; each sleep is a `Sleep` event in the returned trace.
- The CSV files are left out, both `pd.read_csv` and `to_csv`. The dataset is a given sequence of notes, and the returned rows are the table that would be written.
- pandas internals are left out. `df.sample`'s random generator is the parameter `sampler`, called with seed 42. `value_counts()`, with its tie order, is the parameter `ranking`; the candidate lemma assumes only that it lists each dataset code once by non-increasing frequency.
- Dataset.IsSample: requires only that the picks have the right number and lie within the dataset, not that they are distinct. `Evaluate` needs no more; `Dataset.SampleRowsOnce` states what distinct picks, as `df.sample` draws them, add.
- NoteCoder.Evaluate: requires `sample_size <= len(df)`, because `df.sample` raises in pandas when more rows are requested.
- ClassifierLLM.Evaluate / NoteCoder.Evaluate: the sample size is a `nat`. The command line accepts any integer, and a negative size makes `df.sample` raise `ValueError`; that error is not modelled.
- Missing (NaN) gold codes and descriptions are not modelled. Every note carries strings.
- Float accuracy and the `:.2%` formatting are not modelled. Accuracy is an exact rational (`real`).
- `print` output is left out, and so are the CLI in `get_args` and the `__main__` blocks, which only pass arguments through.
- The wording of the system prompts is not modelled. They are the enumerations `ClassifierLLM.SystemPrompt` and `NoteCoder.SystemPrompt`. The unused `SYSTEM_PROMPT` of `clinical_note_coder.py` appears only as a constructor.
- Text.Upper: the case mapping covers ASCII letters only. No other character upper-cases to one of A to E, so the prompt choice is the same as with Python's full Unicode mapping.
- `json.loads` internals are left out. Decoding is the parameter `decode`, and decoded values are strings or values of another type, known by type name.
- The text of exceptions (`str(e)`) is given by the endpoint's outcome or by the decoder. The one exception the harness itself raises, `.strip()` on a non-string, is modelled by `Retry.NoStripMessage`.
