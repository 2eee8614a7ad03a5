/**
 * The labelled dataset as `evaluate` uses it after `pd.read_csv`: the notes,
 * the candidate list drawn from the most frequent gold codes, and the sample
 * of notes to score. Reading the file, `value_counts` and `df.sample` are
 * pandas; their results enter the model as given values.
 */
module Dataset {
  import opened Wrappers

  /** One row of the dataset: `note_id`, `note_text`, `icd10_code`, `icd10_desc`. */
  datatype Note = Note(id: string, text: string, code: string, desc: string)

  /** One `(code, description)` pair of the candidate list. */
  datatype Candidate = Candidate(code: string, desc: string)

  /** `.head(20)` on the codes ranked by frequency. */
  const MaxCandidates: nat := 20

  /** `random_state=42` passed to `df.sample`. */
  const Seed: int := 42

  /** Row `i` is the first row of `df` whose gold code is `code`. */
  predicate IsFirstWith(df: seq<Note>, i: int, code: string) {
    0 <= i < |df| && df[i].code == code && forall j :: 0 <= j < i ==> df[j].code != code
  }

  /** How many notes of `df` have gold code `code`. */
  function Count(df: seq<Note>, code: string): nat {
    if df == [] then 0 else (if df[0].code == code then 1 else 0) + Count(df[1..], code)
  }

  /** Some note of `df` has gold code `code`. */
  predicate HasCode(df: seq<Note>, code: string) {
    exists i :: 0 <= i < |df| && df[i].code == code
  }

  /**
   * What `df["icd10_code"].value_counts().index.tolist()` is: every distinct
   * gold code once, by non-increasing frequency (how ties are ordered is up
   * to pandas and left open).
   */
  ghost predicate IsFrequencyRanking(df: seq<Note>, ranking: seq<string>) {
    && (forall i, j :: 0 <= i < j < |ranking| ==> ranking[i] != ranking[j])
    && (forall c :: c in ranking <==> HasCode(df, c))
    && (forall i, j :: 0 <= i < j < |ranking| ==> Count(df, ranking[i]) >= Count(df, ranking[j]))
  }

  /**
   * `code_map.get(code, "")`, where `code_map` maps each code to the
   * description of the first row that has it (`drop_duplicates` keeps the
   * first occurrence).
   */
  function FirstDescription(df: seq<Note>, code: string): (d: string)
    ensures !HasCode(df, code) ==> d == ""
    ensures forall i :: IsFirstWith(df, i, code) ==> d == df[i].desc
  {
    if df == [] then ""
    else if df[0].code == code then df[0].desc
    else
      var d := FirstDescription(df[1..], code);
      assert forall i :: 1 <= i < |df| ==> df[1..][i - 1] == df[i];
      d
  }

  /** `[(c, code_map.get(c, "")) for c in freq]` with `freq` the first 20 codes of the ranking. */
  function CandidateList(df: seq<Note>, ranking: seq<string>): (r: seq<Candidate>)
    ensures |r| <= MaxCandidates && |r| <= |ranking|
    ensures |ranking| >= MaxCandidates ==> |r| == MaxCandidates
    ensures |ranking| < MaxCandidates ==> |r| == |ranking|
    ensures forall i :: 0 <= i < |r| ==> r[i].code == ranking[i] && r[i].desc == FirstDescription(df, ranking[i])
  {
    var top := if |ranking| <= MaxCandidates then ranking else ranking[..MaxCandidates];
    seq(|top|, i requires 0 <= i < |top| => Candidate(top[i], FirstDescription(df, top[i])))
  }

  /**
   * The candidate list has at most 20 pairs with distinct codes, all of them
   * gold codes of the dataset, each with the description of the first row
   * carrying it; no code left out is more frequent than one listed, and the
   * list holds every code when there are at most 20.
   */
  lemma CandidateListIsTopCodes(df: seq<Note>, ranking: seq<string>)
    requires IsFrequencyRanking(df, ranking)
    ensures var r := CandidateList(df, ranking);
      && |r| <= MaxCandidates
      && (forall i, j :: 0 <= i < j < |r| ==> r[i].code != r[j].code)
      && (forall i :: 0 <= i < |r| ==> HasCode(df, r[i].code))
      && (forall i, n :: 0 <= i < |r| && IsFirstWith(df, n, r[i].code) ==> r[i].desc == df[n].desc)
      && (forall i, n :: 0 <= i < |r| && 0 <= n < |df| && !IsListed(r, df[n].code)
            ==> Count(df, df[n].code) <= Count(df, r[i].code))
      && (|ranking| <= MaxCandidates ==> forall n :: 0 <= n < |df| ==> IsListed(r, df[n].code))
  {
    var r := CandidateList(df, ranking);
    forall i | 0 <= i < |r| ensures HasCode(df, r[i].code) {
      assert ranking[i] in ranking;
    }
    forall i, n | 0 <= i < |r| && 0 <= n < |df| && !IsListed(r, df[n].code)
      ensures Count(df, df[n].code) <= Count(df, r[i].code)
    {
      var p := RankOf(df, ranking, df[n].code);
      assert i < p;
    }
    if |ranking| <= MaxCandidates {
      forall n | 0 <= n < |df| ensures IsListed(r, df[n].code) {
        var p := RankOf(df, ranking, df[n].code);
        assert r[p].code == df[n].code;
      }
    }
  }

  /** Where a gold code of the dataset stands in the ranking. */
  lemma RankOf(df: seq<Note>, ranking: seq<string>, code: string) returns (p: nat)
    requires IsFrequencyRanking(df, ranking) && HasCode(df, code)
    ensures p < |ranking| && ranking[p] == code
  {
    p :| 0 <= p < |ranking| && ranking[p] == code;
  }

  predicate IsListed(r: seq<Candidate>, code: string) {
    exists i :: 0 <= i < |r| && r[i].code == code
  }

  /**
   * What `df.sample(n=n, random_state=42)` yields: `n` row positions of a
   * dataset with `size` rows. pandas draws them without replacement, which
   * `Distinct` states; only `SampleRowsOnce` relies on it.
   */
  predicate IsSample(picks: seq<nat>, n: nat, size: nat) {
    && |picks| == n
    && (forall i :: 0 <= i < |picks| ==> picks[i] < size)
  }

  /** The candidate list `evaluate` passes on: the top codes in candidate mode, `None` otherwise. */
  function CandidatesFor(df: seq<Note>, ranking: seq<string>, candidateMode: bool): Option<seq<Candidate>> {
    if candidateMode then Some(CandidateList(df, ranking)) else None
  }

  /** `eval_df`: the rows at the sampled positions, in sampled order. */
  function Select(df: seq<Note>, picks: seq<nat>): (s: seq<Note>)
    requires forall i :: 0 <= i < |picks| ==> picks[i] < |df|
    ensures |s| == |picks|
    ensures forall i :: 0 <= i < |picks| ==> s[i] == df[picks[i]]
  {
    seq(|picks|, i requires 0 <= i < |picks| => df[picks[i]])
  }

  /** No position is drawn twice, as when `df.sample` draws without replacement. */
  predicate Distinct(picks: seq<nat>) {
    forall i, j :: 0 <= i < j < |picks| ==> picks[i] != picks[j]
  }

  /**
   * A sample drawn without replacement holds each row of the dataset at most
   * as often as the dataset does.
   */
  lemma {:induction false} SampleRowsOnce(df: seq<Note>, picks: seq<nat>)
    requires forall i :: 0 <= i < |picks| ==> picks[i] < |df|
    requires Distinct(picks)
    ensures multiset(Select(df, picks)) <= multiset(df)
    decreases |df|
  {
    if picks != [] {
      assert picks[0] < |df|;
      var last := |df| - 1;
      var init := df[..last];
      if p :| 0 <= p < |picks| && picks[p] == last {
        var before, after := picks[..p], picks[p + 1..];
        DropPick(picks, p, |df|);
        SampleRowsOnce(init, before + after);
        assert picks == before + [last] + after;
        LastPicked(df, init, before, after);
      } else {
        SelectPrefix(df, init, picks);
        SampleRowsOnce(init, picks);
        assert multiset(df) == multiset(init) + multiset{df[last]} by {
          assert df == init + [df[last]];
        }
      }
    }
  }

  /** Adding the pick of the last row to a sample of the other rows keeps it within the dataset. */
  lemma LastPicked(df: seq<Note>, init: seq<Note>, before: seq<nat>, after: seq<nat>)
    requires |df| > 0 && init == df[..|df| - 1]
    requires forall i :: 0 <= i < |before| ==> before[i] < |init|
    requires forall i :: 0 <= i < |after| ==> after[i] < |init|
    requires multiset(Select(init, before + after)) <= multiset(init)
    ensures multiset(Select(df, before + [|df| - 1] + after)) <= multiset(df)
  {
    var x := df[|df| - 1];
    SelectSplit(df, init, before, after);
    var a, b := Select(init, before), Select(init, after);
    assert multiset(a + [x] + b) == multiset(a + b) + multiset{x};
    assert multiset(df) == multiset(init) + multiset{x} by {
      assert df == init + [x];
    }
  }

  /** Taking out the pick of the last row leaves distinct picks of the other rows. */
  lemma DropPick(picks: seq<nat>, p: nat, size: nat)
    requires p < |picks| && Distinct(picks) && picks[p] + 1 == size
    requires forall i :: 0 <= i < |picks| ==> picks[i] < size
    ensures var rest := picks[..p] + picks[p + 1..];
      Distinct(rest) && forall i :: 0 <= i < |rest| ==> rest[i] < size - 1
  {
    var rest := picks[..p] + picks[p + 1..];
    forall i | 0 <= i < |rest| ensures rest[i] == picks[if i < p then i else i + 1] {
    }
  }

  /** Picks that avoid the last row select the same rows from the dataset without it. */
  lemma SelectPrefix(df: seq<Note>, init: seq<Note>, picks: seq<nat>)
    requires |df| > 0 && init == df[..|df| - 1]
    requires forall i :: 0 <= i < |picks| ==> picks[i] < |init|
    ensures Select(df, picks) == Select(init, picks)
  {
  }

  /** Selecting the last row among other picks, and selecting the other picks alone. */
  lemma SelectSplit(df: seq<Note>, init: seq<Note>, before: seq<nat>, after: seq<nat>)
    requires |df| > 0 && init == df[..|df| - 1]
    requires forall i :: 0 <= i < |before| ==> before[i] < |init|
    requires forall i :: 0 <= i < |after| ==> after[i] < |init|
    ensures var a, b := Select(init, before), Select(init, after);
      && Select(df, before + [|df| - 1] + after) == a + [df[|df| - 1]] + b
      && Select(init, before + after) == a + b
  {
    var picks := before + [|df| - 1] + after;
    var a, b := Select(init, before), Select(init, after);
    assert Select(df, picks) == a + [df[|df| - 1]] + b by {
      forall i | 0 <= i < |picks| ensures Select(df, picks)[i] == (a + [df[|df| - 1]] + b)[i] {
        if i < |before| {
        } else if i > |before| {
          assert picks[i] == after[i - |before| - 1];
        }
      }
    }
    var rest := before + after;
    assert Select(init, rest) == a + b by {
      forall i | 0 <= i < |rest| ensures Select(init, rest)[i] == (a + b)[i] {
        if i >= |before| {
          assert rest[i] == after[i - |before|];
        }
      }
    }
  }
}
