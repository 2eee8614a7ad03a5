/**
 * The scoring `evaluate` does: one result row per sampled note, a count of
 * the rows whose predicted code equals the gold code, and the accuracy
 * `correct / len(out_df)` (0 when there are no rows), as an exact rational.
 */
module Scoring {
  import opened Wrappers
  import Dataset
  import Retry

  /** One row of `preds`: the columns written to the results file. */
  datatype ResultRow = ResultRow(
    noteId: string, goldCode: string, goldDesc: string,
    predCode: Option<string>, predDesc: Option<string>, rawResponse: string, correct: bool)

  /** The row for one note: `is_correct = (pred_code == row["icd10_code"])`, where `None` equals no string. */
  function ScoreRow(note: Dataset.Note, p: Retry.Prediction): (r: ResultRow)
    ensures r.correct <==> r.predCode.Some? && r.predCode.value == r.goldCode
    ensures r.predCode.None? ==> !r.correct
    ensures r.noteId == note.id && r.goldCode == note.code && r.goldDesc == note.desc
    ensures r.predCode == p.code && r.predDesc == p.desc && r.rawResponse == p.raw
  {
    ResultRow(note.id, note.code, note.desc, p.code, p.desc, p.raw, p.code == Some(note.code))
  }

  /**
   * The rows `evaluate` appends to `preds`, in order: each note of `sample`
   * scored against `predict(i, text)`, the prediction for the `i`-th note.
   */
  function ScoreAll(sample: seq<Dataset.Note>, predict: (nat, string) -> Retry.Prediction): (rows: seq<ResultRow>)
    ensures |rows| == |sample|
  {
    if sample == [] then []
    else
      var i := |sample| - 1;
      ScoreAll(sample[..i], predict) + [ScoreRow(sample[i], predict(i, sample[i].text))]
  }

  /** Scoring one more note appends its row. */
  lemma ScoreAllNext(sample: seq<Dataset.Note>, predict: (nat, string) -> Retry.Prediction, i: nat)
    requires i < |sample|
    ensures ScoreAll(sample[..i + 1], predict)
         == ScoreAll(sample[..i], predict) + [ScoreRow(sample[i], predict(i, sample[i].text))]
  {
    assert sample[..i + 1][..i] == sample[..i];
  }

  /** Appending a row adds one to the counter exactly when the row is correct. */
  lemma CorrectCountNext(rows: seq<ResultRow>, row: ResultRow)
    ensures CorrectCount(rows + [row]) == CorrectCount(rows) + (if row.correct then 1 else 0)
  {
    assert (rows + [row])[..|rows|] == rows;
  }

  /** One row per note, the `i`-th scoring the `i`-th note against its own prediction. */
  lemma {:induction false} ScoreAllRows(sample: seq<Dataset.Note>, predict: (nat, string) -> Retry.Prediction)
    ensures forall i :: 0 <= i < |sample| ==>
      ScoreAll(sample, predict)[i] == ScoreRow(sample[i], predict(i, sample[i].text))
  {
    if sample != [] {
      var n := |sample| - 1;
      var init := sample[..n];
      ScoreAllRows(init, predict);
      assert forall i :: 0 <= i < n ==> init[i] == sample[i];
    }
  }

  /** The `correct` counter after the rows `rows` have been appended. */
  function CorrectCount(rows: seq<ResultRow>): nat {
    if rows == [] then 0
    else CorrectCount(rows[..|rows| - 1]) + (if rows[|rows| - 1].correct then 1 else 0)
  }

  /** `correct / len(out_df) if len(out_df) else 0.0`, exactly. */
  function Accuracy(correct: nat, total: nat): (a: real)
    ensures total == 0 ==> a == 0.0
    ensures total > 0 ==> a * (total as real) == correct as real
  {
    if total > 0 then (correct as real) / (total as real) else 0.0
  }

  /** The positions of the rows flagged correct. */
  ghost function CorrectRows(rows: seq<ResultRow>): set<int> {
    set i | 0 <= i < |rows| && rows[i].correct
  }

  /** The counter equals the number of rows flagged correct. */
  lemma {:induction false} CorrectCountIsNumberCorrect(rows: seq<ResultRow>)
    ensures CorrectCount(rows) == |CorrectRows(rows)|
    ensures CorrectCount(rows) <= |rows|
  {
    if rows != [] {
      var init := rows[..|rows| - 1];
      var n := |rows| - 1;
      CorrectCountIsNumberCorrect(init);
      assert forall i :: 0 <= i < n ==> init[i] == rows[i];
      if rows[n].correct {
        assert CorrectRows(rows) == CorrectRows(init) + {n};
        assert n !in CorrectRows(init);
      } else {
        assert CorrectRows(rows) == CorrectRows(init);
      }
    }
  }

  /**
   * Accuracy lies between 0 and 1; it is 0 for no rows, and it is 1 exactly
   * when there are rows and every one of them is correct.
   */
  lemma AccuracyRange(rows: seq<ResultRow>)
    ensures var a := Accuracy(CorrectCount(rows), |rows|);
      && 0.0 <= a <= 1.0
      && (rows == [] ==> a == 0.0)
      && (a == 1.0 <==> rows != [] && forall i :: 0 <= i < |rows| ==> rows[i].correct)
  {
    CorrectCountIsNumberCorrect(rows);
    AllCorrectIffFullCount(rows);
    if rows != [] {
      RatioBounds(CorrectCount(rows), |rows|);
    }
  }

  lemma RatioBounds(c: nat, n: nat)
    requires 0 < n && c <= n
    ensures 0.0 <= (c as real) / (n as real) <= 1.0
    ensures (c as real) / (n as real) == 1.0 <==> c == n
  {
    var x, y := c as real, n as real;
    var q := x / y;
    assert q * y == x;
    assert (q - 1.0) * y == x - y;
    SignOfQuotient(q, y);
    SignOfQuotient(q - 1.0, y);
  }

  lemma SignOfQuotient(a: real, b: real)
    requires b > 0.0
    ensures a * b >= 0.0 ==> a >= 0.0
    ensures a * b <= 0.0 ==> a <= 0.0
  {
  }

  /** Every row is correct exactly when the counter reaches the number of rows. */
  lemma {:induction false} AllCorrectIffFullCount(rows: seq<ResultRow>)
    ensures CorrectCount(rows) == |rows| <==> forall i :: 0 <= i < |rows| ==> rows[i].correct
  {
    if rows != [] {
      var init := rows[..|rows| - 1];
      AllCorrectIffFullCount(init);
      CorrectCountIsNumberCorrect(init);
      assert forall i :: 0 <= i < |init| ==> init[i] == rows[i];
    }
  }
}
