/**
 * The retry loop `predict_code` runs in both scripts, over an abstract
 * result per attempt. Each attempt sends one request and ends in one of three
 * ways: the reply held a usable record, the reply did not (a miss, which
 * moves on without sleeping), or an exception was raised inside the `try`
 * (a failure, which sleeps unless it was the last attempt, where it ends
 * the call with an error text).
 */
module Retry {
  import opened Wrappers
  import Text
  import Json

  /** How one attempt ends. */
  datatype Step = Accepted(code: string, desc: string, raw: string) | Miss | Failed(message: string)

  /** What `predict_code` returns: `(code, description, raw)`, with Python's `None` as `None`. */
  datatype Prediction = Prediction(code: Option<string>, desc: Option<string>, raw: string)

  /**
   * The observable side effects of one call, in order: a request to the
   * endpoint (numbered by attempt, with the system and user prompts it
   * carries) and a `time.sleep` after a failed attempt.
   */
  datatype Event<P> = Request(attempt: nat, system: P, user: string) | Sleep(after: nat)

  const Exhausted: string := "ERROR: Exhausted retries"

  /** The raw text returned when the last attempt raised. */
  function ErrorText(message: string): string {
    "ERROR: " + message
  }

  /** The message of the `AttributeError` Python raises for `.strip()` on a value that is not a string. */
  function NoStripMessage(typeName: string): string {
    "'" + typeName + "' object has no attribute 'strip'"
  }

  /**
   * The check on a decoded record and the `.strip()` of its two fields: a
   * record with both `code` and `description` gives their stripped values;
   * one missing either key is a miss; a non-string value in either field
   * (the code is stripped first) raises inside the `try`.
   */
  function AcceptRecord(fields: Json.Object, raw: string): (r: Step)
    ensures r.Miss? <==> !("code" in fields && "description" in fields)
    ensures r.Accepted? <==>
      "code" in fields && "description" in fields && fields["code"].Str? && fields["description"].Str?
    ensures r.Accepted? ==>
      && r.code == Text.Strip(fields["code"].s) && Text.IsStripped(r.code)
      && r.desc == Text.Strip(fields["description"].s) && Text.IsStripped(r.desc)
      && r.raw == raw
  {
    if "code" in fields && "description" in fields then
      match fields["code"]
      case Other(t) => Failed(NoStripMessage(t))
      case Str(c) =>
        match fields["description"]
        case Other(t) => Failed(NoStripMessage(t))
        case Str(d) => Accepted(Text.Strip(c), Text.Strip(d), raw)
    else Miss
  }

  /** Extra keys, such as `confidence`, do not change how a record is judged. */
  lemma AcceptIgnoresExtraKeys(fields: Json.Object, key: string, v: Json.Value, raw: string)
    requires key != "code" && key != "description"
    ensures AcceptRecord(fields[key := v], raw) == AcceptRecord(fields, raw)
  {
    var f := fields[key := v];
    assert ("code" in f) == ("code" in fields);
    assert ("description" in f) == ("description" in fields);
  }

  /**
   * The loop `for attempt in range(max_retries)` from attempt `k` on: the
   * prediction it returns and the events it produces. `steps(k)` is how
   * attempt `k` ends.
   */
  function RunFrom<P>(steps: nat -> Step, maxRetries: int, k: nat, system: P, user: string)
    : (r: (Prediction, seq<Event<P>>))
    ensures r.0.code.Some? <==> r.0.desc.Some?
    ensures k >= maxRetries ==> r.1 == [] && r.0.raw == Exhausted
    ensures k < maxRetries ==> |r.1| > 0 && r.1[0] == Request(k, system, user)
    decreases maxRetries - k
  {
    if k >= maxRetries then (Prediction(None, None, Exhausted), [])
    else
      var request := Request(k, system, user);
      match steps(k)
      case Accepted(c, d, raw) => (Prediction(Some(c), Some(d), raw), [request])
      case Miss =>
        var (p, t) := RunFrom(steps, maxRetries, k + 1, system, user);
        (p, [request] + t)
      case Failed(m) =>
        if k == maxRetries - 1 then (Prediction(None, None, ErrorText(m)), [request])
        else
          var (p, t) := RunFrom(steps, maxRetries, k + 1, system, user);
          (p, [request, Sleep(k)] + t)
  }

  /**
   * The loop of `predict_code` at attempt `k`, having produced the events
   * `done`, with `run` the result of the whole loop: what it returns and
   * produces once attempt `k` has ended, and what is left after it.
   */
  lemma Resume<P>(steps: nat -> Step, maxRetries: int, k: nat, system: P, user: string,
                  run: (Prediction, seq<Event<P>>), done: seq<Event<P>>)
    requires run.0 == RunFrom(steps, maxRetries, k, system, user).0
    requires run.1 == done + RunFrom(steps, maxRetries, k, system, user).1
    ensures k >= maxRetries ==> run == (Prediction(None, None, Exhausted), done)
    ensures k < maxRetries ==>
      var request := Request(k, system, user);
      var next := RunFrom(steps, maxRetries, k + 1, system, user);
      && (steps(k).Accepted? ==>
            run == (Prediction(Some(steps(k).code), Some(steps(k).desc), steps(k).raw), done + [request]))
      && (steps(k).Failed? && k == maxRetries - 1 ==>
            run == (Prediction(None, None, ErrorText(steps(k).message)), done + [request]))
      && (steps(k).Miss? ==> run.0 == next.0 && run.1 == done + [request] + next.1)
      && (steps(k).Failed? && k < maxRetries - 1 ==>
            run.0 == next.0 && run.1 == done + [request] + [Sleep(k)] + next.1)
  {
    if k >= maxRetries {
      assert done + [] == done;
    } else {
      var request := Request(k, system, user);
      var next := RunFrom(steps, maxRetries, k + 1, system, user).1;
      assert done + ([request] + next) == done + [request] + next;
      assert done + ([request, Sleep(k)] + next) == done + [request] + [Sleep(k)] + next;
    }
  }

  /** The attempt numbers of the requests in a trace, in order. */
  function Attempts<P>(t: seq<Event<P>>): seq<nat> {
    if t == [] then []
    else (if t[0].Request? then [t[0].attempt] else []) + Attempts(t[1..])
  }

  lemma {:induction false} AttemptsConcat<P>(a: seq<Event<P>>, b: seq<Event<P>>)
    ensures Attempts(a + b) == Attempts(a) + Attempts(b)
  {
    if a != [] {
      assert (a + b)[1..] == a[1..] + b;
      AttemptsConcat(a[1..], b);
    } else {
      assert a + b == b;
    }
  }

  /**
   * A code (and a description) is returned exactly when some attempt within
   * the bound got a usable record.
   */
  lemma {:induction false} RunAccepts<P>(steps: nat -> Step, maxRetries: int, k: nat, system: P, user: string)
    ensures var p := RunFrom(steps, maxRetries, k, system, user).0;
      && (p.code.Some? <==> exists j :: k <= j < maxRetries && steps(j).Accepted?)
      && (p.code.Some? <==> p.desc.Some?)
    decreases maxRetries - k
  {
    if k < maxRetries {
      match steps(k)
      case Accepted(_, _, _) =>
      case Miss =>
        RunAccepts(steps, maxRetries, k + 1, system, user);
        assert forall j :: k <= j < maxRetries && steps(j).Accepted? ==> k + 1 <= j;
      case Failed(_) =>
        if k < maxRetries - 1 {
          RunAccepts(steps, maxRetries, k + 1, system, user);
          assert forall j :: k <= j < maxRetries && steps(j).Accepted? ==> k + 1 <= j;
        }
    }
  }

  /** The first attempt that gets a usable record decides the result. */
  lemma {:induction false} RunReturnsFirstAccepted<P>(
    steps: nat -> Step, maxRetries: int, k: nat, system: P, user: string, j: nat)
    requires k <= j < maxRetries && steps(j).Accepted?
    requires forall i :: k <= i < j ==> !steps(i).Accepted?
    ensures RunFrom(steps, maxRetries, k, system, user).0
         == Prediction(Some(steps(j).code), Some(steps(j).desc), steps(j).raw)
    decreases j - k
  {
    if k < j {
      RunReturnsFirstAccepted(steps, maxRetries, k + 1, system, user, j);
    }
  }

  /**
   * Without a usable record, the result is the error of the last attempt if
   * that attempt raised, and otherwise `ERROR: Exhausted retries` (also when
   * `max_retries` leaves no attempt at all).
   */
  lemma {:induction false} RunReportsFailure<P>(
    steps: nat -> Step, maxRetries: int, k: nat, system: P, user: string)
    requires forall i :: k <= i < maxRetries ==> !steps(i).Accepted?
    ensures RunFrom(steps, maxRetries, k, system, user).0 ==
      if k < maxRetries && steps(maxRetries - 1).Failed?
      then Prediction(None, None, ErrorText(steps(maxRetries - 1).message))
      else Prediction(None, None, Exhausted)
    decreases maxRetries - k
  {
    if k < maxRetries - 1 {
      RunReportsFailure(steps, maxRetries, k + 1, system, user);
    }
  }

  /**
   * At most `max_retries` requests are made, numbered from `k` upwards with no
   * gap, and at least one when an attempt is allowed.
   */
  lemma {:induction false} RunAttempts<P>(steps: nat -> Step, maxRetries: int, k: nat, system: P, user: string)
    ensures var a := Attempts(RunFrom(steps, maxRetries, k, system, user).1);
      && |a| <= (if maxRetries > k then maxRetries - k else 0)
      && (k < maxRetries ==> |a| >= 1)
      && (forall i :: 0 <= i < |a| ==> a[i] == k + i)
    decreases maxRetries - k
  {
    if k < maxRetries {
      var t := RunFrom(steps, maxRetries, k, system, user).1;
      var request := Request(k, system, user);
      assert Attempts([request]) == [k] by {
        assert [request][1..] == [];
      }
      if steps(k).Accepted? || (steps(k).Failed? && k == maxRetries - 1) {
        assert t == [request];
      } else {
        var rest := RunFrom(steps, maxRetries, k + 1, system, user).1;
        RunAttempts(steps, maxRetries, k + 1, system, user);
        var head := if steps(k).Miss? then [request] else [request, Sleep(k)];
        assert t == head + rest;
        var sleep: Event<P> := Sleep(k);
        assert [sleep][1..] == [] && [request, sleep][1..] == [sleep];
        assert Attempts([request, Sleep(k)]) == [k];
        AttemptsConcat(head, rest);
      }
    }
  }

  /** Every request in `t` carries `system` and `user`. */
  ghost predicate SamePrompts<P>(t: seq<Event<P>>, system: P, user: string) {
    forall i :: 0 <= i < |t| && t[i].Request? ==> t[i].system == system && t[i].user == user
  }

  /** Every request carries the same system and user prompts. */
  lemma {:induction false} RunSamePrompts<P>(steps: nat -> Step, maxRetries: int, k: nat, system: P, user: string)
    ensures SamePrompts(RunFrom(steps, maxRetries, k, system, user).1, system, user)
    decreases maxRetries - k
  {
    if k < maxRetries && !steps(k).Accepted? && !(steps(k).Failed? && k == maxRetries - 1) {
      var t := RunFrom(steps, maxRetries, k, system, user).1;
      var rest := RunFrom(steps, maxRetries, k + 1, system, user).1;
      RunSamePrompts(steps, maxRetries, k + 1, system, user);
      var request := Request(k, system, user);
      var head := if steps(k).Miss? then [request] else [request, Sleep(k)];
      assert t == head + rest;
      forall i | 0 <= i < |t| && t[i].Request? ensures t[i].system == system && t[i].user == user {
        if i < |head| {
          assert t[i] == head[i];
        } else {
          assert t[i] == rest[i - |head|];
        }
      }
    }
  }

  /** Every sleep comes right after the request of an attempt that raised and was not the last one. */
  ghost predicate SleepsFollowFailures<P>(steps: nat -> Step, maxRetries: int, t: seq<Event<P>>) {
    forall i :: 0 <= i < |t| && t[i].Sleep? ==>
      && 0 < i && t[i - 1].Request? && t[i - 1].attempt == t[i].after
      && steps(t[i].after).Failed? && t[i].after + 1 < maxRetries
  }

  /** Every request of an attempt that raised and was not the last one is followed by a sleep. */
  ghost predicate FailuresAreFollowedBySleeps<P>(steps: nat -> Step, maxRetries: int, t: seq<Event<P>>) {
    forall i :: 0 <= i < |t| && t[i].Request? && steps(t[i].attempt).Failed? && t[i].attempt + 1 < maxRetries ==>
      i + 1 < |t| && t[i + 1] == Sleep(t[i].attempt)
  }

  /** Each sleep comes right after the request of an attempt that raised and was not the last one. */
  lemma {:induction false} RunSleepsFollowFailures<P>(
    steps: nat -> Step, maxRetries: int, k: nat, system: P, user: string)
    ensures SleepsFollowFailures(steps, maxRetries, RunFrom(steps, maxRetries, k, system, user).1)
    decreases maxRetries - k
  {
    if k < maxRetries && !steps(k).Accepted? && !(steps(k).Failed? && k == maxRetries - 1) {
      var t := RunFrom(steps, maxRetries, k, system, user).1;
      var rest := RunFrom(steps, maxRetries, k + 1, system, user).1;
      RunSleepsFollowFailures(steps, maxRetries, k + 1, system, user);
      var n := if steps(k).Miss? then 1 else 2;
      assert t[n..] == rest;
      assert t[0].Request? && t[0].attempt == k;
      assert n == 2 ==> t[1] == Sleep(k);
      forall i | 0 <= i < |t| && t[i].Sleep?
        ensures 0 < i && t[i - 1].Request? && t[i - 1].attempt == t[i].after
      {
        if i > n {
          assert t[i] == rest[i - n];
          assert t[i - 1] == rest[i - n - 1];
        }
      }
    }
  }

  /** Every request of an attempt that raised and was not the last one is followed by a sleep. */
  lemma {:induction false} RunFailuresSleep<P>(
    steps: nat -> Step, maxRetries: int, k: nat, system: P, user: string)
    ensures FailuresAreFollowedBySleeps(steps, maxRetries, RunFrom(steps, maxRetries, k, system, user).1)
    decreases maxRetries - k
  {
    if k < maxRetries && !steps(k).Accepted? && !(steps(k).Failed? && k == maxRetries - 1) {
      var t := RunFrom(steps, maxRetries, k, system, user).1;
      var rest := RunFrom(steps, maxRetries, k + 1, system, user).1;
      RunFailuresSleep(steps, maxRetries, k + 1, system, user);
      var n := if steps(k).Miss? then 1 else 2;
      assert t[n..] == rest;
      assert t[0].Request? && t[0].attempt == k;
      assert n == 2 ==> t[1] == Sleep(k);
      forall i | 0 <= i < |t| && t[i].Request? && steps(t[i].attempt).Failed? && t[i].attempt + 1 < maxRetries
        ensures i + 1 < |t| && t[i + 1] == Sleep(t[i].attempt)
      {
        if i >= n {
          assert t[i] == rest[i - n];
          if i + 1 < |t| { assert t[i + 1] == rest[i + 1 - n]; }
        }
      }
    }
  }
}
