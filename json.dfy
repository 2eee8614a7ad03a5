/**
 * What `extract_json` works with: the values `json.loads` produces, the
 * decoder itself as an abstract partial function, and the search that
 * `re.search(r'\{.*?\}', text, flags=re.DOTALL)` performs.
 */
module Json {
  import opened Wrappers
  import Text

  /** A value inside a decoded object: a string, or a value of another Python type, known by its type name. */
  datatype Value = Str(s: string) | Other(typeName: string)

  /** A decoded JSON object (a Python `dict` with string keys). */
  type Object = map<string, Value>

  /**
   * The outcome of `json.loads` on a string that starts with `{`: an object,
   * a `json.JSONDecodeError`, or some other exception (a `RecursionError` on
   * deeply nested input, for one) with its message.
   */
  datatype Decoded = Parsed(fields: Object) | DecodeError | OtherError(message: string)

  /** A match of the pattern: `text[start..end]`, end exclusive. */
  datatype Span = Span(start: nat, end: nat)

  /** `text[i..j + 1]` matches `\{.*?\}` (with DOTALL, `.` also matches a newline). */
  predicate IsMatch(text: string, i: int, j: int) {
    0 <= i < j < |text| && text[i] == '{' && text[j] == '}'
  }

  /**
   * `re.search(r'\{.*?\}', text, flags=re.DOTALL)`: the leftmost match, and
   * at that start the shortest one, because the quantifier is lazy.
   */
  function Search(text: string): (r: Option<Span>)
    ensures r.None? <==> forall i, j :: !IsMatch(text, i, j)
    ensures r.Some? ==> r.value.start < r.value.end && IsMatch(text, r.value.start, r.value.end - 1)
    ensures r.Some? ==> forall i, j :: IsMatch(text, i, j) ==>
      r.value.start < i || (r.value.start == i && r.value.end - 1 <= j)
  {
    match Text.IndexOf(text, '{', 0)
    case None => None
    case Some(i) =>
      match Text.IndexOf(text, '}', i + 1)
      case None => None
      case Some(j) =>
        assert IsMatch(text, i, j);
        Some(Span(i, j + 1))
  }

  /** `match.group(0)`: the matched text. */
  function Group(text: string, m: Span): string
    requires m.start <= m.end <= |text|
  {
    text[m.start..m.end]
  }

  /**
   * The matched text starts with `{`, its only `}` is its last character, and
   * no `{` occurs before it: an object nested inside the first one is cut at
   * the first `}`.
   */
  lemma SpanShape(text: string)
    requires Search(text).Some?
    ensures var m := Search(text).value;
      && text[m.start] == '{' && text[m.end - 1] == '}'
      && (forall k :: m.start <= k < m.end - 1 ==> text[k] != '}')
      && (forall k :: 0 <= k < m.start ==> text[k] != '{')
  {
    var m := Search(text).value;
    assert forall k :: m.start < k < m.end - 1 ==> !IsMatch(text, m.start, k);
    var last := m.end - 1;
    assert forall k :: 0 <= k < m.start ==> !IsMatch(text, k, last);
  }

  /**
   * Only the first span is ever tried: once the leading text holds a match,
   * whatever follows it (a later, well-formed answer included) cannot change
   * what the search returns.
   */
  lemma FirstSpanWins(a: string, b: string)
    requires Search(a).Some?
    ensures Search(a + b) == Search(a)
  {
    var m := Search(a).value;
    var s := a + b;
    assert IsMatch(s, m.start, m.end - 1);
    var m' := Search(s).value;
    assert m'.start <= m.start;
    assert m'.start < m.start ==> IsMatch(a, m'.start, m.end - 1);
    assert m'.start == m.start && m'.end <= m.end;
    assert IsMatch(a, m'.start, m'.end - 1);
  }

  /**
   * Leading reasoning text without `{` is skipped: the search finds the
   * object that follows it, provided the object contains no `}` before its end.
   */
  lemma SpanAfterReasoning(reasoning: string, inner: string, rest: string)
    requires forall k :: 0 <= k < |reasoning| ==> reasoning[k] != '{'
    requires forall k :: 0 <= k < |inner| ==> inner[k] != '}'
    ensures var text := reasoning + "{" + inner + "}" + rest;
      && Search(text) == Some(Span(|reasoning|, |reasoning| + |inner| + 2))
      && Group(text, Search(text).value) == "{" + inner + "}"
  {
    var text := reasoning + "{" + inner + "}" + rest;
    var i, j := |reasoning|, |reasoning| + |inner| + 1;
    assert text[i] == '{' && text[j] == '}';
    assert IsMatch(text, i, j);
    var m := Search(text).value;
    SpanShape(text);
    assert m.start == i;
    assert forall k :: i < k < j ==> text[k] == inner[k - i - 1];
    assert m.end - 1 == j;
    assert text[i..j + 1] == "{" + inner + "}";
  }

  /**
   * A nested object is cut at its first `}`: for `{a{b}c}` with no braces in
   * `a` and no `}` in `b`, the matched text is `{a{b}`, not the whole object.
   */
  lemma NestedObjectIsCut(a: string, b: string, c: string)
    requires forall k :: 0 <= k < |a| ==> a[k] != '{' && a[k] != '}'
    requires forall k :: 0 <= k < |b| ==> b[k] != '}'
    ensures var text := "{" + a + "{" + b + "}" + c + "}";
      Search(text).Some? && Group(text, Search(text).value) == "{" + a + "{" + b + "}"
  {
    var inner := a + "{" + b;
    assert forall k :: 0 <= k < |inner| ==> inner[k] != '}' by {
      forall k | 0 <= k < |inner| ensures inner[k] != '}' {
        if k < |a| { assert inner[k] == a[k]; }
        else if k > |a| { assert inner[k] == b[k - |a| - 1]; }
      }
    }
    SpanAfterReasoning("", inner, c + "}");
    assert "" + "{" + inner + "}" + (c + "}") == "{" + a + "{" + b + "}" + c + "}";
    assert "{" + inner + "}" == "{" + a + "{" + b + "}";
  }
}
