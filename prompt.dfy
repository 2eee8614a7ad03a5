/**
 * The user prompt both scripts send: the note between a fixed opening and a
 * fixed closing, with an optional menu of candidate codes in between. The two
 * scripts differ only in the menu's title line and in the separator between a
 * code and its description.
 */
module Prompt {
  import opened Wrappers
  import Text
  import Dataset

  /** `"Clinical note:\n\n" + note_text + "\n\n"`. */
  function Opening(note: string): string {
    "Clinical note:\n\n" + note + "\n\n"
  }

  const Closing: string := "\nReturn JSON only."

  /** The menu line of one candidate, without its newline: `- {c}{sep}{d}`. */
  function MenuLine(sep: string, c: Dataset.Candidate): string {
    "- " + c.code + sep + c.desc
  }

  /** The menu lines of `cands`, each ending in a newline, in order. */
  function Menu(sep: string, cands: seq<Dataset.Candidate>): string {
    if cands == [] then ""
    else Menu(sep, cands[..|cands| - 1]) + MenuLine(sep, cands[|cands| - 1]) + "\n"
  }

  /** `if candidate_codes:`; `None` and the empty list are both false. */
  predicate HasMenu(candidates: Option<seq<Dataset.Candidate>>) {
    candidates.Some? && candidates.value != []
  }

  /** The prompt `build_user_prompt` returns, given the script's title line and separator. */
  function Compose(title: string, sep: string, note: string, candidates: Option<seq<Dataset.Candidate>>): (p: string)
    ensures |Opening(note)| + |Closing| <= |p|
    ensures p[..|Opening(note)|] == Opening(note)
    ensures p[|p| - |Closing|..] == Closing
    ensures !HasMenu(candidates) ==> |p| == |Opening(note)| + |Closing|
  {
    Opening(note)
    + (if HasMenu(candidates) then title + "\n" + Menu(sep, candidates.value) else "")
    + Closing
  }

  /** The prompt as `build_user_prompt` appends it: the opening, then each piece in turn, then the closing. */
  lemma ComposeInOrder(title: string, sep: string, note: string, candidates: Option<seq<Dataset.Candidate>>)
    ensures !HasMenu(candidates) ==> Compose(title, sep, note, candidates) == Opening(note) + Closing
    ensures HasMenu(candidates) ==>
      Compose(title, sep, note, candidates) == Opening(note) + title + "\n" + Menu(sep, candidates.value) + Closing
  {
    if HasMenu(candidates) {
      var m := Menu(sep, candidates.value);
      assert Opening(note) + (title + "\n" + m) == Opening(note) + title + "\n" + m;
    } else {
      assert Opening(note) + "" == Opening(note);
    }
  }

  /** Appending the next candidate's line to a menu under construction. */
  lemma MenuGrows(head: string, sep: string, cands: seq<Dataset.Candidate>, i: nat)
    requires i < |cands|
    ensures head + Menu(sep, cands[..i]) + ("- " + cands[i].code + sep + cands[i].desc + "\n")
         == head + Menu(sep, cands[..i + 1])
  {
    assert cands[..i + 1][..i] == cands[..i];
    var m, line := Menu(sep, cands[..i]), MenuLine(sep, cands[i]);
    assert Menu(sep, cands[..i + 1]) == m + line + "\n";
    assert head + m + (line + "\n") == head + (m + line + "\n");
  }

  predicate NoNewline(s: string) {
    '\n' !in s
  }

  lemma NoNewlineConcat(a: string, b: string)
    requires NoNewline(a) && NoNewline(b)
    ensures NoNewline(a + b)
  {
    forall i | 0 <= i < |a + b| ensures (a + b)[i] != '\n' {
      if i < |a| { assert (a + b)[i] == a[i]; } else { assert (a + b)[i] == b[i - |a|]; }
    }
  }

  /** The text split at each newline; a final newline ends the last line rather than starting an empty one. */
  function Lines(s: string): seq<string>
    decreases |s|
  {
    match Text.IndexOf(s, '\n', 0)
    case None => if s == [] then [] else [s]
    case Some(i) => [s[..i]] + Lines(s[i + 1..])
  }

  lemma LinesOfLine(a: string, rest: string)
    requires NoNewline(a)
    ensures Lines(a + "\n" + rest) == [a] + Lines(rest)
  {
    var s := a + "\n" + rest;
    assert s[|a|] == '\n';
    assert forall i :: 0 <= i < |a| ==> s[i] == a[i];
    assert Text.IndexOf(s, '\n', 0) == Some(|a|);
    assert s[..|a|] == a && s[|a| + 1..] == rest;
  }

  /** Appending one line to newline-terminated text appends one entry to its lines. */
  lemma {:induction false} LinesAppend(x: string, y: string)
    requires x == [] || x[|x| - 1] == '\n'
    requires NoNewline(y)
    ensures Lines(x + y + "\n") == Lines(x) + [y]
    decreases |x|
  {
    if x == [] {
      assert x + y + "\n" == y + "\n" + "";
      LinesOfLine(y, "");
    } else {
      var a, x' := FirstLine(x);
      assert x + y + "\n" == a + "\n" + (x' + y + "\n");
      LinesOfLine(a, x' + y + "\n");
      LinesAppend(x', y);
      LinesOfLine(a, x');
      assert [a] + (Lines(x') + [y]) == [a] + Lines(x') + [y];
    }
  }

  /** Newline-terminated text splits into a first line and newline-terminated rest. */
  lemma FirstLine(x: string) returns (a: string, rest: string)
    requires x != [] && x[|x| - 1] == '\n'
    ensures x == a + "\n" + rest && NoNewline(a) && |rest| < |x|
    ensures rest == [] || rest[|rest| - 1] == '\n'
  {
    var i := Text.IndexOf(x, '\n', 0).value;
    a, rest := x[..i], x[i + 1..];
    assert x == a + "\n" + rest;
  }

  lemma MenuLineIsOneLine(sep: string, c: Dataset.Candidate)
    requires NoNewline(sep) && NoNewline(c.code) && NoNewline(c.desc)
    ensures NoNewline(MenuLine(sep, c))
  {
    NoNewlineConcat("- ", c.code);
    NoNewlineConcat("- " + c.code, sep);
    NoNewlineConcat("- " + c.code + sep, c.desc);
  }

  lemma MenuEndsLine(sep: string, cands: seq<Dataset.Candidate>)
    ensures var m := Menu(sep, cands); m == [] || m[|m| - 1] == '\n'
  {
  }

  /** The menu holds one line per candidate, in input order, when no code or description contains a newline. */
  lemma {:induction false} MenuLines(sep: string, cands: seq<Dataset.Candidate>)
    requires NoNewline(sep)
    requires forall i :: 0 <= i < |cands| ==> NoNewline(cands[i].code) && NoNewline(cands[i].desc)
    ensures |Lines(Menu(sep, cands))| == |cands|
    ensures forall i :: 0 <= i < |cands| ==> Lines(Menu(sep, cands))[i] == MenuLine(sep, cands[i])
  {
    if cands != [] {
      var init, last := cands[..|cands| - 1], cands[|cands| - 1];
      assert forall i :: 0 <= i < |init| ==> init[i] == cands[i];
      MenuLines(sep, init);
      var line := MenuLine(sep, last);
      MenuLineIsOneLine(sep, last);
      var m := Menu(sep, init);
      MenuEndsLine(sep, init);
      LinesAppend(m, line);
      assert Menu(sep, cands) == m + line + "\n";
      var lines := Lines(Menu(sep, cands));
      assert lines == Lines(m) + [line];
      forall i | 0 <= i < |cands| ensures lines[i] == MenuLine(sep, cands[i]) {
        if i < |init| {
          assert lines[i] == Lines(m)[i];
        }
      }
    }
  }

  /** The text between a known prefix and a known suffix. */
  lemma Between(o: string, m: string, c: string)
    ensures var p := o + m + c; p[|o|..|p| - |c|] == m
  {
  }

  /**
   * The lines between the opening and the closing of a user prompt: the
   * title line followed by one menu line per candidate, in order.
   */
  lemma ComposeShape(title: string, sep: string, note: string, candidates: Option<seq<Dataset.Candidate>>)
    requires NoNewline(title) && NoNewline(sep)
    requires candidates.Some? ==> forall i :: 0 <= i < |candidates.value| ==>
      NoNewline(candidates.value[i].code) && NoNewline(candidates.value[i].desc)
    ensures !HasMenu(candidates) ==> Compose(title, sep, note, candidates) == Opening(note) + Closing
    ensures HasMenu(candidates) ==>
      var p := Compose(title, sep, note, candidates);
      var lines := Lines(p[|Opening(note)|..|p| - |Closing|]);
      && |lines| == 1 + |candidates.value|
      && lines[0] == title
      && forall i :: 0 <= i < |candidates.value| ==> lines[i + 1] == MenuLine(sep, candidates.value[i])
  {
    ComposeInOrder(title, sep, note, candidates);
    if HasMenu(candidates) {
      var menu := Menu(sep, candidates.value);
      var middle := title + "\n" + menu;
      assert Compose(title, sep, note, candidates) == Opening(note) + middle + Closing;
      Between(Opening(note), middle, Closing);
      MenuLines(sep, candidates.value);
      LinesOfLine(title, menu);
    }
  }
}
