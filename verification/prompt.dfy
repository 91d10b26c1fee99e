/** The pure steps of the web form (app.py `main`): the numbered labels of
    the pattern list, the choice between a listed pattern and custom text,
    the blank-input guards at submission, and the composition of the final
    prompt. */
module Prompt {
  import opened Results
  import opened Text

  /** Patterns longer than this are cut in their list label. */
  const LabelWidth: nat := 60

  /** The list label of the pattern at 0-based index `i`: its 1-based number,
      `". "`, then the pattern, cut to its first 60 characters followed by
      `"..."` when it is longer. */
  function PatternLabel(i: nat, p: string): (caption: string)
    ensures NatToString(i + 1) + ". " <= caption
    ensures |p| <= LabelWidth ==> caption[|NatToString(i + 1)| + 2..] == p
    ensures |p| > LabelWidth ==>
              && caption[|NatToString(i + 1)| + 2..] == p[..LabelWidth] + "..."
              && |caption| == |NatToString(i + 1)| + 2 + LabelWidth + 3
  {
    var number := NatToString(i + 1) + ". ";
    if |p| > LabelWidth then number + p[..LabelWidth] + "..." else number + p
  }

  /** The labels of all loaded patterns, in order. */
  function PatternLabels(patterns: seq<string>): (labels: seq<string>)
    ensures |labels| == |patterns|
    ensures forall i :: 0 <= i < |labels| ==> labels[i] == PatternLabel(i, patterns[i])
  {
    seq(|patterns|, i requires 0 <= i < |patterns| => PatternLabel(i, patterns[i]))
  }

  /** The 1-based number at the head of a label: the digits before `'.'`. */
  function LabelNumber(caption: string): Option<nat>
  {
    var k := DigitRun(caption);
    if 0 < k < |caption| && caption[k] == '.' then Some(DigitsValue(caption[..k])) else None
  }

  /** Length of the run of digits at the start of `s`. */
  function DigitRun(s: string): (k: nat)
    ensures k <= |s|
    ensures AllDigits(s[..k])
    ensures k < |s| ==> !IsDigit(s[k])
  {
    if s == [] || !IsDigit(s[0]) then 0
    else
      var k := 1 + DigitRun(s[1..]);
      assert s[..k] == [s[0]] + s[1..][..k - 1];
      k
  }

  lemma {:induction false} DigitRunOfDigits(d: string, rest: string)
    requires AllDigits(d)
    requires rest == [] || !IsDigit(rest[0])
    ensures DigitRun(d + rest) == |d|
  {
    if d != [] {
      assert (d + rest)[1..] == d[1..] + rest;
      DigitRunOfDigits(d[1..], rest);
    }
  }

  /** Every label reads back as the number of its pattern. */
  lemma LabelNumberRoundTrip(i: nat, p: string)
    ensures LabelNumber(PatternLabel(i, p)) == Some(i + 1)
  {
    var digits := NatToString(i + 1);
    var caption := PatternLabel(i, p);
    var rest := caption[|digits|..];
    assert caption == digits + rest;
    assert rest[0] == '.';
    DigitRunOfDigits(digits, rest);
    assert caption[..|digits|] == digits;
    NatToStringValue(i + 1);
  }

  /** No two entries of the pattern list carry the same label, whatever the
      patterns say. */
  lemma LabelsDistinct(patterns: seq<string>, i: nat, j: nat)
    requires i < |patterns| && j < |patterns| && i != j
    ensures PatternLabels(patterns)[i] != PatternLabels(patterns)[j]
  {
    LabelNumberRoundTrip(i, patterns[i]);
    LabelNumberRoundTrip(j, patterns[j]);
  }

  /** How the pattern text is chosen in the form. */
  datatype PatternInput =
    | FromList(index: nat)   // the index the select box returns
    | Custom(text: string)   // free text typed by the user

  /** The pattern text and the pattern number recorded for saving. */
  datatype Selection = Selection(pattern: string, number: Option<int>)

  /** The select box only offers indices of the loaded list. */
  predicate ValidInput(patterns: seq<string>, input: PatternInput) {
    input.FromList? && |patterns| > 0 ==> input.index < |patterns|
  }

  /** The pattern part of the form. A listed pattern is recorded with its
      1-based number; custom text, or an empty list (shown as a warning),
      has no number. */
  function SelectPattern(patterns: seq<string>, input: PatternInput): (s: Selection)
    requires ValidInput(patterns, input)
    ensures s.number.Some? <==> input.FromList? && |patterns| > 0
    ensures s.number.Some? ==> 1 <= s.number.value <= |patterns| && patterns[s.number.value - 1] == s.pattern
    ensures input.Custom? ==> s.pattern == input.text
    ensures input.FromList? && |patterns| == 0 ==> s.pattern == []
    ensures input.FromList? && |patterns| > 0 ==>
              s.pattern == patterns[input.index] && s.number == Some(input.index + 1)
  {
    match input
    case FromList(index) =>
      if |patterns| > 0 then Selection(patterns[index], Some(index + 1)) else Selection([], None)
    case Custom(text) => Selection(text, None)
  }

  /** Why a submission is refused before any request. */
  datatype SubmitError = BlankBase | BlankPattern

  const BlankBaseMessage := "共通プロンプトを入力してください"
  const BlankPatternMessage := "パターンを選択するか、カスタムプロンプトを入力してください"

  function Message(e: SubmitError): string {
    match e
    case BlankBase => BlankBaseMessage
    case BlankPattern => BlankPatternMessage
  }

  /** The submission guards and the composition of the final prompt: both
      parts must be non-blank (the base is checked first), and then the
      prompt is the base, a newline and the pattern, each kept verbatim. */
  function ComposePrompt(base: string, pattern: string): (r: Result<string, SubmitError>)
    ensures r.Failure? <==> AllSpace(base) || AllSpace(pattern)
    ensures r.Failure? ==> (r.error == BlankBase <==> AllSpace(base))
    ensures r.Success? ==>
              && |r.value| == |base| + 1 + |pattern|
              && base <= r.value
              && r.value[|base|] == '\n'
              && r.value[|base| + 1..] == pattern
  {
    if Strip(base) == [] then Failure(BlankBase)
    else if Strip(pattern) == [] then Failure(BlankPattern)
    else Success(base + "\n" + pattern)
  }
}
