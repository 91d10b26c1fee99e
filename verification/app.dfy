/** The button handler of the web form (app.py `main`, from the key check to
    the save), with widgets, spinner, image display and download button left
    out: given the form's current values, what is refused, what is requested,
    and what is saved. */
module App {
  import opened Results
  import opened Clock
  import opened Text
  import Prompt
  import Generation
  import Artifacts

  /** The form's own message when the environment holds no key. */
  const KeyMissingBanner := "⚠️ OPENAI_API_KEY環境変数が設定されていません"

  /** How a press of the generate button ends. */
  datatype Submission =
    | Stopped(message: string)                                            // `st.stop()` before any request
    | Failed(message: string, requests: seq<Generation.ImageRequest>)     // error shown, nothing saved
    | Saved(artifact: Artifacts.Artifact, requests: seq<Generation.ImageRequest>)

  /** Pressing the button with base text `base`, pattern choice `selection`,
      and the settings of the sidebar. The page stops first when no key is
      set, then when the base or the pattern is blank; otherwise the composed
      prompt is sent once and, on success, saved with the pattern number. */
  function Submit(base: string, selection: Prompt.Selection, size: string, quality: string,
                  apiKey: Option<string>, service: Generation.Service, nameTime: DateTime, infoTime: DateTime)
    : (s: Submission)
    requires Valid(nameTime) && Valid(infoTime)
    ensures s.Stopped? <==> !Generation.HasKey(apiKey) || AllSpace(base) || AllSpace(selection.pattern)
    ensures !s.Stopped? ==>
              s.requests == [Generation.RequestFor(base + "\n" + selection.pattern, size, quality)]
    ensures s.Saved? ==>
              && Artifacts.EndsWith(s.artifact.infoText, Artifacts.PromptSection(base + "\n" + selection.pattern))
              && Artifacts.ParseImageName(s.artifact.imageName) == Some((nameTime, Artifacts.Recorded(selection.number)))
    ensures s.Failed? ==> s.message != []
    ensures !s.Stopped? ==>
              var reply := service(Generation.RequestFor(base + "\n" + selection.pattern, size, quality));
              && (s.Saved? <==> reply.Delivered?)
              && (s.Saved? ==> s.artifact.image == reply.image)
              && (s.Failed? ==> s.message == Generation.FailurePrefix + reply.message)
    ensures s.Saved? ==>
              s.artifact == Artifacts.SaveImage(
                service(Generation.RequestFor(base + "\n" + selection.pattern, size, quality)).image,
                base + "\n" + selection.pattern, size, quality, selection.number, nameTime, infoTime)
  {
    if !Generation.HasKey(apiKey) then Stopped(KeyMissingBanner)
    else
      match Prompt.ComposePrompt(base, selection.pattern)
      case Failure(e) => Stopped(Prompt.Message(e))
      case Success(prompt) =>
        var g := Generation.GenerateImage(prompt, size, quality, apiKey, service);
        if g.error.Some? then Failed(g.error.value, g.requests)
        else Saved(Artifacts.SaveImage(g.image.value, prompt, size, quality, selection.number, nameTime, infoTime),
                   g.requests)
  }

  /** A listed pattern is saved under its 1-based number; custom text is
      saved without a number. */
  lemma SavedPatternNumber(patterns: seq<string>, input: Prompt.PatternInput, base: string, size: string,
                           quality: string, apiKey: Option<string>, service: Generation.Service,
                           nameTime: DateTime, infoTime: DateTime)
    requires Prompt.ValidInput(patterns, input)
    requires Valid(nameTime) && Valid(infoTime)
    ensures var s := Submit(base, Prompt.SelectPattern(patterns, input), size, quality, apiKey, service, nameTime, infoTime);
            s.Saved? ==>
              && (input.FromList? ==> |patterns| > 0 && Artifacts.ParseImageName(s.artifact.imageName)
                                          == Some((nameTime, Some(input.index + 1))))
              && (input.Custom? ==> Artifacts.ParseImageName(s.artifact.imageName) == Some((nameTime, None)))
  {
    var selection := Prompt.SelectPattern(patterns, input);
    if input.FromList? && |patterns| == 0 {
      assert AllSpace(selection.pattern);
    }
  }
}
