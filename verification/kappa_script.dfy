/** The command-line script (generate_kappa.py `generate_kappa_image`): one
    image from a given or default prompt, saved without a pattern number.
    `print` output is not modelled apart from the prompt echo, and
    `sys.exit(1)` becomes the `Exited` outcome. */
module KappaScript {
  import opened Results
  import opened Clock
  import opened Text
  import Generation
  import Artifacts

  /** The prompt used when the caller passes none, including the newline and
      indentation of the triple-quoted literal it is written as. */
  const DefaultPrompt: string :=
    "\n"
    + "        A cute and friendly kappa (Japanese water yokai) character design.\n"
    + "        The kappa has a distinctive water-filled dish on top of its head,\n"
    + "        a turtle-like shell on its back, webbed hands and feet, and a green scaly body.\n"
    + "        The character has big expressive eyes and a friendly smile.\n"
    + "        The style should be charming and suitable for a mascot or children's character.\n"
    + "        The background is simple and clean.\n"
    + "        "

  /** `prompt is None` selects the default; any given text, even empty, is
      used unchanged. */
  function ChosenPrompt(prompt: Option<string>): string
  {
    if prompt.None? then DefaultPrompt else prompt.value
  }

  /** The label of the console line that announces the prompt. */
  const EchoLabel := "プロンプト: "

  /** The console line that announces the prompt: the prompt with the
      whitespace at both ends cut off, and nothing else removed. */
  function PromptEcho(prompt: string): (line: string)
    ensures EchoLabel <= line
    ensures var shown := line[|EchoLabel|..];
            && IsStripped(shown)
            && (shown == [] <==> AllSpace(prompt))
            && exists i ::
                 && 0 <= i <= |prompt| - |shown|
                 && shown == prompt[i..i + |shown|]
                 && AllSpace(prompt[..i])
                 && AllSpace(prompt[i + |shown|..])
  {
    StripIsSlice(prompt);
    var line := EchoLabel + Strip(prompt);
    assert line[|EchoLabel|..] == Strip(prompt);
    line
  }

  /** The script's own file names: the stamp and never a pattern suffix. */
  function ScriptImageName(t: DateTime): string
    requires Valid(t)
  {
    "kappa_" + CompactStamp(t) + ".png"
  }

  function ScriptInfoName(t: DateTime): string
    requires Valid(t)
  {
    "kappa_" + CompactStamp(t) + "_info.txt"
  }

  /** The script's sidecar lines: date, model, image file, size, quality, a
      blank line, the heading and the raw prompt. */
  function ScriptInfoLines(created: DateTime, imageName: string, size: string, quality: string, prompt: string)
    : seq<string>
    requires Valid(created)
  {
    [Artifacts.CreatedLabel + HumanStamp(created),
     Artifacts.ModelLabel + Generation.ModelName,
     Artifacts.FileLabel + imageName,
     Artifacts.SizeLabel + size,
     Artifacts.QualityLabel + quality,
     "",
     Artifacts.PromptHeading,
     prompt]
  }

  /** The status `sys.exit` is called with. */
  const FailureStatus := 1

  datatype ScriptRun =
    | Exited(status: int, message: string, requests: seq<Generation.ImageRequest>)
    | Completed(imagePath: string, prompt: string, artifact: Artifacts.Artifact, requests: seq<Generation.ImageRequest>)

  /** `generate_kappa_image`. Without a key it exits before any request;
      otherwise it sends the chosen prompt once, exits on failure, and on
      success saves the image and sidecar and returns the image path with the
      exact prompt sent. */
  function GenerateKappaImage(prompt: Option<string>, size: string, quality: string, apiKey: Option<string>,
                              service: Generation.Service, nameTime: DateTime, infoTime: DateTime)
    : (r: ScriptRun)
    requires Valid(nameTime) && Valid(infoTime)
    ensures !Generation.HasKey(apiKey) ==> r == Exited(FailureStatus, Generation.MissingKeyMessage, [])
    ensures Generation.HasKey(apiKey) ==> r.requests == [Generation.RequestFor(ChosenPrompt(prompt), size, quality)]
    ensures r.Exited? ==> r.status == FailureStatus && r.message != []
    ensures r.Completed? <==>
              Generation.HasKey(apiKey) && service(Generation.RequestFor(ChosenPrompt(prompt), size, quality)).Delivered?
    ensures r.Completed? ==>
              && r.prompt == ChosenPrompt(prompt)
              && (prompt.Some? ==> r.prompt == prompt.value)
              && (prompt.None? ==> r.prompt == DefaultPrompt)
              && r.imagePath == r.artifact.imagePath
              && Artifacts.ParseImageName(r.artifact.imageName) == Some((nameTime, None))
              && Artifacts.EndsWith(r.artifact.infoText, Artifacts.PromptSection(r.prompt))
              && r.artifact.infoText
                 == Artifacts.SidecarLayout(infoTime, r.artifact.imageName, size, quality, None, r.prompt)
              && r.artifact == Artifacts.SaveImage(service(Generation.RequestFor(ChosenPrompt(prompt), size, quality)).image,
                                                   r.prompt, size, quality, None, nameTime, infoTime)
  {
    if !Generation.HasKey(apiKey) then Exited(FailureStatus, Generation.MissingKeyMessage, [])
    else
      var text := ChosenPrompt(prompt);
      var request := Generation.RequestFor(text, size, quality);
      match service(request)
      case Raised(message) => Exited(FailureStatus, Generation.FailurePrefix + message, [request])
      case Delivered(image) =>
        var imageName := ScriptImageName(nameTime);
        var infoName := ScriptInfoName(nameTime);
        var artifact := Artifacts.Artifact(
          Artifacts.OutputDir + "/" + imageName, imageName, image,
          Artifacts.OutputDir + "/" + infoName, infoName,
          Artifacts.Terminated(ScriptInfoLines(infoTime, imageName, size, quality, text)));
        SavesLikeApp(image, text, size, quality, nameTime, infoTime);
        Completed(artifact.imagePath, text, artifact, [request])
  }

  /** The script saves exactly what the web tool's `save_image_to_file`
      saves for a result without a pattern number. */
  lemma SavesLikeApp(image: Generation.Bytes, prompt: string, size: string, quality: string,
                     nameTime: DateTime, infoTime: DateTime)
    requires Valid(nameTime) && Valid(infoTime)
    ensures var imageName := ScriptImageName(nameTime);
            var infoName := ScriptInfoName(nameTime);
            Artifacts.Artifact(
              Artifacts.OutputDir + "/" + imageName, imageName, image,
              Artifacts.OutputDir + "/" + infoName, infoName,
              Artifacts.Terminated(ScriptInfoLines(infoTime, imageName, size, quality, prompt)))
            == Artifacts.SaveImage(image, prompt, size, quality, None, nameTime, infoTime)
  {
    var imageName := ScriptImageName(nameTime);
    assert imageName == Artifacts.ImageName(nameTime, None);
    assert ScriptInfoName(nameTime) == Artifacts.InfoName(nameTime, None);
    assert ScriptInfoLines(infoTime, imageName, size, quality, prompt)
        == Artifacts.InfoLines(infoTime, imageName, size, quality, None, prompt);
  }

  /** The default prompt is echoed stripped but sent and stored with its
      surrounding newline and indentation: a successful default run records
      the raw text, which differs from what the console showed. */
  lemma DefaultPromptStoredUnstripped(size: string, quality: string, apiKey: Option<string>,
                                      service: Generation.Service, nameTime: DateTime, infoTime: DateTime)
    requires Valid(nameTime) && Valid(infoTime)
    ensures PromptEcho(DefaultPrompt)[|EchoLabel|..] != DefaultPrompt
    ensures var r := GenerateKappaImage(None, size, quality, apiKey, service, nameTime, infoTime);
            r.Completed? ==>
              && r.prompt == DefaultPrompt
              && Artifacts.EndsWith(r.artifact.infoText, Artifacts.PromptSection(DefaultPrompt))
              && r.prompt != PromptEcho(DefaultPrompt)[|EchoLabel|..]
  {
    assert IsSpace(DefaultPrompt[0]);
    assert PromptEcho(DefaultPrompt)[|EchoLabel|..] == Strip(DefaultPrompt);
  }

  /** The sizes and quality `generate_kappa_image` uses when the caller
      gives none. */
  const DefaultSize := "1024x1024"
  const DefaultQuality := "standard"

  /** The script's `main`: one run with every default. */
  function RunDefaults(apiKey: Option<string>, service: Generation.Service, nameTime: DateTime, infoTime: DateTime)
    : (r: ScriptRun)
    requires Valid(nameTime) && Valid(infoTime)
    ensures Generation.HasKey(apiKey) ==>
              r.requests == [Generation.ImageRequest(Generation.ModelName, DefaultPrompt, "1024x1024", "standard", 1)]
    ensures r.Completed? ==>
              && r.prompt == DefaultPrompt
              && r.artifact.infoText
                 == Artifacts.SidecarLayout(infoTime, r.artifact.imageName, "1024x1024", "standard", None, DefaultPrompt)
  {
    GenerateKappaImage(None, DefaultSize, DefaultQuality, apiKey, service, nameTime, infoTime)
  }
}
