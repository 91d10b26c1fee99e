/** Persisting a result (app.py `save_image_to_file`): the image file name,
    the metadata sidecar's name and text, and the path handed back. Writing
    the files is not modelled; the artifact records what would be written
    where. The two clock readings (file name, sidecar date) are separate
    arguments because app.py reads the clock twice. */
module Artifacts {
  import opened Results
  import opened Text
  import opened Clock
  import Generation

  const OutputDir := "generated_images"

  /** `if pattern_number`: `None` and `0` are both falsy. */
  predicate Truthy(n: Option<int>) {
    n.Some? && n.value != 0
  }

  /** The pattern number as the file name records it: dropped when falsy. */
  function Recorded(n: Option<int>): (m: Option<int>)
    ensures Truthy(m) == Truthy(n)
    ensures m.Some? ==> m == n
    ensures !Truthy(n) ==> m == None
  {
    if Truthy(n) then n else None
  }

  /** `_p<n>` for a truthy pattern number, nothing otherwise. */
  function PatternSuffix(n: Option<int>): (r: string)
    ensures r == [] <==> !Truthy(n)
    ensures Truthy(n) ==> r == "_p" + IntToString(n.value)
  {
    if Truthy(n) then "_p" + IntToString(n.value) else ""
  }

  /** The name shared by the image and its sidecar. */
  function Stem(t: DateTime, n: Option<int>): (r: string)
    requires Valid(t)
    ensures "kappa_" <= r
    ensures |r| >= 21
    ensures r[6..21] == CompactStamp(t)
    ensures r[21..] == PatternSuffix(n)
  {
    "kappa_" + CompactStamp(t) + PatternSuffix(n)
  }

  /** The image file's name: the stem, then `.png`. */
  function ImageName(t: DateTime, n: Option<int>): string
    requires Valid(t)
  {
    Stem(t, n) + ".png"
  }

  /** The sidecar's name: the same stem, then `_info.txt`. */
  function InfoName(t: DateTime, n: Option<int>): string
    requires Valid(t)
  {
    Stem(t, n) + "_info.txt"
  }

  /** The sidecar's name is the image's with `.png` replaced by
      `_info.txt`. */
  lemma InfoNameFromImageName(t: DateTime, n: Option<int>)
    requires Valid(t)
    ensures var image := ImageName(t, n);
            InfoName(t, n) == image[..|image| - 4] + "_info.txt"
  {
    var image := ImageName(t, n);
    assert image[..|image| - 4] == Stem(t, n);
  }

  /** Reads a name written by `ImageName` back into its clock reading and
      pattern number. The number must be written as `str` writes it, so
      `_p07` is refused. */
  function ParseImageName(name: string): Option<(DateTime, Option<int>)>
  {
    if |name| >= 25 && name[..6] == "kappa_" && name[|name| - 4..] == ".png" then
      match ParseCompactStamp(name[6..21])
      case None => None
      case Some(t) =>
        var suffix := name[21..|name| - 4];
        if suffix == [] then Some((t, None))
        else if |suffix| >= 2 && suffix[..2] == "_p" then
          match ParseInt(suffix[2..])
          case Some(v) => if v != 0 && suffix[2..] == IntToString(v) then Some((t, Some(v))) else None
          case None => None
        else None
    else None
  }

  /** Image names lose nothing but the falsy pattern numbers: the name reads
      back as its clock reading and recorded number. */
  lemma ImageNameRoundTrip(t: DateTime, n: Option<int>)
    requires Valid(t)
    ensures ParseImageName(ImageName(t, n)) == Some((t, Recorded(n)))
  {
    var name := ImageName(t, n);
    var suffix := PatternSuffix(n);
    assert name[..6] == "kappa_";
    assert name[|name| - 4..] == ".png";
    assert name[6..21] == CompactStamp(t);
    CompactStampRoundTrip(t);
    assert name[21..|name| - 4] == suffix;
    if Truthy(n) {
      assert suffix[..2] == "_p";
      assert suffix[2..] == IntToString(n.value);
      IntToStringRoundTrip(n.value);
    }
  }

  /** Converse of the round trip: every name that parses is the image name
      of what it parses to, so a reading and a number have exactly one
      name. */
  lemma ParsedImageNameIsImageName(s: string, t: DateTime, m: Option<int>)
    requires ParseImageName(s) == Some((t, m))
    ensures Valid(t) && s == ImageName(t, m)
  {
    ParsedNameParts(s, t, m);
    ParsedStampIsCompact(s[6..21], t);
    ParsedSuffix(s[21..|s| - 4], m);
    FourParts(s, 6, 21, |s| - 4);
  }

  /** What parsing an image name checks, part by part. */
  lemma ParsedNameParts(s: string, t: DateTime, m: Option<int>)
    requires ParseImageName(s) == Some((t, m))
    ensures |s| >= 25 && s[..6] == "kappa_" && s[|s| - 4..] == ".png"
    ensures ParseCompactStamp(s[6..21]) == Some(t)
    ensures var suffix := s[21..|s| - 4];
            && (suffix == [] ==> m == None)
            && (suffix != [] ==>
                  && |suffix| >= 2 && suffix[..2] == "_p"
                  && m.Some? && m.value != 0 && suffix[2..] == IntToString(m.value))
  {
  }

  /** A text is the concatenation of its slices at three cut points. */
  lemma FourParts(s: string, i: nat, j: nat, k: nat)
    requires i <= j <= k <= |s|
    ensures s == s[..i] + s[i..j] + s[j..k] + s[k..]
  {
  }

  /** The suffix part of a parsed image name is the suffix of the number it
      parses to. */
  lemma ParsedSuffix(suffix: string, m: Option<int>)
    requires suffix == [] ==> m == None
    requires suffix != [] ==>
               && |suffix| >= 2 && suffix[..2] == "_p"
               && m.Some? && m.value != 0 && suffix[2..] == IntToString(m.value)
    ensures suffix == PatternSuffix(m)
  {
    if suffix != [] {
      assert suffix == suffix[..2] + suffix[2..];
    }
  }

  /** Two image names coincide only for the same second and the same
      recorded pattern number; in particular no number and number `0` share
      a name. */
  lemma ImageNameCollision(t1: DateTime, n1: Option<int>, t2: DateTime, n2: Option<int>)
    requires Valid(t1) && Valid(t2)
    ensures ImageName(t1, n1) == ImageName(t2, n2) <==> t1 == t2 && Recorded(n1) == Recorded(n2)
  {
    ImageNameRoundTrip(t1, n1);
    ImageNameRoundTrip(t2, n2);
    if t1 == t2 && Recorded(n1) == Recorded(n2) {
      assert PatternSuffix(n1) == PatternSuffix(n2);
    }
  }

  const CreatedLabel := "生成日時: "
  const ModelLabel := "モデル: "
  const FileLabel := "画像ファイル: "
  const SizeLabel := "サイズ: "
  const QualityLabel := "画質: "
  const PatternNumberLabel := "パターン番号: "
  const PromptHeading := "プロンプト:"

  /** The lines before the prompt section: date, model, image file, size,
      quality, and the pattern number only when it is truthy. */
  function HeaderLines(created: DateTime, imageName: string, size: string, quality: string, n: Option<int>)
    : (lines: seq<string>)
    requires Valid(created)
    ensures |lines| == if Truthy(n) then 6 else 5
  {
    [CreatedLabel + HumanStamp(created), ModelLabel + Generation.ModelName, FileLabel + imageName,
     SizeLabel + size, QualityLabel + quality]
    + (if Truthy(n) then [PatternNumberLabel + IntToString(n.value)] else [])
  }

  /** One line as written: its text and a newline. */
  function Line(text: string): string {
    text + "\n"
  }

  /** Each line followed by a newline, as successive `write` calls lay them
      out. */
  function Terminated(lines: seq<string>): string
  {
    if lines == [] then []
    else Terminated(lines[..|lines| - 1]) + Line(lines[|lines| - 1])
  }

  /** `s` ends with `suffix`. */
  predicate EndsWith(s: string, suffix: string) {
    |suffix| <= |s| && s[|s| - |suffix|..] == suffix
  }

  lemma EndsWithAppend(a: string, b: string)
    ensures EndsWith(a + b, b)
  {
    assert (a + b)[|a|..] == b;
  }

  /** The closing section of a sidecar: a blank line, the heading, the
      prompt. */
  function PromptSection(prompt: string): string {
    "\n" + PromptHeading + "\n" + prompt + "\n"
  }

  /** Every line the sidecar receives, in order: the header, a blank line,
      the heading and the prompt. */
  function InfoLines(created: DateTime, imageName: string, size: string, quality: string, n: Option<int>, prompt: string)
    : (lines: seq<string>)
    requires Valid(created)
    ensures |lines| == |HeaderLines(created, imageName, size, quality, n)| + 3
    ensures lines[|lines| - 3..] == ["", PromptHeading, prompt]
  {
    HeaderLines(created, imageName, size, quality, n) + ["", PromptHeading, prompt]
  }

  /** The sidecar as the successive `write` calls of app.py produce it, field
      by field: date, model, image file, size, quality, the pattern number
      only when it is truthy, then the prompt section. */
  function SidecarLayout(created: DateTime, imageName: string, size: string, quality: string, n: Option<int>,
                         prompt: string): string
    requires Valid(created)
  {
    Line(CreatedLabel + HumanStamp(created))
    + Line(ModelLabel + Generation.ModelName)
    + Line(FileLabel + imageName)
    + Line(SizeLabel + size)
    + Line(QualityLabel + quality)
    + (if Truthy(n) then Line(PatternNumberLabel + IntToString(n.value)) else "")
    + PromptSection(prompt)
  }

  /** The sidecar text: each line written with its newline. It is exactly
      the field-by-field layout; it opens with the date line and closes with
      the prompt section, the prompt verbatim. */
  function InfoText(created: DateTime, imageName: string, size: string, quality: string, n: Option<int>, prompt: string)
    : (text: string)
    requires Valid(created)
    ensures text == SidecarLayout(created, imageName, size, quality, n, prompt)
    ensures Line(CreatedLabel + HumanStamp(created)) <= text
    ensures EndsWith(text, PromptSection(prompt))
  {
    InfoLinesLayout(created, imageName, size, quality, n, prompt);
    LayoutEnds(CreatedLabel + HumanStamp(created), ModelLabel + Generation.ModelName, FileLabel + imageName,
               SizeLabel + size, QualityLabel + quality,
               if Truthy(n) then Line(PatternNumberLabel + IntToString(n.value)) else "", PromptSection(prompt));
    Terminated(InfoLines(created, imageName, size, quality, n, prompt))
  }

  /** Five written lines, an optional part and a closing section: the text
      opens with the first line and closes with the section. */
  lemma LayoutEnds(x0: string, x1: string, x2: string, x3: string, x4: string, opt: string, section: string)
    ensures var text := Line(x0) + Line(x1) + Line(x2) + Line(x3) + Line(x4) + opt + section;
            Line(x0) <= text && EndsWith(text, section)
  {
    var head := Line(x0) + Line(x1) + Line(x2) + Line(x3) + Line(x4) + opt;
    EndsWithAppend(head, section);
    assert head + section == Line(x0) + (Line(x1) + Line(x2) + Line(x3) + Line(x4) + opt + section);
  }

  /** Writing the sidecar's lines one by one yields the field-by-field
      layout. */
  lemma InfoLinesLayout(created: DateTime, imageName: string, size: string, quality: string, n: Option<int>,
                        prompt: string)
    requires Valid(created)
    ensures Terminated(InfoLines(created, imageName, size, quality, n, prompt))
         == SidecarLayout(created, imageName, size, quality, n, prompt)
  {
    var x0, x1, x2 := CreatedLabel + HumanStamp(created), ModelLabel + Generation.ModelName, FileLabel + imageName;
    var x3, x4 := SizeLabel + size, QualityLabel + quality;
    var opt := if Truthy(n) then [PatternNumberLabel + IntToString(n.value)] else [];
    var tail := ["", PromptHeading, prompt];
    assert InfoLines(created, imageName, size, quality, n, prompt) == [x0, x1, x2, x3, x4] + opt + tail;
    TerminatedFive(x0, x1, x2, x3, x4, opt, tail);
    if Truthy(n) {
      Terminated1(opt[0]);
    }
    assert Terminated(opt) == if Truthy(n) then Line(PatternNumberLabel + IntToString(n.value)) else "";
    PromptSectionLines(prompt);
  }

  /** The prompt section is three written lines: blank, heading, prompt. */
  lemma PromptSectionLines(prompt: string)
    ensures Terminated(["", PromptHeading, prompt]) == PromptSection(prompt)
  {
    Terminated3("", PromptHeading, prompt);
  }

  /** Five lines, at most one optional line and a tail, written in turn. */
  lemma TerminatedFive(x0: string, x1: string, x2: string, x3: string, x4: string, opt: seq<string>,
                       tail: seq<string>)
    ensures Terminated([x0, x1, x2, x3, x4] + opt + tail)
         == Line(x0) + Line(x1) + Line(x2) + Line(x3) + Line(x4) + Terminated(opt) + Terminated(tail)
  {
    var first, second := [x0, x1, x2], [x3, x4];
    assert [x0, x1, x2, x3, x4] == first + second;
    Terminated3(x0, x1, x2);
    Terminated2(x3, x4);
    TerminatedAppend(first, second);
    TerminatedAppend(first + second, opt);
    TerminatedAppend(first + second + opt, tail);
  }

  lemma Terminated1(a: string)
    ensures Terminated([a]) == Line(a)
  {
    assert [a][..0] == [];
    assert Terminated([]) == [];
    assert [] + Line(a) == Line(a);
  }

  lemma Terminated2(a: string, b: string)
    ensures Terminated([a, b]) == Line(a) + Line(b)
  {
    assert [a, b][..1] == [a];
    Terminated1(a);
  }

  lemma Terminated3(a: string, b: string, c: string)
    ensures Terminated([a, b, c]) == Line(a) + Line(b) + Line(c)
  {
    assert [a, b, c][..2] == [a, b];
    Terminated2(a, b);
  }

  lemma {:induction false} TerminatedAppend(a: seq<string>, b: seq<string>)
    ensures Terminated(a + b) == Terminated(a) + Terminated(b)
    decreases |b|
  {
    if b == [] {
      assert a + b == a;
    } else {
      var init := b[..|b| - 1];
      assert (a + b)[..|a + b| - 1] == a + init;
      assert (a + b)[|a + b| - 1] == b[|b| - 1];
      TerminatedAppend(a, init);
    }
  }

  /** A header line announces the pattern number exactly when that number is
      truthy. */
  lemma PatternLineIffTruthy(created: DateTime, imageName: string, size: string, quality: string, n: Option<int>)
    requires Valid(created)
    ensures var header := HeaderLines(created, imageName, size, quality, n);
            (exists k :: 0 <= k < |header| && PatternNumberLabel <= header[k]) <==> Truthy(n)
  {
    var header := HeaderLines(created, imageName, size, quality, n);
    forall k | 0 <= k < 5
      ensures !(PatternNumberLabel <= header[k])
    {
      assert header[k][0] != PatternNumberLabel[0];
    }
    if Truthy(n) {
      assert PatternNumberLabel <= header[5];
    }
  }

  /** What saving leaves behind: the image under its name, the sidecar under
      its name, and the returned path of the image. */
  datatype Artifact = Artifact(
    imagePath: string,
    imageName: string,
    image: Generation.Bytes,
    infoPath: string,
    infoName: string,
    infoText: string)

  /** `save_image_to_file`. `nameTime` is the reading taken for the file
      names, `infoTime` the one written into the sidecar. */
  function SaveImage(image: Generation.Bytes, prompt: string, size: string, quality: string, n: Option<int>,
                     nameTime: DateTime, infoTime: DateTime): (a: Artifact)
    requires Valid(nameTime) && Valid(infoTime)
    ensures a.image == image
    ensures a.imagePath == OutputDir + "/" + a.imageName
    ensures a.infoPath == OutputDir + "/" + a.infoName
    ensures ParseImageName(a.imageName) == Some((nameTime, Recorded(n)))
    ensures |a.imageName| == 25 + |PatternSuffix(n)| && a.imageName[21..|a.imageName| - 4] == PatternSuffix(n)
    ensures a.infoName == a.imageName[..|a.imageName| - 4] + "_info.txt"
    ensures a.infoText == SidecarLayout(infoTime, a.imageName, size, quality, n, prompt)
    ensures EndsWith(a.infoText, PromptSection(prompt))
  {
    var imageName := ImageName(nameTime, n);
    var infoName := InfoName(nameTime, n);
    ImageNameRoundTrip(nameTime, n);
    InfoNameFromImageName(nameTime, n);
    Artifact(OutputDir + "/" + imageName, imageName, image, OutputDir + "/" + infoName, infoName,
             InfoText(infoTime, imageName, size, quality, n, prompt))
  }
}
