# kappa_images — a Dafny model of the prompt, naming and sidecar logic

The kappa tools generate a character image from a text prompt. The web form
(`app.py`) builds the prompt from a base description plus a pattern. The pattern
is picked from a pattern file or typed in. The command-line script
(`generate_kappa.py`) uses a given prompt or a built-in default. Both send the
prompt once to an image service. On success they write the image as
`generated_images/kappa_<YYYYMMDD_HHMMSS>[_p<n>].png` with an `_info.txt`
metadata sidecar beside it.

This project models the pure logic inside that I/O as Dafny functions and proves
properties about it:

- `Text`: Python's `str.strip()` with its full whitespace set. Also split and
  join on a separator, text-mode newline translation, and `str(int)` with a
  parser for it.
- `Patterns`: `load_base_prompt` and `load_patterns`. A file read is either
  `Missing` or `Contents(text)`.
- `Prompt`: the pattern-list labels, the choice of pattern and its 1-based
  number, the blank-input guards, and how the final prompt is composed.
- `Generation`: `generate_image`. The image service is a total function
  parameter that returns decoded bytes or an exception message. The result
  records the requests that were sent.
- `Clock`: the two `strftime` formats used, taken over clock readings passed in
  as arguments.
- `Artifacts`: `save_image_to_file`. It covers the file names, the sidecar lines
  and text, and the returned path.
- `App`: the handler of the generate button, from the key check to the save.
- `KappaScript`: `generate_kappa_image`, together with a proof that it saves
  exactly what `save_image_to_file` saves when there is no pattern number.

Three behaviours of the code shape the model:

- Patterns are read one per line; there is no other pattern-file grammar.
- A missing pattern file is never fatal. It yields an empty list.
- The sidecar's pattern-number line is written only when the number is truthy,
  so the number `0` is omitted like `None`.

## Model

| member | source | states |
|---|---|---|
| Text.Strip | app.py:33 | the stripped text has no whitespace at either end, and it is empty exactly when the input is all Python whitespace (U+3000 and U+0085 included) |
| Text.StripIsSlice | app.py:33 | the stripped text is one contiguous slice of the input, and everything cut off on either side is whitespace |
| Text.StripSurrounded | app.py:33 | independent characterisation: any stripped text surrounded by whitespace strips back to itself |
| Text.StripIdempotent | app.py:33 | stripping twice is the same as stripping once |
| Text.StripKeepsAbsent | app.py:33 | stripping introduces no character that the line lacked |
| Text.TrimLeftDrops | app.py:33 | the left-stripped text is a suffix of the input, the dropped prefix is whitespace, and the result starts with a non-space |
| Text.TrimRightDrops | app.py:33 | the right-stripped text is a prefix of the input, the dropped suffix is whitespace, and the result ends with a non-space |
| Text.Split | app.py:29 | splitting always yields at least one piece, and no piece contains the separator |
| Text.SplitJoin | app.py:29 | splitting a join gives back the pieces when none of them contains the separator |
| Text.JoinSplit | app.py:29 | joining the pieces of a split gives back the text |
| Text.TranslateNewlines | app.py:28-29 | after text-mode newline translation no carriage return is left, and text without one is unchanged |
| Text.TranslateAtReturn | app.py:28-29 | at the first carriage return, `"\r\n"` or a lone `'\r'` becomes exactly one `'\n'`; the text before it is kept and translation goes on after it |
| Text.NatToString | app.py:174 | the decimal rendering of a number is non-empty, all digits, and has no leading zero |
| Text.NatToStringValue | app.py:174 | the decimal digits read back as the number |
| Text.IntToStringRoundTrip | app.py:83 | `str(n)` for any integer parses back to the same integer |
| Patterns.ReadLines | app.py:28-29 | the lines read from a file contain neither `\n` nor `\r`, and joined with `\n` they give back the text after newline translation |
| Patterns.ParsePatterns | app.py:31-37 | there are never more patterns than lines |
| Patterns.ParsedArePatterns | app.py:31-37 | every parsed pattern is non-empty, does not start with `#` and is stripped |
| Patterns.CollectPatterns | app.py:31-37 | the loop of `load_patterns` computes exactly the filtered, stripped lines in input order |
| Patterns.LoadPatterns | app.py:25-39 | a missing file gives `[]`; otherwise the patterns are the parse of the file's lines; every loaded pattern is a stripped single line that is non-empty and not a comment |
| Patterns.LoadBasePrompt | app.py:16-22 | a missing file gives `""`; otherwise the base is one slice of the translated text with only whitespace cut off on either side, stripped, and empty exactly when the file is blank |
| Patterns.ParseKeepsAbsent | app.py:33-35 | a character that no line contains does not appear in any pattern |
| Patterns.ParsedFromLine | app.py:32-35 | every pattern is the stripped form of a line that is non-blank and not a comment after stripping |
| Patterns.LineIsParsed | app.py:32-35 | every such line contributes its stripped form, placed right after the patterns of the lines before it, so nothing else is dropped |
| Patterns.ParsedIff | app.py:32-35 | both directions together: the patterns are exactly the stripped pattern lines |
| Patterns.ParseAppend | app.py:31-37 | parsing a concatenation of lines is concatenating the parses, so line order is kept and each line is judged alone |
| Patterns.ParseSingle | app.py:33-35 | one line is kept, stripped, exactly when it is non-empty and not `#`-led after stripping, so `"   # note"` is a comment |
| Patterns.PatternIsOwnLine | app.py:33-35 | a loaded pattern, read again as a line, is kept and strips to itself |
| Patterns.ParseKeepsPatterns | app.py:31-37 | lines that are already patterns pass through unchanged |
| Patterns.ParseIdempotent | app.py:31-37 | parsing the parsed patterns gives them back |
| Patterns.LoadRewriteIdempotent | app.py:25-39 | writing the loaded patterns one per line and loading that file gives the same patterns |
| Prompt.PatternLabel | app.py:174-175 | a label is the 1-based number, `". "`, then the pattern; patterns over 60 characters show their first 60 characters followed by `...` |
| Prompt.PatternLabels | app.py:174-175 | there is one label per pattern, in order |
| Prompt.LabelNumberRoundTrip | app.py:174-179 | the number at the head of each label reads back as the pattern's 1-based index |
| Prompt.LabelsDistinct | app.py:174-179 | no two entries of the select box have the same label |
| Prompt.SelectPattern | app.py:172-201 | a listed choice at index i yields `patterns[i]` with number `i + 1`, which lies in 1..N and names the chosen pattern; custom text is used as typed; custom text or an empty list records no number |
| Prompt.ComposePrompt | app.py:206-216 | submission is refused exactly when the base or the pattern is blank, and the base is checked first; otherwise the prompt is the base, then a newline, then the pattern, each verbatim |
| Generation.GenerateImage | app.py:42-74 | exactly one of bytes and error is present; without a key there is no request and the missing-key message is returned; with a key exactly one request is made for the fixed model; error messages are never empty |
| Clock.CompactStamp | app.py:82 | the file-name stamp has 15 characters, all digits except `_` at index 8 |
| Clock.HumanStamp | app.py:94 | the sidecar date has 19 characters, with its separators in fixed positions |
| Clock.HumanStampFields | app.py:94 | each field of the sidecar date is the reading's field, zero-padded to 4 or 2 digits |
| Clock.HumanStampMatchesCompact | app.py:82-94 | the digits of the sidecar date, joined with `_` between date and time, are the file-name stamp of the same reading, and so parse back to that reading |
| Clock.CompactStampFields | app.py:82 | each field of the file-name stamp is the reading's field, zero-padded |
| Clock.CompactStampRoundTrip | app.py:82 | the file-name stamp parses back to the clock reading |
| Clock.ParsedStampIsCompact | app.py:82 | converse: any text that parses as a stamp is that reading's stamp |
| Clock.CompactStampInjective | app.py:82 | two readings give the same stamp exactly when they are the same second |
| Artifacts.Recorded | app.py:83 | a truthy pattern number is kept unchanged and a falsy one (`None` or `0`) is dropped to `None` |
| Artifacts.PatternSuffix | app.py:83 | the `_p<n>` suffix is present exactly when the pattern number is truthy, so `None` and `0` both give none |
| Artifacts.Stem | app.py:82-84 | the stem is `kappa_`, then the 15-character stamp, then exactly the `_p<n>` suffix of the pattern number |
| Artifacts.InfoNameFromImageName | app.py:84-90 | the sidecar name is the image name with `.png` replaced by `_info.txt` |
| Artifacts.ParsedImageNameIsImageName | app.py:82-84 | converse of the round trip: any name that parses is exactly the image name of the reading and number it parses to, so `_p07` is not a name of pattern 7 |
| Artifacts.ImageNameRoundTrip | app.py:82-84 | an image name parses back to its clock reading and its recorded pattern number |
| Artifacts.ImageNameCollision | app.py:82-84 | two image names are equal exactly when they share the second and the recorded pattern number |
| Artifacts.HeaderLines | app.py:99-100 | the sidecar has six header lines when the pattern number is truthy and five otherwise |
| Artifacts.InfoText | app.py:93-101 | the sidecar text is exactly the date line, `モデル: gpt-image-1.5`, the image-file line, the size line, the quality line, the pattern-number line only when truthy, then `"\nプロンプト:\n" + prompt + "\n"`, with the prompt verbatim |
| Artifacts.InfoLinesLayout | app.py:94-101 | writing the header lines, a blank line, the heading and the prompt, each with a newline, yields that field-by-field layout |
| Artifacts.TerminatedAppend | app.py:94-101 | writing two groups of lines one after the other produces the concatenation of their texts |
| Artifacts.PatternLineIffTruthy | app.py:99-100 | a `パターン番号` line appears among the header lines exactly when the pattern number is truthy |
| Artifacts.SaveImage | app.py:77-103 | the image bytes are kept; both files lie in `generated_images/`; the image name parses back to the reading and number and carries exactly the `_p<n>` suffix; the sidecar name shares the stem; the sidecar text is the full layout, naming the saved image file and dated by the second reading |
| App.Submit | app.py:139-242 | the page stops exactly when the key is missing or either input is blank; otherwise exactly one request carries `base + "\n" + pattern`, the result is saved exactly when the service delivers, with the service's bytes, and otherwise the service's error is shown with its prefix; a saved result is exactly what `save_image_to_file` writes for the service's bytes, that prompt, the form's size and quality and the selected pattern number |
| App.SavedPatternNumber | app.py:172-242 | a listed pattern is saved under its 1-based number, and custom text is saved without one |
| KappaScript.PromptEcho | generate_kappa.py:45 | the console shows one slice of the prompt with only whitespace cut on either side, no whitespace left at its ends, empty exactly when the prompt is blank |
| KappaScript.GenerateKappaImage | generate_kappa.py:15-97 | a missing key exits with status 1 before any request; otherwise exactly one request carries the caller's prompt unchanged, or the default when none is given; failure exits with status 1 and a message; success saves exactly what `save_image_to_file` writes for the service's bytes, the exact prompt sent, the given size and quality and no pattern number (so `generated_images/kappa_<stamp>.png` with a `_info.txt` sidecar on the same stem), and returns that image path with the prompt |
| KappaScript.SavesLikeApp | generate_kappa.py:65-89 | the script's own name, sidecar-name and sidecar-line definitions build exactly the artifact, names, paths and sidecar equal to what `save_image_to_file` writes with no pattern number |
| KappaScript.DefaultPromptStoredUnstripped | generate_kappa.py:35-89 | the default prompt differs from its stripped echo; a successful default run sends and stores the raw default, so the sidecar ends with it, newline and indentation included |
| KappaScript.RunDefaults | generate_kappa.py:100-111 | the script's `main` sends one request for the default prompt at size `1024x1024` and quality `standard`, and a saved sidecar records those defaults |

## Left out

- The Streamlit page is left out because it is presentation. This covers the
  widgets, spinner, image display, the download button and its separately timed
  file name (app.py:250), and the generation-info expander.
- The OpenAI client and base64 decoding are not modelled. They become the
  `service` parameter, which returns decoded bytes or an exception message. The
  key value is only checked for presence. It is not passed to the service.
- Filesystem effects are not modelled: opening and reading files, `mkdir`, and
  writing the two output files. Inputs are `FileRead` values. Outputs are the
  names, path and texts in an `Artifact`.
- Only `FileNotFoundError` is modelled, because it is the only error the loaders
  catch. Other failures are not modelled: permission errors, UTF-8 decoding
  errors, and write failures. In app.py they propagate, or in the script
  they end in exit status 1.
- `datetime.now()` is not modelled. Each reading is a `DateTime` argument. The
  file-name reading and the sidecar reading are independent.
- Clock.Valid: accepts years 1000..9999 only, because four digits is what `%Y`
  yields for them. It also allows days 1..31 in every month, so it is looser than
  the calendar.
- `print` output other than the prompt echo is left out. Each `sys.exit(1)`
  becomes the `Exited` outcome.
- Patterns.ReadLines: lines carry no terminator, and the text ends in an empty
  piece after a final newline. Python's `readlines` keeps `"\n"` and has no such
  piece. Both differences disappear once lines are stripped and blank lines are
  dropped, and `load_patterns` does both.
- Dafny characters are Unicode scalar values. Python strings that contain lone
  surrogates have no counterpart in the model.
- The banner lines that the `main` of generate_kappa.py prints are left out. It
  calls `generate_kappa_image` with no arguments, which `RunDefaults` models.
