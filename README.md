# Subtitle timeline of a browser video editor, in Dafny

The editor lets a user place timed text overlays ("subtitles") on a video,
previews them over the playing video, and burns them into the output with
FFmpeg's `drawtext` filter. This project models the part of it that is plain
data manipulation:

- `jslib.dfy` (module `JsLib`): the JavaScript built-ins the logic relies on:
  `T | null` as `Option`, `trim`, `replace` with a one-character pattern (all
  occurrences with `/c/g`, only the first with a string pattern),
  `Array.prototype.filter` and `join`.
- `subtitle_form.dfy` (module `SubtitleForm`): the `Subtitle` record and the
  form that drafts one, a class with the form's seven state fields. Its input
  handlers, "set to current time", the seed/reset effect, the `onChange`
  effect and submit are methods; the callback submit invokes is returned as a
  `Submission` value.
- `video_player.dfy` (module `VideoPlayer`): the preview, i.e. which
  subtitles are on screen at the current playback time and where each box is
  anchored.
- `drawtext_filter.dfy` (module `DrawtextFilter`): `escapeText`, the
  `drawtext` clause of one subtitle, the `,`-joined filter chain and the
  argument vector handed to `ffmpeg.exec`.
- `video_editor.dfy` (module `VideoEditor`): the editor's state as a class
  (committed list, edit target and index, draft, video, playback facts, output
  URL, `processing`) with one method per handler, the preview list
  `allSubtitles`, the form wired to the editor, and worked scenarios.

Times are JavaScript numbers, modelled as `real`, because they are only
compared and added. The rendering of a number inside the filter string is a
parameter `num: real -> string` about which nothing is assumed. A render is
split in two: `StartTranscode` is the synchronous start of `transcode`, which
raises `processing` and fixes the list the handler closed over.
`FinishTranscode` takes how FFmpeg ended (`FfmpegRun`) and does the rest.

Behaviour that a cleaner design would handle differently is modelled as the
code does it:
- an empty list still passes `-vf ""` to FFmpeg;
- adding accepts blank text and any times;
- deleting leaves a stale edit index in place, so a later edit commit can
  replace a different subtitle or append one;
- submit resets the form's position to `Bottom`, whereas the seed effect and
  the editor's draft reset use `Middle`;
- nothing in the handlers rejects a second render while one runs;
- `escapeText` does not escape backslashes, so a text ending in `\` leaves
  a bare backslash before the quote that closes the text value.

## Model

| member | source | states |
|---|---|---|
| JsLib.TrimStart | src/components/VideoEditor.tsx:58 | leading `trim` removes exactly a whitespace prefix; what is left is empty or starts with a non-whitespace character |
| JsLib.TrimEnd | src/components/VideoEditor.tsx:58 | trailing `trim` removes exactly a whitespace suffix; what is left is empty or ends with a non-whitespace character |
| JsLib.Trim | src/components/VideoEditor.tsx:58 | `trim` never lengthens the text, and what it leaves is empty or starts and ends with a non-whitespace character |
| JsLib.TrimEmptyIffBlank | src/components/VideoEditor.tsx:57-59 | `text.trim() !== ""` fails exactly when every character is ECMAScript whitespace or a line terminator |
| JsLib.ReplaceAll | src/components/VideoEditor.tsx:138 | a global one-character replace leaves a string without that character unchanged and removes every occurrence when the replacement lacks it |
| JsLib.ReplaceAllAppend | src/components/VideoEditor.tsx:138 | a global replace works piece by piece: it distributes over concatenation |
| JsLib.ReplaceFirst | src/components/VideoEditor.tsx:173 | a string-pattern replace changes only the first occurrence, at its `indexOf`, and leaves a string without it unchanged |
| JsLib.Filter | src/components/VideoPlayer.tsx:14-17 | `filter` keeps exactly the elements satisfying the predicate and never lengthens the list |
| JsLib.FilterIsSubsequence | src/components/VideoPlayer.tsx:14-17 | `filter` keeps the surviving elements in their original order |
| JsLib.FilterCount | src/components/VideoPlayer.tsx:14-17 | `filter` keeps every satisfying element as often as it occurs and drops all others |
| JsLib.FilterAppend | src/components/VideoEditor.tsx:57-59 | filtering a concatenation is concatenating the filtered parts |
| JsLib.Join | src/components/VideoEditor.tsx:184 | a non-empty `join` opens with its first part |
| JsLib.JoinAppend | src/components/VideoEditor.tsx:184 | one more part adds exactly one separator and that part at the end |
| SubtitleForm.Blank | src/components/SubtitleForm.tsx:47-52 | the reset values: empty text, times 0, size 24, `#FFFFFF`, the given position |
| SubtitleForm.Form.constructor | src/components/SubtitleForm.tsx:47-53 | a new form holds the blank subtitle at `middle` and an offset of 1 second |
| SubtitleForm.Form.SetText | src/components/SubtitleForm.tsx:126 | the text input overwrites the text and nothing else |
| SubtitleForm.Form.SetStartTime | src/components/SubtitleForm.tsx:168 | the start slider overwrites the start time and nothing else |
| SubtitleForm.Form.SetEndTime | src/components/SubtitleForm.tsx:184 | the end slider overwrites the end time and nothing else |
| SubtitleForm.Form.SetFontSize | src/components/SubtitleForm.tsx:198 | the size input overwrites the font size and nothing else |
| SubtitleForm.Form.SetFontColor | src/components/SubtitleForm.tsx:209 | the colour input overwrites the colour and nothing else |
| SubtitleForm.Form.SetPosition | src/components/SubtitleForm.tsx:217 | the position select overwrites the position and nothing else |
| SubtitleForm.Form.SetCurrentTimeOffset | src/components/SubtitleForm.tsx:156 | the offset input overwrites the offset; the six subtitle fields are unchanged |
| SubtitleForm.Form.SetCurrentTime | src/components/SubtitleForm.tsx:55-58 | start becomes the playback time and end − start equals the offset; the other fields and the offset are unchanged |
| SubtitleForm.Form.Seed | src/components/SubtitleForm.tsx:61-78 | with an edit target the six fields equal it; without one they reset to the blank subtitle at `middle`; the offset is kept |
| SubtitleForm.Form.NotifyChange | src/components/SubtitleForm.tsx:81-92 | `onChange`, when present and only then, receives exactly the current six field values |
| SubtitleForm.Form.Submit | src/components/SubtitleForm.tsx:94-117 | the edit callback is chosen iff both an edit target and an edit callback exist, otherwise the add callback, with the fields as they were; afterwards the fields are the blank subtitle at `bottom` and the offset is kept |
| VideoPlayer.CurrentSubtitlesExact | src/components/VideoPlayer.tsx:14-17 | the preview is an order-preserving subsequence of the list, no longer than it, holding each subtitle with `startTime <= currentTime <= endTime` exactly as often as the list does and no other |
| VideoPlayer.IsShown | src/components/VideoPlayer.tsx:16 | definition, no contract of its own: the closed-interval test `startTime <= currentTime <= endTime`; its consequences are `ShownAtBothEnds` and `InvertedNeverShown` |
| VideoPlayer.CurrentSubtitles | src/components/VideoPlayer.tsx:14-17 | every subtitle returned is in the list and on screen now, and every listed subtitle on screen now is returned; never longer than the list |
| VideoPlayer.BottomOffset | src/components/VideoPlayer.tsx:30-36 | the box sits at `0%` exactly for bottom, `80%` exactly for top and `50%` exactly for middle |
| VideoPlayer.OverlayOf | src/components/VideoPlayer.tsx:22-45 | definition, no contract of its own: one box shows the text in its colour and pixel size at `BottomOffset`, centred; see `OverlaysAnchored` |
| VideoPlayer.Overlays | src/components/VideoPlayer.tsx:20-48 | definition, no contract of its own: one box per visible subtitle, in list order; its properties are `OverlaysAnchored` |
| VideoPlayer.ShownAtBothEnds | src/components/VideoPlayer.tsx:16 | both interval ends are inclusive: a listed subtitle is on screen at its start and at its end time |
| VideoPlayer.InvertedNeverShown | src/components/VideoPlayer.tsx:16 | a subtitle whose start is after its end is never on screen |
| VideoPlayer.OverlaysAnchored | src/components/VideoPlayer.tsx:22-37 | every visible subtitle gets a box; every box has `left` 50% and `bottom` 0%, 80% or 50% |
| VideoPlayer.AddThenPreviewScenario | src/components/VideoPlayer.tsx:14-17 | a cue from 1 to 3 s is shown at 2 and 3 and not at 4 or 3.0001 |
| DrawtextFilter.EscapeText | src/components/VideoEditor.tsx:137-139 | definition, no contract of its own: `'` then `:` replaced globally by their backslashed forms; what it means is stated by `EscapeTextIsPerCharacter`, `EscapeTextLength`, `EscapedDelimiters` and `UnescapeEscapeText` |
| DrawtextFilter.EscapeTextIsPerCharacter | src/components/VideoEditor.tsx:137-139 | the two chained replaces equal the per-character map `'`→`\'`, `:`→`\:`, anything else unchanged |
| DrawtextFilter.EscapeTextLength | src/components/VideoEditor.tsx:137-139 | the escaped length is the text's length plus its number of quotes and colons |
| DrawtextFilter.EscapedDelimiters | src/components/VideoEditor.tsx:137-139 | every `'` and `:` in the escaped text is preceded by a backslash |
| DrawtextFilter.UnescapeEscapeText | src/components/VideoEditor.tsx:137-139 | escaping is lossless: reading `\'` and `\:` back gives the original text |
| DrawtextFilter.TrailingBackslashBeforeClosingQuote | src/components/VideoEditor.tsx:137-139 | backslashes are not escaped: a text ending in `\` leaves a bare backslash directly before the quote that closes `text='...'` |
| DrawtextFilter.YExpr | src/components/VideoEditor.tsx:165-170 | definition, no contract of its own: `text_h` for top, `h-text_h` for bottom, `(h-text_h)/2` otherwise; what they place where is `YExprPlacement` |
| DrawtextFilter.YExprPlacement | src/components/VideoEditor.tsx:164-170 | top text starts one text height below the top, bottom text touches the bottom, middle text is centred, and for a tall enough frame they come in that order |
| DrawtextFilter.ColorToken | src/components/VideoEditor.tsx:173 | a colour without `#` is unchanged; otherwise the token is one character longer and keeps everything before the first `#` |
| DrawtextFilter.ColorTokenReplacesFirstHash | src/components/VideoEditor.tsx:172-173 | `#RRGGBB` becomes `0xRRGGBB`; only the first `#` is replaced, so one `#` fewer remains; a colour without `#` is unchanged |
| DrawtextFilter.GreenColorToken | src/components/VideoEditor.tsx:173 | `#00FF00` becomes `0x00FF00` |
| DrawtextFilter.EnableExpr | src/components/VideoEditor.tsx:180 | definition, no contract of its own: `between(t,<start>,<end>)` with the numbers as rendered |
| DrawtextFilter.ClauseOptions | src/components/VideoEditor.tsx:180 | definition, no contract of its own: colour token, size, centred x, the position's y and the enable window, in that order |
| DrawtextFilter.Clause | src/components/VideoEditor.tsx:178-180 | definition, no contract of its own: head, escaped text in quotes, options, box options; its layout is `ClauseFraming` |
| DrawtextFilter.ClauseFraming | src/components/VideoEditor.tsx:164-180 | a clause opens with `drawtext=` and the font file, has the escaped text right after `text='` closed by a quote, and ends with the box options |
| DrawtextFilter.TemplateFraming | src/components/VideoEditor.tsx:178-180 | the same layout for the template filled with any text and any options |
| DrawtextFilter.Clauses | src/components/VideoEditor.tsx:159-181 | definition, no contract of its own: one clause per subtitle, in list order |
| DrawtextFilter.FilterGraph | src/components/VideoEditor.tsx:159-184 | the filter chain is empty exactly when the committed list is, and otherwise opens with the first subtitle's clause |
| DrawtextFilter.FilterGraphAppend | src/components/VideoEditor.tsx:159-184 | one more subtitle at the end of the list adds `,` and exactly its clause at the end of the chain |
| DrawtextFilter.ExecArgs | src/components/VideoEditor.tsx:186-194 | definition, no contract of its own: the fixed seven-argument vector with the filter chain after `-vf`; see `EmptyListStillPassesFilter` and `FinishTranscode` |
| DrawtextFilter.EmptyListStillPassesFilter | src/components/VideoEditor.tsx:184-194 | an empty list still yields `-vf` followed by an empty string in the fixed argument vector |
| VideoEditor.AllSubtitles | src/components/VideoEditor.tsx:55-59 | while editing the preview list is the committed list; otherwise it is at most one longer, holds no blank entry and holds the draft when the draft is not blank |
| VideoEditor.AllSubtitlesComposition | src/components/VideoEditor.tsx:55-59 | while editing the preview list is the committed list exactly; otherwise it is the non-blank committed entries in order, then the draft iff its text is not all whitespace |
| VideoEditor.AllSubtitlesWithoutBlanks | src/components/VideoEditor.tsx:55-59 | while creating, with no blank committed entries, the preview list is the committed list, plus the draft unless it is blank |
| VideoEditor.WriteAt | src/components/VideoEditor.tsx:81-82 | an in-range write keeps the length and changes only that position; a write one past the end appends |
| VideoEditor.WriteAtIdempotent | src/components/VideoEditor.tsx:79-87 | writing the same subtitle at the same index twice equals writing it once |
| VideoEditor.RemoveAt | src/components/VideoEditor.tsx:132-135 | an in-range delete removes exactly that position and shifts later ones down by one; an out-of-range index changes nothing |
| VideoEditor.Editor.constructor | src/components/VideoEditor.tsx:29-47 | the editor starts with no subtitles, no edit target, the blank draft at `middle`, no video, zero times, no output and not processing |
| VideoEditor.Editor.Effective | src/components/VideoEditor.tsx:333 | the list handed to the player is the committed list while editing and has no blank entry otherwise |
| VideoEditor.Editor.Preview | src/components/VideoEditor.tsx:329-335 | with no video loaded nothing is drawn; otherwise exactly the entries of the list handed to the player that are on screen at the current time are drawn |
| VideoEditor.Editor.HandleSubtitleChange | src/components/VideoEditor.tsx:50-52 | the draft becomes the reported subtitle; nothing else changes |
| VideoEditor.Editor.HandleEditSubtitle | src/components/VideoEditor.tsx:74-77 | the edit target becomes the subtitle at the index and the edit index that index |
| VideoEditor.Editor.UpdateSubtitle | src/components/VideoEditor.tsx:79-87 | with an edit index the list becomes the write at it and target and index are cleared; without one nothing changes |
| VideoEditor.Editor.DeleteSubtitle | src/components/VideoEditor.tsx:132-135 | only the list changes, by the delete; edit target and index are untouched |
| VideoEditor.Editor.AddSubtitle | src/components/VideoEditor.tsx:283-293 | the submitted subtitle is appended unchecked and the draft resets to the blank subtitle at `middle` |
| VideoEditor.Editor.HandleVideoUpload | src/components/VideoEditor.tsx:121-129 | a chosen file and its URL are stored; no file changes nothing |
| VideoEditor.Editor.HandleLoadedMetadata | src/components/VideoEditor.tsx:216-225 | the duration is stored as reported |
| VideoEditor.Editor.HandleTimeUpdate | src/components/VideoEditor.tsx:62-72 | the playback time is stored as reported |
| VideoEditor.Editor.StartTranscode | src/components/VideoEditor.tsx:141-143 | without a video nothing changes; otherwise `processing` is raised and the committed list is the render's input |
| VideoEditor.Editor.FinishTranscode | src/components/VideoEditor.tsx:146-209 | `exec` is reached iff staging succeeded and then gets `-i input.mp4 -vf <chain of the committed list> -c:a copy output.mp4`; the output URL changes only on completion; failures alert; `processing` ends false |
| VideoEditor.SubmitForm | src/components/VideoEditor.tsx:282-299 | the edit callback is chosen iff the editor has an edit target, and receives the form's fields as they were; with a target the list becomes the write at the edit index and target and index are cleared; without one the fields are appended and the draft resets to `middle`; nothing else in the editor changes; the form ends blank at `bottom` and keeps its offset |

## Left out

- Loading FFmpeg (`load`, `toBlobURL`), staging the files, running it and
  reading the output back, and the Blob URLs: foreign library and network
  calls. `FinishTranscode` takes their combined outcome as an `FfmpegRun`
  value, and the URLs as plain strings.
- Log and progress messages, `console` output and the text of the alert: I/O.
- How JavaScript prints a number in a template literal and `toFixed` in the
  list: floating-point formatting. The filter functions take the rendering as
  the parameter `num`.
- `parseInt`, `Number` and NaN: parsing. The font size is an `int` and the
  offset a `real`.
- The video element's listeners, including the `timeupdate` listener that is
  registered twice: DOM plumbing. Their effect is `HandleTimeUpdate` and
  `HandleLoadedMetadata`, which store what they are given.
- Rendering, slider bounds and the `required` attribute: presentation only;
  the state never enforces them.
- React scheduling: effects and state updates are separate methods (`Seed`,
  `NotifyChange`, the handlers). The model does not decide when React runs
  them. Each handler acts on the current state, which matches the code when
  every event is handled after the previous one has re-rendered.
- The at-most-one-render rule: the code only disables the button while
  `processing`, and `StartTranscode` checks nothing, as `transcode` does.
- VideoEditor.Editor.Preview: the editor renders its whole layout only once
  FFmpeg has loaded (`loaded`, VideoEditor.tsx:269). Loading FFmpeg is not
  modelled, so the preview is what is drawn after loading; before it nothing
  is drawn at all.
- SubtitleForm.Form.SetCurrentTime: JavaScript adds the offset in IEEE double
  arithmetic, which rounds (0.1 + 0.2 is 0.30000000000000004). The contract
  states the exact real sum, `endTime - startTime == currentTimeOffset`.
- VideoEditor.WriteAt: when a stale edit index lies more than one past the
  end, JavaScript creates an array with holes, which later crashes the preview
  list. The model leaves the list unchanged there. This can only happen after
  two deletes during one edit.
- DrawtextFilter.EscapeText: backslashes are not escaped, as in the code, so
  a text ending in `\` puts a bare backslash before the closing quote
  (`TrailingBackslashBeforeClosingQuote`). How FFmpeg's option parser then
  reads the clause is not modelled.
- VideoEditor.Editor.HandleEditSubtitle: requires the index to be in the list,
  as it is for its only caller, the list's edit button.
- JavaScript strings are UTF-16 code units and Dafny characters are Unicode
  scalar values. The whitespace that `trim` strips lies in the basic plane, so
  nothing here depends on the difference.
- `src/components/ImageOverlayForm.tsx` is not part of this model. It is a
  file-picker form that nothing compiles or previews.
- `src/App.tsx` is not part of this model. It only wraps providers around the
  editor.
