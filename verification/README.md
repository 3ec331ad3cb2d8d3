# ShortMaker core in Dafny

ShortMaker is a mock "video to shorts" page. A user picks a video file. The
page checks it, shows a progress bar while a run pretends to process it, and
lists three made-up "shorts". This project models the logic under that page
and proves what it promises:

- **The upload check** (`validateVideoFile`). Which files are accepted, which
  message a refused file gets, and which check comes first.
- **The duration text** (`formatDuration`). A number of seconds written as
  `m:ss`, with JavaScript's own arithmetic: `Math.floor`, a `%` that keeps the
  sign of the dividend, `toString` and `padStart`. Non-negative counts round
  trip through a reader of `m:ss` text. The texts of non-negative counts are
  exactly the `m:ss` texts; a negative count gives text such as `-1:-5`.
- **The processing hook** (`useVideoProcessor`). Its two pieces of state are a
  "processing" flag and the current progress (percentage, stage and message).
  A run raises the flag and sets four fixed progress steps in order. It then
  returns three mock results, or the one generic error when something fails.
  The flag is cleared on every way out. `reset` restores the initial state.
- **The mock results** (`generateMockResults`). Three records with fixed ids,
  titles and links. Their durations come from a table keyed by the target
  length.

The hook is a class, `VideoProcessor.VideoProcessorHook`. Its fields are the
two state variables, and its methods call the two setters in the order the
source does. A ghost log records every setter call. The object invariant
`Valid()` says the fields are always the replay of that log from the initial
state, so each method's effect is stated as a list of setter calls
(`RunUpdates`, `ResetUpdates`). The lemmas about replaying those lists give
the properties of a run: the flag is held, the progress only rises from the
first step on, and the state at the end is known. A run does not reset the
progress when it starts: until its first step is set, the hook's state still
holds the previous progress. After a completed run, the hook's state in the
next run holds 100 percent with the flag up, then 20 percent
(`SecondRunFallsBack`). That intermediate state is never rendered, since the
flag and the first step are set in one synchronous stretch.

Files:

- `wrappers.dfy`: `Option` and `Result`.
- `decimal.dfy`: the decimal text of integers and a reader for it.
- `utils.dfy`: the upload check and the duration text.
- `types.dfy`: the enumerations and records shared by the page.
- `video_processor.dfy`: the hook and the mock results.

Every function and lemma is pure. The hook's methods are the only code that
changes state.

## Model

| member | source | states |
|---|---|---|
| Decimal.NatToString | src/lib/utils.ts:21 | The text of a non-negative integer starts with a digit. It is a single character exactly when the number is below 10. |
| Decimal.NatToStringCanonical | src/lib/utils.ts:21 | The text of a number is canonical: digits only, and no leading zero unless it is `0` itself. |
| Decimal.NatToStringRoundTrip | src/lib/utils.ts:21 | Reading back the text of `n` gives `n`. |
| Decimal.CanonicalRoundTrip | src/lib/utils.ts:21 | Every canonical digit text is the text of its own value, so writing and reading are mutually inverse. |
| Decimal.IntToString | src/lib/utils.ts:21 | An integer's text starts with `-` exactly when the integer is negative. |
| Decimal.IntToStringReadsBack | src/lib/utils.ts:21 | After the sign, an integer's text reads back as its magnitude; a non-negative integer's whole text reads back as the integer. |
| Utils.ValidateVideoFile | src/lib/utils.ts:24-43 | A file is accepted if and only if its type is one of the four video types and its size is at most 500 MiB. An error is present exactly when the file is refused. A refused type gets the format message. An accepted type that is too large gets the size message. |
| Utils.TypeCheckTakesPrecedence | src/lib/utils.ts:28-33 | A file with a refused type that is also too large gets the format message, never the size message. |
| Utils.CeilingIsInclusive | src/lib/utils.ts:35-40 | Exactly 524288000 bytes passes; one byte more gets the size message. |
| Utils.ValidationIgnoresName | src/lib/utils.ts:24-43 | The verdict depends on the type and the size only, never on the file name. |
| Utils.JsRemainder | src/lib/utils.ts:20 | For a positive divisor, the remainder has the sign of the dividend and is smaller than the divisor in magnitude. |
| Utils.JsRemainderValue | src/lib/utils.ts:20 | The dividend is a multiple of the divisor plus the remainder. With the sign and size bounds this is exactly JavaScript's truncating `%`. |
| Utils.PadStart | src/lib/utils.ts:21 | The padded text is as long as the target width, or as long as the input when the input is already that long. |
| Utils.PadStartContents | src/lib/utils.ts:21 | The padded text ends with the input, and every character before it is the pad character. |
| Utils.FormatDuration | src/lib/utils.ts:18-22 | The text has at least four characters. It starts with `-` exactly when the count is negative. |
| Utils.FormatDurationOfNat | src/lib/utils.ts:18-22 | For a non-negative count the text is the minutes (rounded down), a colon, and the remaining seconds padded with `0` to two characters. |
| Utils.PaddedSeconds | src/lib/utils.ts:21 | The padded text of a number below 60 is two digits spelling that number. |
| Utils.FormatDurationShape | src/lib/utils.ts:18-22 | For a non-negative count the text is `m:ss`: the minutes field reads back as the count div 60, and the last two characters spell the count mod 60, from 00 to 59. |
| Utils.FormatDurationRoundTrip | src/lib/utils.ts:18-22 | Reading the text back gives the original non-negative count. |
| Utils.FormattedIsDurationText | src/lib/utils.ts:18-22 | The text is in `m:ss` form if and only if the count is non-negative. In that case it reads back as the count. |
| Utils.DurationTextIsFormatted | src/lib/utils.ts:18-22 | Every `m:ss` text is the formatting of the count it reads back as. |
| Utils.FormatDurationImage | src/lib/utils.ts:18-22 | For a non-negative count, a text is its formatting if and only if the text is `m:ss` and reads back as the count. |
| Utils.NegativeSecondsText | src/lib/utils.ts:18-22 | Negative counts keep JavaScript's arithmetic. `-5` gives `-1:-5` and `-61` gives `-2:-1`. The negative remainder is not padded. |
| VideoProcessor.CompletedSteps | src/hooks/useVideoProcessor.ts:20-62 | A run gets through all four progress updates unless it fails. A failure after `k < 4` updates stops it at `k`. A failure while the results are generated comes after all four updates. |
| VideoProcessor.RunUpdatesInOrder | src/hooks/useVideoProcessor.ts:18-65 | A run's setter calls, in order: flag up first and flag down last, on success and on failure alike. In between come the fixed steps in their order, cut off where a failure strikes. |
| VideoProcessor.RunOutcome | src/hooks/useVideoProcessor.ts:18-65 | From any state, a run leaves the flag cleared. The progress is the last step the run set, or unchanged if it set none. |
| VideoProcessor.SuccessfulRunEndsComplete | src/hooks/useVideoProcessor.ts:49-65 | A run without a failure ends at 100 percent, in the complete stage, with the flag cleared. |
| VideoProcessor.RunPrefix | src/hooks/useVideoProcessor.ts:18-53 | The hook's state after every setter call of a run before its last: the flag is up. Right after the flag goes up, the progress is still the previous state's value; after that it is the latest step set so far. |
| VideoProcessor.RunStepsAdvance | src/hooks/useVideoProcessor.ts:22-53 | The four steps rise strictly in percentage and in stage. Their stages are uploading, processing, generating and complete, in that order. The last step is 100 percent, complete. |
| VideoProcessor.ProgressMonotoneWithinRun | src/hooks/useVideoProcessor.ts:22-53 | Once the first step is set, the percentage and stage in the hook's state never go back during the run. They rise strictly while steps are being set. |
| VideoProcessor.SecondRunFallsBack | src/hooks/useVideoProcessor.ts:18-26 | A run does not reset the progress when it starts. After a completed run, the hook's state after the next run's first setter call still holds 100 percent with the flag up. After its first step it holds 20 percent, uploading, with the flag still up. |
| VideoProcessor.FlagHeldDuringRun | src/hooks/useVideoProcessor.ts:18-65 | The flag is up from a run's first setter call until its last one, and down after it. |
| VideoProcessor.ResetRestoresInitial | src/hooks/useVideoProcessor.ts:68-75 | `reset` brings any state back to the initial one. Resetting twice is the same as resetting once. |
| VideoProcessor.GenerateMockResults | src/hooks/useVideoProcessor.ts:85-109 | Exactly three results. The first and third have the same duration. |
| VideoProcessor.MockResultFields | src/hooks/useVideoProcessor.ts:101-109 | The result at position `i` (from 0) is numbered `i + 1`: id `short-<i+1>`, links `#download-<i+1>` and `#preview-<i+1>`. It has an empty thumbnail, the `i`-th fixed title, and the size label of its own draw. |
| VideoProcessor.MockDurationTable | src/hooks/useVideoProcessor.ts:86-99 | The first and third durations are `0:` followed by the target length. The second is `0:28`, `0:58` or `0:85` for a target of 30, 60 or 90. |
| VideoProcessor.MockIdsDistinct | src/hooks/useVideoProcessor.ts:102 | The ids of one batch are pairwise distinct. |
| VideoProcessor.MockResultsDependOnDurationOnly | src/hooks/useVideoProcessor.ts:85-99 | For the same size draws, the results depend on the target length only: the file, the style and the quality are never read. |
| VideoProcessor.ThirtySecondTableIsFormatted | src/hooks/useVideoProcessor.ts:86-99 | For a 30-second target the durations are exactly what `formatDuration` gives for 30, 28 and 30 seconds. |
| VideoProcessor.LongerTablesAreNotFormatted | src/hooks/useVideoProcessor.ts:86-99 | For 60 and 90 seconds, `0:60`, `0:90` and `0:85` are not the formatting of any count. Only `0:58` is (of 58 seconds). |
| VideoProcessor.VideoProcessorHook.constructor | src/hooks/useVideoProcessor.ts:7-12 | The hook starts not processing, at 0 percent, uploading, "Preparando...", with an empty log. |
| VideoProcessor.VideoProcessorHook.SetIsProcessing | src/hooks/useVideoProcessor.ts:7 | The flag setter replaces the flag only and logs the call. |
| VideoProcessor.VideoProcessorHook.SetProgress | src/hooks/useVideoProcessor.ts:8-12 | The progress setter replaces the progress only and logs the call. |
| VideoProcessor.VideoProcessorHook.ProcessVideo | src/hooks/useVideoProcessor.ts:14-66 | The run makes exactly the setter calls `RunUpdates(fault)`, and the new state is their replay. The flag ends cleared. Without a failure the result is the three mock results and the progress is the complete step. With a failure the result is the single "Falha no processamento do vídeo" error. |
| VideoProcessor.VideoProcessorHook.TakeSteps | src/hooks/useVideoProcessor.ts:20-53 | Makes the progress updates of the steps the run gets through, and no other setter call. It reports a failure exactly when the fault strikes. The flag is untouched, and the progress is the last step set (unchanged if none). |
| VideoProcessor.VideoProcessorHook.Reset | src/hooks/useVideoProcessor.ts:68-75 | Clears the flag, then restores the initial progress. The new state is the initial state. |

## Left out

- Waiting: the three timed waits between the steps (src/hooks/useVideoProcessor.ts:28, 37, 46) only pace the display. A run is modelled as a straight sequence of setter calls.
- Overlapping runs: two runs in flight at once, or a `reset` during a run, are not modelled. Each method runs to its end before the next starts.
- React's rendering: setter calls made in one synchronous stretch are rendered together (a run's flag and first step; the two calls of `reset`), so the state after a run's first setter call is never rendered. The model states the hook's state after each call.
- Failures: the source's steps cannot fail on their own. Where a run breaks is a `Fault` parameter of `ProcessVideo`; a failure while the results are generated is `FailAfter(k)` with `k >= 4`.
- Error logging: the `console.error` call in the catch block is output only and is not modelled.
- VideoProcessor.GenerateMockResults: the size is a random number between 2 and 4 formatted with `toFixed(1)`. The model takes the rounded value in tenths of a megabyte as a parameter (`sizeTenths`), so it does not state the 2.0–4.0 range or the floating-point rounding.
- Utils.FormatDuration: takes whole numbers of seconds. Fractional inputs, counts beyond 2^53, and `toString`'s exponent notation for huge numbers are not modelled.
- Utils.ValidateVideoFile: the file is its name, size and declared media type. The file's contents and the browser's `File` object are not modelled.
- `generateThumbnail`, `formatFileSize` and `cn` in src/lib/utils.ts are not part of this model. They are a canvas drawing, a byte-size label and a class-name joiner.
- The page and the results view (`src/app/page.tsx`, `src/components/Results.tsx`) are not part of this model, including the total-time sum the results view shows.
- The option lists and stage labels in `src/lib/constants.ts` appear only as the enumerations in `types.dfy`.
