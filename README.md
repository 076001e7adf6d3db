# Quran video backend — a Dafny model

This project models the core of a Quran video backend. A request names:

- a surah and an ayah range;
- a reciter edition and a translation edition;
- a background video URL;
- a platform: a 9:16 reel or a 16:9 YouTube video.

`generate_video` handles such a request in these steps:

1. It fetches both editions of the surah from the alquran.cloud API.
2. It picks the Arabic and the English edition from the response.
3. It keeps the ayahs in range and downloads each one's recitation.
4. It measures the recitations and lays them end to end into one timeline.
5. It turns the background video upright, scales and crops it to the canvas, then loops and trims it to the narration's length.
6. It places two captions per ayah, Arabic above English, at 70% of the canvas height. Each caption lasts as long as its ayah.
7. It encodes the result. The temporary asset directory is purged on success and on every guarded failure.

The model also covers three smaller pieces:

- **The still-image renderer** (`create_text_image`): it centres the two texts and draws each one as a 5×5 fan of black strokes under a coloured fill.
- **The progress logger**: it turns moviepy's bar updates into "Rendering: N%" callbacks.
- **The request model**: the platform enum and the request fields with their defaults.

Everything outside the code is a parameter of the model, carried in an `Environment` record. This covers:

- the HTTP response;
- `download_file`;
- whether the default background and the Arabic font exist;
- the audio and video decoders;
- TextClip heights;
- the encoder's outcome.

An exception is a `Failure(kind, site)`:

- `kind` is `ValueError`, which the endpoint maps to 400, or any other exception, which it maps to 500.
- `site` names the raise statement.

The ghost result `purged` of `GenerateVideo` records whether the temporary directory was deleted before the run ended.

Modules, one file each:

- `Wrappers`: Option.
- `Decimal`: `str(int)`, `zfill(3)` and parsing back.
- `JsonValue`: JSON values with Python's subscript, `len`, `get`, `in` and truthiness.
- `Outcomes`: exception kinds and sites.
- `Config`: settings constants.
- `Models`.
- `PathOps`: `os.path.join`.
- `Provider`: the response envelope, the edition loop and the ayah loop.
- `Background`: background geometry.
- `Timeline`: the audio loop, the caption loop and the caption layout.
- `VideoGenerator`: the whole run and the HTTP status.
- `TextRenderer`.
- `Progress`.

The model follows the code in these points:

- The canvas size depends on the platform alone. The `resolution` field is validated but never read.
- The output file name carries no correlation id. Two requests write the same file exactly when their platform, surah and range agree (`VideoGenerator.OutputNameKey`).
- The output directory is read as `settings.OUTPUT_DIR`, which `Settings` does not declare. The model takes the directory as `Environment.outputDir` (see "## Findings").
- Start > end is not rejected at validation. Such a request fails later with "No ayahs found" (`Models.BoundsUnconstrained`, `VideoGenerator.ReversedRangeFails`).
- Several failures are not guarded, so they leave the temporary directory behind:
  - malformed provider entries;
  - a zero-sized or zero-length background.
- The video captions sit at 70% of the height. The still-image renderer centres its texts vertically instead.

## Model

| member | source | states |
|---|---|---|
| Models.ParsePlatform | app/models.py:5-7 | exactly the wire strings "reel" and "youtube" are accepted, and the parsed platform's value is the string read |
| Models.PlatformRoundTrip | app/models.py:5-7 | parsing a platform's value gives the platform back; distinct platforms have distinct values |
| Models.Validate | app/models.py:9-17 | a body is accepted iff surah and both range ends are present and the platform and resolution, when given, are legal; absent fields take the defaults ar.alafasy, en.sahih, the pexels URL, reel and 720, and supplied values are kept |
| Models.BoundsUnconstrained | app/models.py:10-12 | any integers, zero, negative or reversed, pass as surah and range |
| Decimal.NatToStringValue | app/services/video_generator.py:33 | the decimal digits `str` writes for a natural number have that value |
| Decimal.IntToStringRoundTrip | app/services/video_generator.py:33 | `str(i)` parses back to i for every integer, negative included |
| Decimal.IntToStringInjective | app/services/video_generator.py:33 | distinct integers have distinct `str` numerals |
| Decimal.ZFill3Natural | app/services/video_generator.py:87-88 | `str(n).zfill(3)` is all digits, has value n, is at least 3 long and exactly 3 below 1000 |
| Decimal.ZFill3Injective | app/services/video_generator.py:87-88 | distinct naturals pad to distinct strings |
| PathOps.Join | app/services/video_generator.py:91 | `os.path.join`: an absolute name replaces the directory; a relative name follows a directory not ending in '/' after exactly one separator |
| PathOps.JoinInjective | app/services/video_generator.py:91 | joining one directory with distinct relative names gives distinct paths |
| Provider.Envelope | app/services/video_generator.py:41-51 | the editions list is `data` when it is a list, `data.editions` when it is a dict that has the key, and otherwise the run raises; from a dict body the raise is a ValueError |
| Provider.SelectEditions | app/services/video_generator.py:62-69 | the edition loop, run in order, yields `SelectPrefix` over all entries: the last reciter match and the last non-reciter translation match, or the first malformed entry's failure |
| Provider.SelectionFails | app/services/video_generator.py:62-64 | the edition loop raises iff some entry has no readable identifier |
| Provider.ArabicIsLastMatch | app/services/video_generator.py:66-67 | the Arabic edition found is the last entry whose identifier equals the reciter id, and is absent when no entry matches |
| Provider.EnglishIsLastMatch | app/services/video_generator.py:68-69 | the English edition found is the last entry whose identifier equals the translation id but not the reciter id (the `elif`) |
| Provider.SameIdentifierNoTranslation | app/services/video_generator.py:66-73 | with the same id as reciter and translation, no English edition is ever found |
| Provider.AudioLocator | app/services/video_generator.py:84-89 | a non-empty string `audio` field is used as is; an absent or falsy one gives the everyayah.com URL built from the reciter and the zero-padded surah and ayah |
| Provider.FallbackAudioUrlInjective | app/services/video_generator.py:87-89 | below 1000, distinct (surah, ayah) pairs give distinct fallback URLs |
| Provider.AudioPathInjective | app/services/video_generator.py:91 | two ayahs of one surah below 1000 never share an audio file |
| Provider.ExtractSegments | app/services/video_generator.py:75-103 | the ayah loop, run in order, yields `Segments`: the in-range ayahs with their downloads, or the first malformed entry's or failed download's failure |
| Provider.SelectedIndices | app/services/video_generator.py:75-80 | the indices the loop keeps are listed ascending, below the bound, exactly those whose number lies in the range |
| Provider.CollectFollowsSelected | app/services/video_generator.py:75-103 | a loop that completes records one entry per kept index, in index order, each from that index's iteration |
| Provider.StepKept | app/services/video_generator.py:78-80 | an iteration that does not raise skips exactly the ayahs outside the range |
| Provider.TakeRecords | app/services/video_generator.py:80-103 | a kept ayah records its number, both texts at its index, its audio path in the temp dir, and duration 0 |
| Provider.SegmentsAreRangeFilter | app/services/video_generator.py:75-103 | the collected ayahs are the in-range ones in order, with number, texts and audio path taken from the same index |
| Provider.ReversedRangeIsEmpty | app/services/video_generator.py:75-103 | with start > end the loop collects nothing and downloads nothing: it can only fail on a malformed entry |
| Background.Oriented | app/services/video_generator.py:141-145 | a landscape or square background is turned a quarter for a portrait canvas (sides swapped, duration kept); otherwise it is left alone |
| Background.ScaledFrameCovers | app/services/video_generator.py:151-157 | after scaling by max(tw/w, th/h) when above 1, the frame covers the canvas on both sides |
| Background.CentreWindowFits | app/services/video_generator.py:159-164 | a centred crop of a covering frame lies inside it and is exactly the canvas size |
| Background.LoopOutlasts | app/services/video_generator.py:166-168 | `int(T/d) + 2` copies last strictly longer than T |
| Background.Adapt | app/services/video_generator.py:151-170 | the adapted background is canvas-sized and exactly as long as the narration; it fails iff a zero side is divided by or a zero-length clip is looped |
| Timeline.MeasureAudio | app/services/video_generator.py:120-131 | the audio loop succeeds iff every file opens, and then returns `Timed`: each ayah with its file's duration; the total is the sum of the durations; otherwise it raises the audio-loading exception |
| Timeline.Timed | app/services/video_generator.py:123-126 | the measured ayahs are the given ones, in order and one for one, each with the non-negative duration its audio file reports |
| Timeline.StartOfNext | app/services/video_generator.py:232-240 | each ayah's captions start where the previous ayah's end |
| Timeline.TotalAppend | app/services/video_generator.py:128 | total durations add over concatenation |
| Timeline.TotalNonNegative | app/services/video_generator.py:128 | the narration's length is never negative |
| Timeline.StretchWithinTotal | app/services/video_generator.py:232-240 | each ayah's window lies within [0, total] |
| Timeline.StartOfEnd | app/services/video_generator.py:240 | the last ayah ends at the total length |
| Timeline.MarginsFitCanvas | app/services/video_generator.py:176-177 | the margin is `int(tw*0.08)` and margin, wrap width and margin fill the width exactly |
| Timeline.FontConstants | app/services/video_generator.py:178-180 | caption sizes are 70 and 52, spacing 35, each the truncation of its product |
| Timeline.BlockLayout | app/services/video_generator.py:225-229 | the English caption sits one padded Arabic height plus the spacing below the Arabic one, and the padded block is centred on 70% of the height |
| Timeline.BuildCaptions | app/services/video_generator.py:189-244 | succeeds iff every text renders, and then yields the pairs of all ayahs in order; the running total ends at the total length |
| Timeline.CaptionsArePairs | app/services/video_generator.py:225-239 | two captions per ayah: entries 2i and 2i+1 are ayah i's Arabic and English captions, placed by the layout, starting at the ayah's start and lasting its duration |
| VideoGenerator.Canvas | app/services/video_generator.py:22-28 | reels are 1080x1920 and YouTube videos 1920x1080, whatever the resolution |
| VideoGenerator.CanvasOrientation | app/services/video_generator.py:22-28 | the canvas is portrait iff the platform is a reel |
| VideoGenerator.OutputNameKey | app/services/video_generator.py:248 | two requests get the same output name iff their platform, surah, start and end agree |
| VideoGenerator.OutputNameInjective | app/services/video_generator.py:248 | equal output names come from equal platform, surah, start and end (numerals and separators read back unambiguously, negative numbers included) |
| VideoGenerator.OutputFileAsWritten | app/services/video_generator.py:247-248 | as written, the lookup of `settings.OUTPUT_DIR` succeeds iff `Settings` declares that name, and otherwise raises a non-ValueError that leaves the temp dir in place |
| VideoGenerator.OutputDirectoryUndeclared | app/services/video_generator.py:247-248 | with the settings as declared, every run reaching composition ends in AttributeError and a 500 |
| VideoGenerator.FetchAyahs | app/services/video_generator.py:35-107 | the data phase returns exactly `FetchPhase`: the fetch, the envelope, the edition loop, the missing-edition check, the ayah loop and the empty-range check, in that order |
| VideoGenerator.FetchPhaseClassified | app/services/video_generator.py:35-107 | every data-phase failure has the exception kind its raise statement gives |
| VideoGenerator.SelectionFailureClassified | app/services/video_generator.py:62-69 | the edition loop only raises for a malformed entry |
| VideoGenerator.CollectFailureClassified | app/services/video_generator.py:75-103 | the ayah loop only raises for a malformed ayah or a failed download |
| VideoGenerator.ReversedRangeFails | app/services/video_generator.py:75-107 | a reversed range always fails the data phase and never on an audio download; once both editions are found and the ayah loop completes, the failure is the ValueError "No ayahs found" (a 400) |
| VideoGenerator.SameEditionFails | app/services/video_generator.py:71-73 | asking for one edition as both reciter and translation always fails the data phase; once the edition loop passes, the failure is the ValueError for a missing edition (a 400) |
| VideoGenerator.SegmentsInRange | app/services/video_generator.py:75-107 | a successful data phase yields at least one ayah, all in range |
| VideoGenerator.GenerateVideo | app/services/video_generator.py:16-325 | success returns the output path and a well-composed video that narrates exactly the ayahs of the data phase, in order, each with the duration its audio file reports, with their caption pairs; success purges; a failure is classified by its raise site and purges iff that site is guarded; data-phase failures pass through unchanged; after a successful data phase the run succeeds iff `RenderSucceeds` holds for its ayahs, and otherwise fails with their `FirstFailure`; reversed ranges and identical editions always fail |
| VideoGenerator.Render | app/services/video_generator.py:109-325 | from the background download to the encode, with the same guarantees for a non-empty in-range ayah list: the run succeeds iff `RenderSucceeds`: a background file (downloaded or the local default), every audio opening, the background opening, a geometry that admits scaling and looping, the Arabic font, every caption and the encode; otherwise it raises `FirstFailure`; on success the video's ayahs are the given ones with their measured durations and its captions are their caption pairs |
| VideoGenerator.FirstFailure | app/services/video_generator.py:110-283 | a failed run raises the exception of its first failing step in source order; it is classified by that step, it purges unless it is the geometry step, and it is the encoder's exception iff every earlier step passes; with no background file and no default the run raises "Failed to download background video" |
| VideoGenerator.CompositionFacts | app/services/video_generator.py:189-240 | caption 2i is Arabic and 2i+1 English, both starting at ayah i's start and lasting its duration |
| VideoGenerator.HttpStatus | app/api/v1/endpoints.py:11-27 | 200 iff a path was returned and exists, 400 iff a ValueError was raised, 500 otherwise |
| TextRenderer.LoadFonts | app/services/text_renderer.py:13-20 | both TrueType fonts (70 and 52) iff both load, otherwise both default; never one of each |
| TextRenderer.Centre | app/services/text_renderer.py:35-42 | the floor-halved offset leaves margins that differ by at most one pixel |
| TextRenderer.TextLayout | app/services/text_renderer.py:22-43 | each text is centred horizontally, the block (Arabic, 40 px gap, English) is centred vertically, English below Arabic |
| TextRenderer.Drawing.constructor | app/services/text_renderer.py:10-11 | a new image of the given size with nothing drawn |
| TextRenderer.Drawing.Text | app/services/text_renderer.py:53 | a text call is appended to the image's drawing calls |
| TextRenderer.DrawOutlined | app/services/text_renderer.py:50-54 | the nested offset loops append the 25 stroke calls then the fill |
| TextRenderer.OutlineShape | app/services/text_renderer.py:45-60 | an outlined text is 25 black strokes, one at each offset in [-2,2]x[-2,2], none repeated, and then the single fill, last |
| TextRenderer.CreateTextImage | app/services/text_renderer.py:5-63 | the image is width x height and holds the outlined Arabic text then the outlined English text at the centred layout; the path is returned |
| Progress.Trunc | app/utils/progress.py:20 | `int(x)` truncates toward zero |
| Progress.PercentageBounds | app/utils/progress.py:17-20 | the percentage is the whole part of value/total*100; in 0..100 inside the bar, at least 100 past its end, at most 0 before its start |
| Progress.ShareBounds | app/utils/progress.py:20 | the share is non-negative iff the value is, at most 100 inside the bar and at least 100 past its end |
| Progress.MessageRoundTrip | app/utils/progress.py:23 | the percentage can be read back exactly from its "Rendering: N%" message |
| Progress.MessageInjective | app/utils/progress.py:23 | distinct percentages give distinct messages |
| Progress.ProgressLogger.constructor | app/utils/progress.py:4-7 | keeps the callback, empty last message, no bars |
| Progress.ProgressLogger.BarsCallback | app/utils/progress.py:13-23 | with a callback and a known bar of positive total, the callback receives exactly one report (percentage, message); otherwise nothing |
| Progress.ProgressLogger.CallbackTrait | app/utils/progress.py:9-11 | changes nothing |
| Progress.ProgressLogger.Log | app/utils/progress.py:25-30 | nothing is forwarded to the callback |

## Left out

- VideoGenerator.GenerateVideo: the output directory is the parameter `Environment.outputDir`. As written, lines 247-248 read `settings.OUTPUT_DIR`, which `Settings` (app/core/config.py:4-38) does not declare. That raises AttributeError before composing, so the success path the model proves is the evidently intended one (see "## Findings").

- HTTP, the file system, moviepy, PIL and ffmpeg are not modelled. Their results are parameters: the fetch outcome, `download_file`, the existence checks, the audio and video decoders, the TextClip height and bbox oracles, and the encoder's outcome.
- Arabic shaping and sentence formatting (`formatArabicSentences`, app/utils/arabic.py) are not modelled. They are folded into the caption-height oracle.
- The caption clips' widths, wrapping, stroke, margins and interline are not modelled; only the heights and positions are.
- `concatenate_audioclips` (video_generator.py:133) is assumed not to fail.
- Logging, `gc.collect` and the closing of clips in `finally` are not modelled. They do not change the outcome.
- Background.Cropped: only crops of a frame that covers the canvas are modelled, the only ones the pipeline makes. moviepy's clamping of a window larger than the frame is not.
- Background.Adapt: floating-point rounding of the scale and crop is not modelled. Geometry and durations are exact reals, and the result is stated as exactly canvas-sized and narration-long.
- Progress.PercentageBounds: it is proved over exact reals. Float rounding of `current / total * 100` is left out.
- A `numberInSurah` that is a bool or a float, which Python would compare as a number, is treated as a malformed entry. Only JSON integers are in range.
- A truthy non-string `audio` field is treated as a failed download, which is what `download_file` reports for it.
- The removal of a partially written output file after a failed encode is not modelled. Only the purge of the temporary directory is.
- pydantic coercion of strings to ints is not modelled. Request fields arrive already typed, with `None` for a field left out.
- `Settings` loading from `.env` is not modelled. The constants are the defaults, and the font paths are relative to the project directory.
- The `download_file` and `cleanup_temp_dir` helpers (app/utils/file_ops.py) are not part of this model.
- TextRenderer.CreateTextImage: PIL's refusal of a negative image size is not modelled; sizes are naturals.
- Progress.ProgressLogger.SetTotal stands for proglog registering a bar with its total. proglog itself is not part of this model.

## Findings

| source | as written | input that shows it | evidently intended | confidence | as-written member | corrected member |
|---|---|---|---|---|---|---|
| app/services/video_generator.py:247-248 | the output directory is read as `settings.OUTPUT_DIR`, but `Settings` (app/core/config.py:4-38) declares no such field, so the lookup raises AttributeError outside any handler: the request gets a 500 and the temporary directory is not purged | any request whose ayahs, background and captions all succeed | the video is written into a configured output directory and its path returned | high (not executed) | VideoGenerator.OutputDirectoryUndeclared | VideoGenerator.GenerateVideo |
