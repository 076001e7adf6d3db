/**
 * `generate_video`: from a request and the outside world's answers to the
 * finished video's path, or the exception that ends the run. The network,
 * the file system and the media library are parameters; `purged` records
 * whether the last thing done to the temporary directory was to delete it.
 */
module VideoGenerator {
  import opened Wrappers
  import opened JsonValue
  import opened Outcomes
  import opened Models
  import opened Decimal
  import opened PathOps
  import opened Provider
  import opened Background
  import opened Timeline
  import Config

  // ----------------------------------------------------------------- canvas

  /** The canvas size comes from the platform alone; the requested resolution is not read. */
  function Canvas(p: VideoPlatform): (size: (nat, nat))
    ensures p == Reel ==> size == (Config.ReelWidth, Config.ReelHeight)
    ensures p == YouTube ==> size == (Config.YouTubeWidth, Config.YouTubeHeight)
  {
    if p == Reel then (Config.ReelWidth, Config.ReelHeight) else (Config.YouTubeWidth, Config.YouTubeHeight)
  }

  /** A reel is portrait 1080x1920 and a YouTube video landscape 1920x1080. */
  lemma CanvasOrientation(p: VideoPlatform)
    ensures IsPortrait(Canvas(p).0 as real, Canvas(p).1 as real) <==> p == Reel
    ensures Canvas(p).0 > 0 && Canvas(p).1 > 0
    ensures Canvas(Reel) == (1080, 1920) && Canvas(YouTube) == (1920, 1080)
  {
  }

  // ------------------------------------------------------------- file names

  /** `quran_{platform}_{surah}_{start}-{end}.mp4`. */
  function OutputName(req: VideoRequest): string
  {
    "quran_" + (PlatformValue(req.platform) + ("_" + (IntToString(req.surah) + ("_" +
    (IntToString(req.ayahStart) + ("-" + (IntToString(req.ayahEnd) + ".mp4")))))))
  }

  function OutputPath(outputDir: string, req: VideoRequest): string
  {
    Join(outputDir, OutputName(req))
  }

  /**
   * The output name is a key of the platform, surah and range: two requests
   * write the same file iff those four agree, whatever their reciter,
   * translation, background or resolution.
   */
  lemma {:induction false} OutputNameKey(a: VideoRequest, b: VideoRequest)
    ensures OutputName(a) == OutputName(b) <==>
      a.platform == b.platform && a.surah == b.surah && a.ayahStart == b.ayahStart && a.ayahEnd == b.ayahEnd
  {
    if OutputName(a) == OutputName(b) {
      OutputNameInjective(a, b);
    }
  }

  lemma OutputNameInjective(a: VideoRequest, b: VideoRequest)
    requires OutputName(a) == OutputName(b)
    ensures a.platform == b.platform && a.surah == b.surah && a.ayahStart == b.ayahStart && a.ayahEnd == b.ayahEnd
  {
    {
      var pa, pb := PlatformValue(a.platform), PlatformValue(b.platform);
      var ea, eb := IntToString(a.ayahEnd) + ".mp4", IntToString(b.ayahEnd) + ".mp4";
      var ra, rb := IntToString(a.ayahStart) + ("-" + ea), IntToString(b.ayahStart) + ("-" + eb);
      var qa, qb := IntToString(a.surah) + ("_" + ra), IntToString(b.surah) + ("_" + rb);
      assert pa + ("_" + qa) == OutputName(a)[6..] == pb + ("_" + qb);
      SplitAt(pa, '_', qa, pb, qb);
      PlatformRoundTrip(a.platform);
      PlatformRoundTrip(b.platform);
      SplitAfterNumeral(a.surah, b.surah, '_', ra, rb);
      SplitAfterNumeral(a.ayahStart, b.ayahStart, '-', ea, eb);
      assert IntToString(a.ayahEnd) == ea[..|ea| - 4] && IntToString(b.ayahEnd) == eb[..|eb| - 4];
      IntToStringInjective(a.ayahEnd, b.ayahEnd);
    }
  }

  /**
   * Lines 247-248 as written: the output directory is read from the settings
   * as `settings.OUTPUT_DIR`, a name `Settings` does not declare, so the
   * lookup raises AttributeError outside any handler; given the directory,
   * the file is the output name inside it.
   */
  function OutputFileAsWritten(req: VideoRequest, outputDir: string): (r: Result<string>)
    ensures r.Ok? <==> "OUTPUT_DIR" in Config.SettingNames
    ensures r.Ok? ==> r.value == OutputPath(outputDir, req)
    ensures r.Err? ==> r.failure == Failure(OtherError, OutputDirectory) && !Purges(r.failure.site)
  {
    if "OUTPUT_DIR" in Config.SettingNames then Ok(OutputPath(outputDir, req))
    else Err(Failure(OtherError, OutputDirectory))
  }

  /**
   * With the settings as declared, every run that reaches the composition
   * step ends in AttributeError (a 500) and leaves the temporary directory in
   * place, whatever the request.
   */
  lemma OutputDirectoryUndeclared(req: VideoRequest, outputDir: string)
    ensures OutputFileAsWritten(req, outputDir) == Err(Failure(OtherError, OutputDirectory))
    ensures HttpStatus(OutputFileAsWritten(req, outputDir), false) == 500
  {
    assert "OUTPUT_DIR" !in Config.SettingNames;
  }

  const DefaultBackgroundFile: string := "videos/default_background.mp4"
  const BackgroundFileName: string := "background_video.mp4"

  // ------------------------------------------------------------ environment

  /** The provider call's outcome: the decoded body, or the exception it raised. */
  datatype FetchResult = Response(body: Json) | FetchError(kind: ExcKind)

  /** Everything `generate_video` learns from outside. */
  datatype Environment = Environment(
    tempDir: string,
    outputDir: string,
    fetch: FetchResult,
    download: (string, string) -> bool,      // download_file(url, path)
    defaultBackgroundExists: bool,
    openAudio: string -> Option<NonNeg>,      // AudioFileClip(path).duration
    openVideo: string -> Option<Clip>,        // VideoFileClip(path)
    arabicFontExists: bool,
    measure: (Lang, Json) -> Option<nat>,     // TextClip(...).h, shaping included
    encodeError: Option<ExcKind>)             // what write_videofile raised, if anything

  // ------------------------------------------------------- phase 1: the data

  /**
   * Lines 35-69: fetch, find the editions and pick the Arabic and the English
   * edition.
   */
  function EditionsPhase(req: VideoRequest, env: Environment): Result<Selection>
  {
    match env.fetch
    case FetchError(kind) => Err(Failure(kind, FetchFailed))
    case Response(body) =>
      match Envelope(body)
      case Err(f) => Err(f)
      case Ok(editions) =>
        match EditionEntries(editions)
        case Err(f) => Err(f)
        case Ok(entries) => SelectPrefix(entries, req.reciterId, req.translationId, |entries|)
  }

  predicate BothFound(sel: Selection)
  {
    Found(sel.arabic) && Found(sel.english)
  }

  /** The ayah loop's input once both editions are found. */
  function AyahSource(req: VideoRequest, env: Environment, sel: Selection): Source
    requires BothFound(sel)
  {
    SourceOf(req, sel.arabic.value, sel.english.value, env.tempDir, env.download)
  }

  /**
   * Lines 35-107: pick the two editions, collect and download the ayahs in
   * range, and insist that there is one.
   */
  function FetchPhase(req: VideoRequest, env: Environment): Result<seq<AyahInfo>>
  {
    match EditionsPhase(req, env)
    case Err(f) => Err(f)
    case Ok(sel) => CollectPhase(req, env, sel)
  }

  function CollectPhase(req: VideoRequest, env: Environment, sel: Selection): Result<seq<AyahInfo>>
  {
    if !BothFound(sel) then Err(Failure(ValueError, MissingEditions))
    else
      match Segments(AyahSource(req, env, sel))
      case Err(f) => Err(f)
      case Ok(infos) => if infos == [] then Err(Failure(ValueError, NoAyahs)) else Ok(infos)
  }

  method FetchAyahs(req: VideoRequest, env: Environment) returns (r: Result<seq<AyahInfo>>)
    ensures r == FetchPhase(req, env)
  {
    if env.fetch.FetchError? {
      return Err(Failure(env.fetch.kind, FetchFailed));
    }
    var envelope := Envelope(env.fetch.body);
    if envelope.Err? {
      return Err(envelope.failure);
    }
    var entries := EditionEntries(envelope.value);
    if entries.Err? {
      return Err(entries.failure);
    }
    var selection := SelectEditions(entries.value, req.reciterId, req.translationId);
    if selection.Err? {
      return Err(selection.failure);
    }
    var sel := selection.value;
    if !BothFound(sel) {
      return Err(Failure(ValueError, MissingEditions));
    }
    var infos := ExtractSegments(AyahSource(req, env, sel));
    if infos.Err? {
      return Err(infos.failure);
    }
    if infos.value == [] {
      return Err(Failure(ValueError, NoAyahs));
    }
    r := infos;
  }

  /** Every failure of the data phase is classified as its raise statement says. */
  lemma FetchPhaseClassified(req: VideoRequest, env: Environment)
    ensures FetchPhase(req, env).Err? ==> WellClassified(FetchPhase(req, env).failure)
  {
    if env.fetch.Response? && Envelope(env.fetch.body).Ok? {
      var editions := Envelope(env.fetch.body).value;
      if EditionEntries(editions).Ok? {
        var entries := EditionEntries(editions).value;
        SelectionFailureClassified(entries, req.reciterId, req.translationId, |entries|);
        var sel := EditionsPhase(req, env);
        if sel.Ok? && BothFound(sel.value) {
          var src := AyahSource(req, env, sel.value);
          if Len(src.arabicAyahs).Some? {
            CollectFailureClassified(src, Len(src.arabicAyahs).value);
          }
        }
      }
    }
  }

  lemma {:induction false} SelectionFailureClassified(entries: seq<Json>, reciter: string, translation: string, k: nat)
    requires k <= |entries|
    ensures SelectPrefix(entries, reciter, translation, k).Err? ==>
      SelectPrefix(entries, reciter, translation, k).failure == Failure(OtherError, MalformedEntry)
    decreases k
  {
    if k > 0 {
      SelectionFailureClassified(entries, reciter, translation, k - 1);
    }
  }

  lemma {:induction false} CollectFailureClassified(src: Source, k: nat)
    ensures Collect(src, k).Err? ==>
      Collect(src, k).failure in {Failure(OtherError, MalformedEntry), Failure(OtherError, AudioDownload)}
    decreases k
  {
    if k > 0 {
      CollectFailureClassified(src, k - 1);
    }
  }

  /**
   * A reversed range never downloads an ayah: the run ends in an exception
   * raised before the ayah loop, on a malformed entry, or, once the editions
   * are found and the loop completes, in the ValueError "No ayahs found".
   */
  lemma ReversedRangeFails(req: VideoRequest, env: Environment)
    requires req.ayahStart > req.ayahEnd
    ensures FetchPhase(req, env).Err?
    ensures FetchPhase(req, env).failure.site != AudioDownload
    ensures (EditionsPhase(req, env).Ok? && BothFound(EditionsPhase(req, env).value) &&
             Segments(AyahSource(req, env, EditionsPhase(req, env).value)).Ok?) ==>
      FetchPhase(req, env) == Err(Failure(ValueError, NoAyahs))
  {
    FetchPhaseClassified(req, env);
    if env.fetch.Response? && Envelope(env.fetch.body).Ok? && EditionEntries(Envelope(env.fetch.body).value).Ok? {
      var entries := EditionEntries(Envelope(env.fetch.body).value).value;
      SelectionFailureClassified(entries, req.reciterId, req.translationId, |entries|);
    }
    var sel := EditionsPhase(req, env);
    if sel.Ok? && BothFound(sel.value) {
      var src := AyahSource(req, env, sel.value);
      if Len(src.arabicAyahs).Some? {
        ReversedRangeIsEmpty(src, Len(src.arabicAyahs).value);
      }
    }
  }

  /**
   * Asking for one identifier as both reciter and translation always raises:
   * once the editions are read, with the ValueError for a missing edition.
   */
  lemma SameEditionFails(req: VideoRequest, env: Environment)
    requires req.reciterId == req.translationId
    ensures FetchPhase(req, env).Err?
    ensures EditionsPhase(req, env).Ok? ==> FetchPhase(req, env) == Err(Failure(ValueError, MissingEditions))
  {
    if env.fetch.Response? && Envelope(env.fetch.body).Ok? {
      var editions := Envelope(env.fetch.body).value;
      if EditionEntries(editions).Ok? {
        var entries := EditionEntries(editions).value;
        if SelectPrefix(entries, req.reciterId, req.translationId, |entries|).Ok? {
          SameIdentifierNoTranslation(entries, req.reciterId);
        }
      }
    }
  }

  // --------------------------------------------------------- the whole run

  /** What is handed to the encoder. */
  datatype Composition = Composition(
    width: nat,
    height: nat,
    background: Clip,
    captions: seq<Caption>,
    ayahs: seq<AyahInfo>,
    duration: NonNeg)

  /**
   * The properties of the composed video: canvas-sized background exactly as
   * long as the narration, which is the sum of the ayahs' durations; at least
   * one ayah, all in the requested range; two captions per ayah, each pair
   * starting when its ayah starts and lasting as long as it.
   */
  predicate WellComposed(v: Composition, req: VideoRequest)
  {
    && (v.width, v.height) == Canvas(req.platform)
    && v.background == Clip(v.width as real, v.height as real, v.duration)
    && v.duration == TotalDuration(v.ayahs)
    && |v.ayahs| > 0
    && Measured(v.ayahs)
    && (forall i :: 0 <= i < |v.ayahs| ==> InRange(req, v.ayahs[i].ayahNumber))
    && |v.captions| == 2 * |v.ayahs|
    && (forall i :: 0 <= i < |v.ayahs| ==>
          && v.captions[2 * i].lang == Arabic && v.captions[2 * i + 1].lang == English
          && v.captions[2 * i].start == StartOf(v.ayahs, i) == v.captions[2 * i + 1].start
          && v.captions[2 * i].duration == v.ayahs[i].duration == v.captions[2 * i + 1].duration)
  }

  /**
   * The video narrates exactly the given ayahs, in order: each keeps its
   * texts, number and audio file and carries the duration its audio file
   * reports, and the captions are those ayahs' caption pairs on the canvas.
   */
  predicate Narrates(v: Composition, infos: seq<AyahInfo>, env: Environment)
  {
    && AudioOpens(infos, env.openAudio)
    && v.ayahs == Timed(infos, env.openAudio)
    && Renderable(v.ayahs, env.measure)
    && v.captions == Captions(v.ayahs, v.height, env.measure, |v.ayahs|)
  }

  /** Lines 110-118: the downloaded background, else the local default, else none. */
  function BackgroundFile(req: VideoRequest, env: Environment): Option<string>
  {
    var downloaded := Join(env.tempDir, BackgroundFileName);
    if env.download(req.backgroundUrl, downloaded) then Some(downloaded)
    else if env.defaultBackgroundExists then Some(DefaultBackgroundFile)
    else None
  }

  /** Lines 135-149: the background clip opened and turned upright for the canvas. */
  function OpenedBackground(req: VideoRequest, env: Environment): Option<Clip>
    requires BackgroundFile(req, env).Some?
  {
    match env.openVideo(BackgroundFile(req, env).value)
    case None => None
    case Some(c) => Some(Oriented(c, Canvas(req.platform).0, Canvas(req.platform).1))
  }

  /**
   * Lines 110-283 for the given ayahs, step by step: a background file
   * exists, every audio opens, the background opens, its geometry admits
   * the scaling and looping, the Arabic font exists, every caption can be
   * made, and the encoder does not raise.
   */
  predicate RenderSucceeds(req: VideoRequest, env: Environment, infos: seq<AyahInfo>)
  {
    && BackgroundFile(req, env).Some?
    && AudioOpens(infos, env.openAudio)
    && OpenedBackground(req, env).Some?
    && !AdaptFails(OpenedBackground(req, env).value, Canvas(req.platform).0, Canvas(req.platform).1,
                   TotalDuration(Timed(infos, env.openAudio)))
    && env.arabicFontExists
    && Renderable(Timed(infos, env.openAudio), env.measure)
    && env.encodeError.None?
  }

  /**
   * The exception of a run that does not succeed: the one raised by the
   * first step, in source order, whose condition fails. Only the geometry
   * step leaves the temporary directory behind.
   */
  function FirstFailure(req: VideoRequest, env: Environment, infos: seq<AyahInfo>): (f: Failure)
    requires !RenderSucceeds(req, env, infos)
    ensures WellClassified(f)
    ensures Purges(f.site) <==> f.site != BackgroundGeometry
    ensures f.site == Encode <==> RenderSucceeds(req, env.(encodeError := None), infos)
    ensures BackgroundFile(req, env).None? ==> f == Failure(OtherError, NoBackground)
  {
    if BackgroundFile(req, env).None? then Failure(OtherError, NoBackground)
    else if !AudioOpens(infos, env.openAudio) then Failure(OtherError, AudioLoad)
    else if OpenedBackground(req, env).None? then Failure(OtherError, BackgroundLoad)
    else if AdaptFails(OpenedBackground(req, env).value, Canvas(req.platform).0, Canvas(req.platform).1,
                       TotalDuration(Timed(infos, env.openAudio))) then Failure(OtherError, BackgroundGeometry)
    else if !env.arabicFontExists then Failure(OtherError, FontMissing)
    else if !Renderable(Timed(infos, env.openAudio), env.measure) then Failure(OtherError, TextClip)
    else Failure(env.encodeError.value, Encode)
  }

  function Fail(site: Site): Result<string>
  {
    Err(Failure(OtherError, site))
  }

  /**
   * The pipeline. The first failing step decides the exception; each raise
   * statement purges the temporary directory first, the success path purges
   * it at the end, and the unguarded steps leave it behind.
   */
  method GenerateVideo(req: VideoRequest, env: Environment)
    returns (r: Result<string>, video: Option<Composition>, ghost purged: bool)
    ensures r.Ok? ==> purged
    ensures r.Err? ==> (purged <==> Purges(r.failure.site))
    ensures r.Err? ==> WellClassified(r.failure)
    ensures FetchPhase(req, env).Err? ==> r == Err(FetchPhase(req, env).failure)
    ensures req.ayahStart > req.ayahEnd ==> r.Err?
    ensures req.reciterId == req.translationId ==> r.Err?
    ensures r.Ok? <==> video.Some?
    ensures r.Ok? ==> r.value == OutputPath(env.outputDir, req)
    ensures r.Ok? ==> WellComposed(video.value, req)
    ensures r.Ok? ==> FetchPhase(req, env).Ok? && Narrates(video.value, FetchPhase(req, env).value, env)
    ensures FetchPhase(req, env).Ok? ==> (r.Ok? <==> RenderSucceeds(req, env, FetchPhase(req, env).value))
    ensures FetchPhase(req, env).Ok? && r.Err? ==> r.failure == FirstFailure(req, env, FetchPhase(req, env).value)
  {
    purged := true;      // cleanup_temp_dir
    purged := false;     // os.makedirs

    FetchPhaseClassified(req, env);
    if req.ayahStart > req.ayahEnd {
      ReversedRangeFails(req, env);
    }
    if req.reciterId == req.translationId {
      SameEditionFails(req, env);
    }
    var fetched := FetchAyahs(req, env);
    if fetched.Err? {
      purged := Purges(fetched.failure.site);
      return Err(fetched.failure), None, purged;
    }
    SegmentsInRange(req, env);
    r, video, purged := Render(req, env, fetched.value);
  }

  /** The ayahs the data phase returns are non-empty and all in the requested range. */
  lemma SegmentsInRange(req: VideoRequest, env: Environment)
    requires FetchPhase(req, env).Ok?
    ensures |FetchPhase(req, env).value| > 0
    ensures forall i :: 0 <= i < |FetchPhase(req, env).value| ==> InRange(req, FetchPhase(req, env).value[i].ayahNumber)
  {
    var src := AyahSource(req, env, EditionsPhase(req, env).value);
    SegmentsAreRangeFilter(src, Len(src.arabicAyahs).value);
  }

  /**
   * Lines 109-325, from the background download to the encoded file, for a
   * non-empty list of ayahs in range.
   */
  method Render(req: VideoRequest, env: Environment, infos: seq<AyahInfo>)
    returns (r: Result<string>, video: Option<Composition>, ghost purged: bool)
    requires |infos| > 0 && forall i :: 0 <= i < |infos| ==> InRange(req, infos[i].ayahNumber)
    ensures r.Ok? ==> purged
    ensures r.Err? ==> (purged <==> Purges(r.failure.site))
    ensures r.Err? ==> WellClassified(r.failure)
    ensures r.Ok? <==> video.Some?
    ensures r.Ok? ==> r.value == OutputPath(env.outputDir, req)
    ensures r.Ok? ==> WellComposed(video.value, req)
    ensures r.Ok? ==> Narrates(video.value, infos, env)
    ensures r.Ok? <==> RenderSucceeds(req, env, infos)
    ensures r.Err? ==> r.failure == FirstFailure(req, env, infos)
  {
    video := None;
    purged := false;
    var (tw, th) := Canvas(req.platform);
    CanvasOrientation(req.platform);

    // Lines 110-118: the background file, or the local default.
    var backgroundFile := Join(env.tempDir, BackgroundFileName);
    if !env.download(req.backgroundUrl, backgroundFile) {
      if env.defaultBackgroundExists {
        backgroundFile := DefaultBackgroundFile;
      } else {
        purged := true;
        return Fail(NoBackground), None, purged;
      }
    }
    assert BackgroundFile(req, env) == Some(backgroundFile);

    var measured, total := MeasureAudio(infos, env.openAudio);
    if measured.Err? {
      purged := true;
      return Err(measured.failure), None, purged;
    }
    var ayahs := measured.value;
    TotalNonNegative(ayahs);

    // Lines 135-149: open the background and turn it upright for a portrait canvas.
    var openedClip := env.openVideo(backgroundFile);
    if openedClip.None? {
      purged := true;
      return Fail(BackgroundLoad), None, purged;
    }
    var background := Oriented(openedClip.value, tw, th);
    assert OpenedBackground(req, env) == Some(background);

    var adapted := Adapt(background, tw, th, total);
    if adapted.Err? {
      return Err(adapted.failure), None, purged;
    }

    // Lines 185-244: the captions.
    if !env.arabicFontExists {
      purged := true;
      return Fail(FontMissing), None, purged;
    }
    var captions, cumulative := BuildCaptions(ayahs, th, env.measure);
    if captions.Err? {
      purged := true;
      return Err(captions.failure), None, purged;
    }

    // Lines 247-283: compose and encode; a failed encode re-raises its exception.
    var path := OutputPath(env.outputDir, req);
    if env.encodeError.Some? {
      purged := true;
      return Err(Failure(env.encodeError.value, Encode)), None, purged;
    }

    purged := true;      // line 324
    r := Ok(path);
    CaptionsArePairs(ayahs, th, env.measure, |ayahs|);
    CompositionFacts(ayahs, infos, captions.value, th, env.measure, req);
    video := Some(Composition(tw, th, adapted.value, captions.value, ayahs, total));
  }

  lemma CompositionFacts(ayahs: seq<AyahInfo>, infos: seq<AyahInfo>, captions: seq<Caption>, th: nat,
                         measure: (Lang, Json) -> Option<nat>, req: VideoRequest)
    requires |ayahs| == |infos| && Renderable(ayahs, measure)
    requires forall i :: 0 <= i < |infos| ==> ayahs[i].ayahNumber == infos[i].ayahNumber
    requires forall i :: 0 <= i < |infos| ==> InRange(req, infos[i].ayahNumber)
    requires |captions| == 2 * |ayahs|
    requires forall i :: 0 <= i < |ayahs| ==>
      captions[2 * i..2 * i + 2] == CaptionPair(ayahs, i, th,
        measure(Arabic, ayahs[i].arabicText).value, measure(English, ayahs[i].englishText).value)
    ensures forall i :: 0 <= i < |ayahs| ==> InRange(req, ayahs[i].ayahNumber)
    ensures forall i :: 0 <= i < |ayahs| ==>
          && captions[2 * i].lang == Arabic && captions[2 * i + 1].lang == English
          && captions[2 * i].start == StartOf(ayahs, i) == captions[2 * i + 1].start
          && captions[2 * i].duration == ayahs[i].duration == captions[2 * i + 1].duration
  {
    forall i | 0 <= i < |ayahs|
      ensures captions[2 * i].lang == Arabic && captions[2 * i + 1].lang == English
      ensures captions[2 * i].start == StartOf(ayahs, i) == captions[2 * i + 1].start
      ensures captions[2 * i].duration == ayahs[i].duration == captions[2 * i + 1].duration
    {
      assert captions[2 * i..2 * i + 2] == CaptionPair(ayahs, i, th,
        measure(Arabic, ayahs[i].arabicText).value, measure(English, ayahs[i].englishText).value);
      assert captions[2 * i] == captions[2 * i..2 * i + 2][0];
      assert captions[2 * i + 1] == captions[2 * i..2 * i + 2][1];
    }
  }

  // ------------------------------------------------------------ HTTP status

  /**
   * The endpoint's answer: 200 with the file when the run returned a path
   * that exists, 400 for a ValueError, 500 for any other exception (a
   * missing file included).
   */
  function HttpStatus(r: Result<string>, outputExists: bool): (code: int)
    ensures code == 200 <==> r.Ok? && outputExists
    ensures code == 400 <==> r.Err? && r.failure.kind == ValueError
    ensures code == 500 <==> ((r.Ok? && !outputExists) || (r.Err? && r.failure.kind == OtherError))
  {
    match r
    case Ok(_) => if outputExists then 200 else 500
    case Err(f) => if f.kind.ValueError? then 400 else 500
  }
}
