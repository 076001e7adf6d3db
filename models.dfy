/**
 * The request a client posts: surah and ayah range, edition identifiers,
 * background locator, platform and resolution, with the model's defaults
 * and its admissible values.
 */
module Models {
  import opened Wrappers

  /** The two target platforms: REEL (9:16) and YOUTUBE (16:9). */
  datatype VideoPlatform = Reel | YouTube

  /** The wire string of a platform (the enum's value). */
  function PlatformValue(p: VideoPlatform): string
  {
    match p
    case Reel => "reel"
    case YouTube => "youtube"
  }

  /** Enum validation of a wire string: only the two values are accepted. */
  function ParsePlatform(s: string): (r: Option<VideoPlatform>)
    ensures r.Some? <==> s == "reel" || s == "youtube"
    ensures r.Some? ==> PlatformValue(r.value) == s
  {
    if s == "reel" then Some(Reel)
    else if s == "youtube" then Some(YouTube)
    else None
  }

  /** The wire strings and the platforms are in one-to-one correspondence. */
  lemma PlatformRoundTrip(p: VideoPlatform)
    ensures ParsePlatform(PlatformValue(p)) == Some(p)
    ensures forall q :: PlatformValue(q) == PlatformValue(p) ==> q == p
  {
  }

  /** `Literal[360, 480, 720, 1080]`. */
  predicate IsResolution(r: int)
  {
    r == 360 || r == 480 || r == 720 || r == 1080
  }

  type Resolution = r: int | IsResolution(r) witness 720

  const DefaultReciter: string := "ar.alafasy"
  const DefaultTranslation: string := "en.sahih"
  const DefaultBackground: string := "https://www.pexels.com/download/video/34464845/"
  const DefaultPlatform: VideoPlatform := Reel
  const DefaultResolution: Resolution := 720

  /**
   * A validated request. Surah and ayah bounds are plain integers: the model
   * puts no range on them and no order between start and end.
   */
  datatype VideoRequest = VideoRequest(
    surah: int,
    ayahStart: int,
    ayahEnd: int,
    reciterId: string,
    translationId: string,
    backgroundUrl: string,
    platform: VideoPlatform,
    resolution: Resolution)

  /** The fields of a request body as posted; None marks a field left out. */
  datatype RequestBody = RequestBody(
    surah: Option<int>,
    ayahStart: Option<int>,
    ayahEnd: Option<int>,
    reciterId: Option<string>,
    translationId: Option<string>,
    backgroundUrl: Option<string>,
    platform: Option<string>,
    resolution: Option<int>)

  function OrElse<T>(o: Option<T>, default: T): T
  {
    if o.Some? then o.value else default
  }

  /**
   * Model validation: the three integers are required, platform and
   * resolution must be admissible values when given, and every other field
   * left out takes its default.
   */
  function Validate(body: RequestBody): (r: Option<VideoRequest>)
    ensures r.Some? <==>
      body.surah.Some? && body.ayahStart.Some? && body.ayahEnd.Some? &&
      (body.platform.None? || body.platform.value in {"reel", "youtube"}) &&
      (body.resolution.None? || body.resolution.value in {360, 480, 720, 1080})
    ensures r.Some? ==>
      r.value.surah == body.surah.value && r.value.ayahStart == body.ayahStart.value &&
      r.value.ayahEnd == body.ayahEnd.value
    ensures r.Some? && body.reciterId.None? ==> r.value.reciterId == "ar.alafasy"
    ensures r.Some? && body.translationId.None? ==> r.value.translationId == "en.sahih"
    ensures r.Some? && body.backgroundUrl.None? ==> r.value.backgroundUrl == "https://www.pexels.com/download/video/34464845/"
    ensures r.Some? && body.platform.None? ==> r.value.platform == Reel
    ensures r.Some? && body.resolution.None? ==> r.value.resolution == 720
    ensures r.Some? && body.reciterId.Some? ==> r.value.reciterId == body.reciterId.value
    ensures r.Some? && body.translationId.Some? ==> r.value.translationId == body.translationId.value
    ensures r.Some? && body.backgroundUrl.Some? ==> r.value.backgroundUrl == body.backgroundUrl.value
    ensures r.Some? && body.platform.Some? ==> PlatformValue(r.value.platform) == body.platform.value
    ensures r.Some? && body.resolution.Some? ==> r.value.resolution == body.resolution.value
  {
    if body.surah.None? || body.ayahStart.None? || body.ayahEnd.None? then None
    else
      var platform := if body.platform.Some? then ParsePlatform(body.platform.value) else Some(DefaultPlatform);
      var resolution := OrElse(body.resolution, DefaultResolution);
      if platform.None? || !IsResolution(resolution) then None
      else Some(VideoRequest(
        body.surah.value, body.ayahStart.value, body.ayahEnd.value,
        OrElse(body.reciterId, DefaultReciter),
        OrElse(body.translationId, DefaultTranslation),
        OrElse(body.backgroundUrl, DefaultBackground),
        platform.value, resolution))
  }

  /**
   * Any three integers, in any order, make a valid request once the other
   * fields take their defaults (surah 115 or a reversed range included).
   */
  lemma BoundsUnconstrained(surah: int, start: int, end: int)
    ensures Validate(RequestBody(Some(surah), Some(start), Some(end), None, None, None, None, None)).Some?
  {
  }
}
