/**
 * How `generate_video` ends when it does not return a path: which Python
 * exception class leaves it and from which step. The HTTP layer only tells
 * ValueError apart from every other exception.
 */
module Outcomes {

  datatype ExcKind = ValueError | OtherError

  /** The step an exception leaves `generate_video` from. */
  datatype Site =
    | FetchFailed       // request, status or JSON decoding error, re-raised
    | EnvelopeType      // TypeError on a response body that is not a dict
    | NoDataField       // no 'data' in the response
    | NoEditionsField   // 'data' is neither a list nor a dict with 'editions'
    | MalformedEntry    // an edition or ayah entry Python cannot subscript
    | MissingEditions   // reciter or translation edition not found
    | AudioDownload     // an ayah's audio could not be downloaded
    | NoAyahs           // no ayah falls in the requested range
    | NoBackground      // background download failed, no local default
    | AudioLoad         // an audio file could not be opened
    | BackgroundLoad    // the background video could not be opened
    | BackgroundGeometry // division by a zero width, height or duration
    | FontMissing       // the Arabic font file does not exist
    | TextClip          // a subtitle clip could not be created
    | OutputDirectory   // `settings.OUTPUT_DIR` is not a setting (AttributeError)
    | Encode            // composition or encoding failed

  /**
   * Whether the temporary directory is purged before the exception leaves:
   * every raise statement is preceded by a purge, but the provider-entry
   * lookups, the background arithmetic and the output-directory lookup run
   * outside any handler.
   */
  predicate Purges(s: Site)
  {
    !(s.MalformedEntry? || s.BackgroundGeometry? || s.OutputDirectory?)
  }

  datatype Failure = Failure(kind: ExcKind, site: Site)

  /**
   * The exception class each step can raise: the explicit `raise ValueError`
   * statements give ValueError, `raise Exception` and the Python runtime
   * errors give another class, and a re-raised foreign exception keeps
   * whichever class it had.
   */
  predicate WellClassified(f: Failure)
  {
    match f.site
    case FetchFailed => true
    case Encode => true
    case NoDataField => f.kind == ValueError
    case NoEditionsField => f.kind == ValueError
    case MissingEditions => f.kind == ValueError
    case NoAyahs => f.kind == ValueError
    case _ => f.kind == OtherError
  }

  datatype Result<+T> = Ok(value: T) | Err(failure: Failure)
}
