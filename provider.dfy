/**
 * What the pipeline does with the scripture provider's response: find the
 * list of editions in the envelope, pick the reciter's and the translation's
 * edition, keep the ayahs of the requested range paired by position, and
 * download each one's audio under a deterministic name.
 */
module Provider {
  import opened Wrappers
  import opened JsonValue
  import opened Outcomes
  import opened Models
  import opened Decimal
  import opened PathOps

  // ---------------------------------------------------------------- envelope

  /**
   * The editions value of a response body: `data` itself when it is a list,
   * `data['editions']` when `data` is a dict holding that key. A dict body
   * without the right shape gives ValueError; a body that is not a dict gives
   * TypeError, from `in` or from the subscript.
   */
  function Envelope(body: Json): (r: Result<Json>)
    ensures r.Ok? <==>
      body.Obj? && "data" in body.fields &&
      (body.fields["data"].Arr? || (body.fields["data"].Obj? && "editions" in body.fields["data"].fields))
    ensures r.Ok? && body.fields["data"].Arr? ==> r.value == body.fields["data"]
    ensures r.Ok? && body.fields["data"].Obj? ==> r.value == body.fields["data"].fields["editions"]
    ensures r.Err? && body.Obj? ==> r.failure.kind == ValueError
    ensures r.Err? ==> WellClassified(r.failure) && r.failure.site in {EnvelopeType, NoDataField, NoEditionsField}
  {
    match Contains(body, "data")
    case None => Err(Failure(OtherError, EnvelopeType))
    case Some(found) =>
      if !found then Err(Failure(ValueError, NoDataField))
      else if !body.Obj? then Err(Failure(OtherError, EnvelopeType))
      else
        var data := body.fields["data"];
        if data.Arr? then Ok(data)
        else if data.Obj? && "editions" in data.fields then Ok(data.fields["editions"])
        else Err(Failure(ValueError, NoEditionsField))
  }

  // ------------------------------------------------------- edition selection

  /**
   * The entries `for edition_data in editions` reaches. A list yields its
   * elements. An empty string or dict yields none. A non-empty string or
   * dict yields strings (a JSON dict's keys are strings), and `.get` on a
   * string raises; other values are not iterable.
   */
  function EditionEntries(editions: Json): Result<seq<Json>>
  {
    match editions
    case Arr(items) => Ok(items)
    case Str(s) => if s == "" then Ok([]) else Err(Failure(OtherError, MalformedEntry))
    case Obj(fields) => if fields == map[] then Ok([]) else Err(Failure(OtherError, MalformedEntry))
    case _ => Err(Failure(OtherError, MalformedEntry))
  }

  /**
   * `edition_data.get('edition', {}).get('identifier', 'UNKNOWN')`; None when
   * either value is not a dict.
   */
  function EditionId(entry: Json): Option<Json>
  {
    match Get(entry, "edition", Obj(map[]))
    case None => None
    case Some(info) => Get(info, "identifier", Str("UNKNOWN"))
  }

  datatype Selection = Selection(arabic: Option<Json>, english: Option<Json>)

  /**
   * The selection after the loop has visited the first `k` entries: an entry
   * whose identifier is the reciter's becomes the Arabic edition, otherwise
   * one whose identifier is the translation's becomes the English edition.
   */
  function SelectPrefix(entries: seq<Json>, reciter: string, translation: string, k: nat): Result<Selection>
    requires k <= |entries|
  {
    if k == 0 then Ok(Selection(None, None))
    else Visit(SelectPrefix(entries, reciter, translation, k - 1), entries[k - 1], reciter, translation)
  }

  /** One iteration of the edition loop. */
  function Visit(sofar: Result<Selection>, entry: Json, reciter: string, translation: string): Result<Selection>
  {
    match sofar
    case Err(f) => Err(f)
    case Ok(sel) =>
      match EditionId(entry)
      case None => Err(Failure(OtherError, MalformedEntry))
      case Some(id) =>
        if id == Str(reciter) then Ok(sel.(arabic := Some(entry)))
        else if id == Str(translation) then Ok(sel.(english := Some(entry)))
        else Ok(sel)
  }

  /** The edition loop, run over the entries in order. */
  method SelectEditions(entries: seq<Json>, reciter: string, translation: string) returns (r: Result<Selection>)
    ensures r == SelectPrefix(entries, reciter, translation, |entries|)
  {
    var arabic: Option<Json> := None;
    var english: Option<Json> := None;
    var i := 0;
    while i < |entries|
      invariant 0 <= i <= |entries|
      invariant SelectPrefix(entries, reciter, translation, i) == Ok(Selection(arabic, english))
    {
      var id := EditionId(entries[i]);
      if id.None? {
        SelectStaysFailed(entries, reciter, translation, i + 1);
        return Err(Failure(OtherError, MalformedEntry));
      }
      if id.value == Str(reciter) {
        arabic := Some(entries[i]);
      } else if id.value == Str(translation) {
        english := Some(entries[i]);
      }
      i := i + 1;
    }
    r := Ok(Selection(arabic, english));
  }

  /** Once an entry cannot be read, the loop's outcome is that exception. */
  lemma {:induction false} SelectStaysFailed(entries: seq<Json>, reciter: string, translation: string, k: nat)
    requires 0 < k <= |entries| && SelectPrefix(entries, reciter, translation, k).Err?
    ensures SelectPrefix(entries, reciter, translation, |entries|) == SelectPrefix(entries, reciter, translation, k)
    decreases |entries| - k
  {
    if k < |entries| {
      SelectStaysFailed(entries, reciter, translation, k + 1);
    }
  }

  predicate IsReciter(entry: Json, reciter: string)
  {
    EditionId(entry) == Some(Str(reciter))
  }

  predicate IsTranslation(entry: Json, reciter: string, translation: string)
  {
    EditionId(entry) == Some(Str(translation)) && translation != reciter
  }

  /** Entry j has the reciter's identifier and no later entry below k has. */
  predicate LastReciter(entries: seq<Json>, reciter: string, k: nat, j: nat)
    requires k <= |entries|
  {
    j < k && IsReciter(entries[j], reciter) &&
    forall j' :: j < j' < k ==> !IsReciter(entries[j'], reciter)
  }

  /** Entry j has the translation's identifier and no later entry below k has. */
  predicate LastTranslation(entries: seq<Json>, reciter: string, translation: string, k: nat, j: nat)
    requires k <= |entries|
  {
    j < k && IsTranslation(entries[j], reciter, translation) &&
    forall j' :: j < j' < k ==> !IsTranslation(entries[j'], reciter, translation)
  }

  /** The edition loop fails exactly when some entry has no readable identifier. */
  lemma {:induction false} SelectionFails(entries: seq<Json>, reciter: string, translation: string, k: nat)
    requires k <= |entries|
    ensures SelectPrefix(entries, reciter, translation, k).Err? <==> exists j :: 0 <= j < k && EditionId(entries[j]).None?
    decreases k
  {
    if k > 0 {
      SelectionFails(entries, reciter, translation, k - 1);
    }
  }

  /** The Arabic edition is the LAST entry carrying the reciter's identifier. */
  lemma {:induction false} ArabicIsLastMatch(entries: seq<Json>, reciter: string, translation: string, k: nat)
    requires k <= |entries| && SelectPrefix(entries, reciter, translation, k).Ok?
    ensures var sel := SelectPrefix(entries, reciter, translation, k).value;
      && (sel.arabic.Some? <==> exists j :: 0 <= j < k && IsReciter(entries[j], reciter))
      && (sel.arabic.Some? ==> exists j: nat :: LastReciter(entries, reciter, k, j) && sel.arabic.value == entries[j])
    decreases k
  {
    if k > 0 {
      ArabicIsLastMatch(entries, reciter, translation, k - 1);
      var sel := SelectPrefix(entries, reciter, translation, k).value;
      if sel.arabic.Some? && !IsReciter(entries[k - 1], reciter) {
        var j: nat :| LastReciter(entries, reciter, k - 1, j) && sel.arabic.value == entries[j];
        assert LastReciter(entries, reciter, k, j);
      }
    }
  }

  /**
   * The English edition is the LAST entry carrying the translation's
   * identifier, and there is none when that identifier is also the
   * reciter's: the loop's `elif` never reaches it.
   */
  lemma {:induction false} EnglishIsLastMatch(entries: seq<Json>, reciter: string, translation: string, k: nat)
    requires k <= |entries| && SelectPrefix(entries, reciter, translation, k).Ok?
    ensures var sel := SelectPrefix(entries, reciter, translation, k).value;
      && (sel.english.Some? <==> exists j :: 0 <= j < k && IsTranslation(entries[j], reciter, translation))
      && (sel.english.Some? ==> exists j: nat :: LastTranslation(entries, reciter, translation, k, j) && sel.english.value == entries[j])
    decreases k
  {
    if k > 0 {
      EnglishIsLastMatch(entries, reciter, translation, k - 1);
      var sel := SelectPrefix(entries, reciter, translation, k).value;
      if sel.english.Some? && !IsTranslation(entries[k - 1], reciter, translation) {
        var j: nat :| LastTranslation(entries, reciter, translation, k - 1, j) && sel.english.value == entries[j];
        assert LastTranslation(entries, reciter, translation, k, j);
      }
    }
  }

  /** Asking for the same identifier twice never finds an English edition. */
  lemma SameIdentifierNoTranslation(entries: seq<Json>, id: string)
    requires SelectPrefix(entries, id, id, |entries|).Ok?
    ensures SelectPrefix(entries, id, id, |entries|).value.english.None?
  {
    EnglishIsLastMatch(entries, id, id, |entries|);
  }

  /** `not edition_data` is False: the edition was found and is a non-empty value. */
  predicate Found(o: Option<Json>)
  {
    o.Some? && Truthy(o.value)
  }

  // -------------------------------------------------------- audio locations

  const AudioHost: string := "https://everyayah.com/data/"

  /** The fallback audio URL: the reciter's folder, then surah and ayah padded to three digits. */
  function FallbackAudioUrl(reciter: string, surah: int, ayah: int): string
  {
    AudioHost + reciter + "/" + ZFill3(surah) + ZFill3(ayah) + ".mp3"
  }

  /**
   * Within the numbering range of the Quran (below 1000), the fallback URL
   * names one surah and one ayah: distinct ayahs never share an audio URL.
   */
  lemma FallbackAudioUrlInjective(reciter: string, s1: nat, a1: nat, s2: nat, a2: nat)
    requires s1 < 1000 && a1 < 1000 && s2 < 1000 && a2 < 1000
    requires FallbackAudioUrl(reciter, s1, a1) == FallbackAudioUrl(reciter, s2, a2)
    ensures s1 == s2 && a1 == a2
  {
    ZFill3Natural(s1); ZFill3Natural(a1); ZFill3Natural(s2); ZFill3Natural(a2);
    var u := FallbackAudioUrl(reciter, s1, a1);
    var p := |AudioHost + reciter + "/"|;
    assert ZFill3(s1) == u[p..p + 3] == ZFill3(s2);
    assert ZFill3(a1) == u[p + 3..p + 6] == ZFill3(a2);
    ZFill3Injective(s1, s2);
    ZFill3Injective(a1, a2);
  }

  /** The local file an ayah's audio is downloaded to. */
  function AudioFileName(surah: int, ayah: int): string
  {
    "audio_" + ZFill3(surah) + "_" + ZFill3(ayah) + ".mp3"
  }

  function AudioPath(tempDir: string, surah: int, ayah: int): string
  {
    Join(tempDir, AudioFileName(surah, ayah))
  }

  /** Two ayahs of one surah never overwrite each other's audio file. */
  lemma AudioPathInjective(tempDir: string, surah: nat, a1: nat, a2: nat)
    requires surah < 1000 && a1 < 1000 && a2 < 1000
    requires AudioPath(tempDir, surah, a1) == AudioPath(tempDir, surah, a2)
    ensures a1 == a2
  {
    JoinInjective(tempDir, AudioFileName(surah, a1), AudioFileName(surah, a2));
    ZFill3Natural(surah); ZFill3Natural(a1); ZFill3Natural(a2);
    var n := AudioFileName(surah, a1);
    assert ZFill3(a1) == n[10..13] == ZFill3(a2);
    ZFill3Injective(a1, a2);
  }

  /**
   * The audio locator of an ayah entry (a dict): its `audio` value when that
   * is present and truthy, else the fallback URL. None stands for a truthy
   * value that is not a string: requests turns it into a URL without a
   * scheme, so its download can only fail.
   */
  function AudioLocator(ayah: Json, reciter: string, surah: int, number: int): (r: Option<string>)
    ensures Lookup(ayah, "audio").Some? && Lookup(ayah, "audio").value.Str? && Lookup(ayah, "audio").value.s != "" ==>
      r == Some(Lookup(ayah, "audio").value.s)
    ensures (Lookup(ayah, "audio").None? || !Truthy(Lookup(ayah, "audio").value)) ==>
      r == Some(FallbackAudioUrl(reciter, surah, number))
  {
    var audio := Lookup(ayah, "audio");
    if audio.Some? && Truthy(audio.value) then
      (if audio.value.Str? then Some(audio.value.s) else None)
    else Some(FallbackAudioUrl(reciter, surah, number))
  }

  // ------------------------------------------------------- ayah extraction

  /** One entry of `ayah_clips_info`. The texts are kept as the provider sent them. */
  datatype AyahInfo = AyahInfo(
    arabicText: Json,
    englishText: Json,
    audioPath: string,
    duration: real,
    ayahNumber: int)

  /** Everything the ayah loop reads besides the loop index. */
  datatype Source = Source(
    req: VideoRequest,
    arabicAyahs: Json,
    english: Json,
    tempDir: string,
    download: (string, string) -> bool)

  /** `numberInSurah` of the Arabic ayah at index j, when Python can read and compare it. */
  function NumberAt(src: Source, j: nat): Option<int>
  {
    var ayah := Index(src.arabicAyahs, j);
    if ayah.None? then None
    else
      var n := Lookup(ayah.value, "numberInSurah");
      if n.Some? && n.value.Int? then Some(n.value.i) else None
  }

  /** The English ayah at the same index. */
  function EnglishAt(src: Source, j: nat): Option<Json>
  {
    var ayahs := Lookup(src.english, "ayahs");
    if ayahs.None? then None else Index(ayahs.value, j)
  }

  predicate InRange(req: VideoRequest, n: int)
  {
    req.ayahStart <= n <= req.ayahEnd
  }

  datatype Step = Skip | Take(info: AyahInfo) | Stop(failure: Failure)

  /** One iteration of the ayah loop, for index j. */
  function AyahStep(src: Source, j: nat): Step
  {
    var arabicAyah := Index(src.arabicAyahs, j);
    var englishAyah := EnglishAt(src, j);
    var number := NumberAt(src, j);
    if arabicAyah.None? || englishAyah.None? || number.None? then Stop(Failure(OtherError, MalformedEntry))
    else if !InRange(src.req, number.value) then Skip
    else
      var arabicText := Lookup(arabicAyah.value, "text");
      var englishText := Lookup(englishAyah.value, "text");
      if arabicText.None? || englishText.None? then Stop(Failure(OtherError, MalformedEntry))
      else
        var path := AudioPath(src.tempDir, src.req.surah, number.value);
        var url := AudioLocator(arabicAyah.value, src.req.reciterId, src.req.surah, number.value);
        if url.None? || !src.download(url.value, path) then Stop(Failure(OtherError, AudioDownload))
        else Take(AyahInfo(arabicText.value, englishText.value, path, 0.0, number.value))
  }

  /** The loop's outcome after the first k iterations. */
  function Collect(src: Source, k: nat): Result<seq<AyahInfo>>
  {
    if k == 0 then Ok([]) else Extend(Collect(src, k - 1), AyahStep(src, k - 1))
  }

  /** The loop's outcome after one more iteration. */
  function Extend(sofar: Result<seq<AyahInfo>>, step: Step): Result<seq<AyahInfo>>
  {
    match sofar
    case Err(f) => Err(f)
    case Ok(infos) =>
      match step
      case Skip => Ok(infos)
      case Take(info) => Ok(infos + [info])
      case Stop(f) => Err(f)
  }

  /** The ayah loop over the Arabic edition's ayahs, from its `ayahs` lookup on. */
  function Segments(src: Source): Result<seq<AyahInfo>>
  {
    if Len(src.arabicAyahs).None? then Err(Failure(OtherError, MalformedEntry))
    else Collect(src, Len(src.arabicAyahs).value)
  }

  function SourceOf(req: VideoRequest, arabic: Json, english: Json, tempDir: string,
                    download: (string, string) -> bool): Source
  {
    Source(req, if Lookup(arabic, "ayahs").Some? then Lookup(arabic, "ayahs").value else Null,
           english, tempDir, download)
  }

  /** Lines 75-103: visit every Arabic ayah, keep and download the ones in range. */
  method ExtractSegments(src: Source) returns (r: Result<seq<AyahInfo>>)
    ensures r == Segments(src)
  {
    var n := Len(src.arabicAyahs);
    if n.None? {
      return Err(Failure(OtherError, MalformedEntry));
    }
    var infos: seq<AyahInfo> := [];
    var i := 0;
    while i < n.value
      invariant 0 <= i <= n.value
      invariant Collect(src, i) == Ok(infos)
    {
      var step := AyahStep(src, i);
      match step {
        case Skip =>
        case Take(info) => infos := infos + [info];
        case Stop(f) =>
          assert Collect(src, i + 1) == Err(f);
          CollectStaysFailed(src, i + 1, n.value);
          return Err(f);
      }
      i := i + 1;
    }
    r := Ok(infos);
  }

  /** Once an iteration raises, the loop's outcome is that exception. */
  lemma {:induction false} CollectStaysFailed(src: Source, k: nat, n: nat)
    requires k <= n && Collect(src, k).Err?
    ensures Collect(src, n) == Collect(src, k)
    decreases n - k
  {
    if k < n {
      assert Collect(src, k + 1) == Collect(src, k);
      CollectStaysFailed(src, k + 1, n);
    }
  }

  /** Whether the loop keeps the ayah at index j, going by its number alone. */
  predicate Kept(src: Source, j: nat)
  {
    NumberAt(src, j).Some? && InRange(src.req, NumberAt(src, j).value)
  }

  /** The indices below k whose ayah falls in the requested range, ascending. */
  function Selected(src: Source, k: nat): seq<nat>
  {
    if k == 0 then []
    else if Kept(src, k - 1) then Selected(src, k - 1) + [k - 1]
    else Selected(src, k - 1)
  }

  /** Selected lists, in ascending order, exactly the indices below k the loop keeps. */
  lemma {:induction false} SelectedIndices(src: Source, k: nat)
    ensures forall m :: 0 <= m < |Selected(src, k)| ==> Selected(src, k)[m] < k
    ensures forall m, m' :: 0 <= m < m' < |Selected(src, k)| ==> Selected(src, k)[m] < Selected(src, k)[m']
    ensures forall j :: 0 <= j < k ==> (j in Selected(src, k) <==> Kept(src, j))
    decreases k
  {
    if k > 0 {
      SelectedIndices(src, k - 1);
    }
  }

  /** A completed loop takes one entry per kept index, from that index's iteration. */
  lemma {:induction false} CollectFollowsSelected(src: Source, k: nat)
    requires Collect(src, k).Ok?
    ensures |Collect(src, k).value| == |Selected(src, k)|
    ensures forall m :: 0 <= m < |Selected(src, k)| ==>
      AyahStep(src, Selected(src, k)[m]) == Take(Collect(src, k).value[m])
    decreases k
  {
    if k > 0 {
      var prev := Collect(src, k - 1);
      assert prev.Ok?;
      CollectFollowsSelected(src, k - 1);
      var step := AyahStep(src, k - 1);
      assert step.Skip? <==> !Kept(src, k - 1) by { StepKept(src, k - 1); }
    }
  }

  /** An iteration that does not raise skips exactly the ayahs outside the range. */
  lemma StepKept(src: Source, j: nat)
    requires !AyahStep(src, j).Stop?
    ensures AyahStep(src, j).Skip? <==> !Kept(src, j)
  {
  }

  /** What an iteration that keeps an ayah records about it. */
  lemma TakeRecords(src: Source, j: nat, info: AyahInfo)
    requires AyahStep(src, j) == Take(info)
    ensures NumberAt(src, j) == Some(info.ayahNumber) && InRange(src.req, info.ayahNumber)
    ensures Some(info.arabicText) == Lookup(Index(src.arabicAyahs, j).value, "text")
    ensures Some(info.englishText) == Lookup(EnglishAt(src, j).value, "text")
    ensures info.audioPath == AudioPath(src.tempDir, src.req.surah, info.ayahNumber)
    ensures info.duration == 0.0
  {
  }

  /**
   * A completed loop keeps exactly the Arabic ayahs whose number lies in
   * [ayah_start, ayah_end], in provider order; the m-th kept entry holds the
   * texts of the Arabic and the English ayah at the same index, its number,
   * and the audio path named after surah and number.
   */
  lemma SegmentsAreRangeFilter(src: Source, k: nat)
    requires Collect(src, k).Ok?
    ensures var infos := Collect(src, k).value;
      var sel := Selected(src, k);
      && |infos| == |sel|
      && (forall m :: 0 <= m < |sel| ==> sel[m] < k)
      && (forall m, m' :: 0 <= m < m' < |sel| ==> sel[m] < sel[m'])
      && (forall j :: 0 <= j < k ==> (j in sel <==> Kept(src, j)))
      && (forall m :: 0 <= m < |sel| ==>
            && NumberAt(src, sel[m]) == Some(infos[m].ayahNumber)
            && InRange(src.req, infos[m].ayahNumber)
            && Some(infos[m].arabicText) == Lookup(Index(src.arabicAyahs, sel[m]).value, "text")
            && Some(infos[m].englishText) == Lookup(EnglishAt(src, sel[m]).value, "text")
            && infos[m].audioPath == AudioPath(src.tempDir, src.req.surah, infos[m].ayahNumber))
  {
    SelectedIndices(src, k);
    CollectFollowsSelected(src, k);
    var infos := Collect(src, k).value;
    var sel := Selected(src, k);
    forall m | 0 <= m < |sel|
      ensures NumberAt(src, sel[m]) == Some(infos[m].ayahNumber) && InRange(src.req, infos[m].ayahNumber)
      ensures Some(infos[m].arabicText) == Lookup(Index(src.arabicAyahs, sel[m]).value, "text")
      ensures Some(infos[m].englishText) == Lookup(EnglishAt(src, sel[m]).value, "text")
      ensures infos[m].audioPath == AudioPath(src.tempDir, src.req.surah, infos[m].ayahNumber)
    {
      TakeRecords(src, sel[m], infos[m]);
    }
  }

  /**
   * A reversed range (start > end) never yields an ayah and never downloads:
   * the loop can only stop on a malformed entry.
   */
  lemma {:induction false} ReversedRangeIsEmpty(src: Source, k: nat)
    requires src.req.ayahStart > src.req.ayahEnd
    ensures Collect(src, k).Ok? ==> Collect(src, k).value == []
    ensures Collect(src, k).Err? ==> Collect(src, k).failure == Failure(OtherError, MalformedEntry)
    decreases k
  {
    if k > 0 {
      ReversedRangeIsEmpty(src, k - 1);
    }
  }
}
