/**
 * The narration timeline and the subtitle track built on it: each ayah's
 * audio is measured, the ayahs play back to back, and each ayah shows an
 * Arabic and an English caption for exactly its own stretch of time,
 * stacked around a fixed height of the canvas.
 */
module Timeline {
  import opened Wrappers
  import opened JsonValue
  import opened Outcomes
  import opened Provider
  import Config
  import Background

  // ------------------------------------------------------------- durations

  /** The running total of the durations, in order. */
  function TotalDuration(infos: seq<AyahInfo>): real
  {
    if infos == [] then 0.0 else TotalDuration(infos[..|infos| - 1]) + infos[|infos| - 1].duration
  }

  /** When ayah i starts: the durations of all earlier ayahs added up. */
  function StartOf(infos: seq<AyahInfo>, i: nat): real
    requires i <= |infos|
  {
    TotalDuration(infos[..i])
  }

  predicate Measured(infos: seq<AyahInfo>)
  {
    forall i :: 0 <= i < |infos| ==> infos[i].duration >= 0.0
  }

  /** Each ayah starts where the previous one ends. */
  lemma StartOfNext(infos: seq<AyahInfo>, i: nat)
    requires i < |infos|
    ensures StartOf(infos, i + 1) == StartOf(infos, i) + infos[i].duration
  {
    assert infos[..i + 1][..i] == infos[..i];
  }

  /** Durations add over concatenation. */
  lemma {:induction false} TotalAppend(a: seq<AyahInfo>, b: seq<AyahInfo>)
    ensures TotalDuration(a + b) == TotalDuration(a) + TotalDuration(b)
    decreases |b|
  {
    if b == [] {
      assert a + b == a;
    } else {
      assert (a + b)[..|a + b| - 1] == a + b[..|b| - 1];
      TotalAppend(a, b[..|b| - 1]);
    }
  }

  lemma {:induction false} TotalNonNegative(infos: seq<AyahInfo>)
    requires Measured(infos)
    ensures TotalDuration(infos) >= 0.0
    decreases |infos|
  {
    if infos != [] {
      TotalNonNegative(infos[..|infos| - 1]);
    }
  }

  /**
   * With non-negative durations every ayah's stretch [start, start + duration]
   * lies within [0, total], so no caption outlives the narration.
   */
  lemma StretchWithinTotal(infos: seq<AyahInfo>, i: nat)
    requires Measured(infos) && i < |infos|
    ensures 0.0 <= StartOf(infos, i)
    ensures StartOf(infos, i) + infos[i].duration <= TotalDuration(infos)
  {
    TotalNonNegative(infos[..i]);
    StartOfNext(infos, i);
    assert infos == infos[..i + 1] + infos[i + 1..];
    TotalAppend(infos[..i + 1], infos[i + 1..]);
    TotalNonNegative(infos[i + 1..]);
  }

  /** The last ayah ends at the total. */
  lemma StartOfEnd(infos: seq<AyahInfo>)
    ensures StartOf(infos, |infos|) == TotalDuration(infos)
  {
    assert infos[..|infos|] == infos;
  }

  /** Every ayah's audio file can be opened. */
  predicate AudioOpens(infos: seq<AyahInfo>, openAudio: string -> Option<Background.NonNeg>)
  {
    forall i :: 0 <= i < |infos| ==> openAudio(infos[i].audioPath).Some?
  }

  /** The ayahs with the durations their audio files report. */
  function Timed(infos: seq<AyahInfo>, openAudio: string -> Option<Background.NonNeg>): (r: seq<AyahInfo>)
    requires AudioOpens(infos, openAudio)
    ensures |r| == |infos| && Measured(r)
    ensures forall i :: 0 <= i < |infos| ==> r[i] == infos[i].(duration := openAudio(infos[i].audioPath).value)
  {
    seq(|infos|, i requires 0 <= i < |infos| => infos[i].(duration := openAudio(infos[i].audioPath).value))
  }

  /**
   * Lines 120-131: open each ayah's audio in order, write its duration into
   * the entry and add it to the total; any audio that cannot be opened
   * raises.
   */
  method MeasureAudio(infos: seq<AyahInfo>, openAudio: string -> Option<Background.NonNeg>)
    returns (r: Result<seq<AyahInfo>>, total: real)
    ensures r.Ok? <==> AudioOpens(infos, openAudio)
    ensures r.Err? ==> r.failure == Failure(OtherError, AudioLoad)
    ensures r.Ok? ==> r.value == Timed(infos, openAudio)
    ensures r.Ok? ==> total == TotalDuration(r.value)
  {
    var current := infos;
    total := 0.0;
    var i := 0;
    while i < |infos|
      invariant 0 <= i <= |infos| && |current| == |infos|
      invariant forall k :: 0 <= k < i ==>
        openAudio(infos[k].audioPath).Some? && current[k] == infos[k].(duration := openAudio(infos[k].audioPath).value)
      invariant forall k :: i <= k < |infos| ==> current[k] == infos[k]
      invariant total == TotalDuration(current[..i])
    {
      var clip := openAudio(current[i].audioPath);
      if clip.None? {
        return Err(Failure(OtherError, AudioLoad)), total;
      }
      current := current[i := current[i].(duration := clip.value)];
      StartOfNext(current, i);
      total := total + clip.value;
      i := i + 1;
    }
    assert current[..i] == current;
    r := Ok(current);
  }

  // ----------------------------------------------------------------- layout

  /** `int(tw * 0.08)`, the side margin. */
  function MarginX(tw: nat): nat
  {
    tw * 8 / 100
  }

  /** `tw - 2 * margin`, the caption wrap width. */
  function MaxWidth(tw: nat): int
  {
    tw - 2 * MarginX(tw)
  }

  /** The wrap width is positive and the two margins and it fill the canvas width exactly. */
  lemma MarginsFitCanvas(tw: nat)
    requires tw > 0
    ensures 0 < MaxWidth(tw) < tw + 1
    ensures MarginX(tw) + MaxWidth(tw) + MarginX(tw) == tw
    ensures MarginX(tw) as real <= tw as real * 0.08 < MarginX(tw) as real + 1.0
  {
  }

  /** `int(FONT_SIZE * 0.5)`. */
  const VerticalSpacing: nat := Config.FontSize * 50 / 100
  const TextPadding: nat := 60

  /** `th * 0.70`: where the middle of the caption block sits. */
  function BlockCentre(th: nat): real
  {
    th as real * 0.70
  }

  datatype Placement = Placement(arabicY: real, englishY: real)

  /**
   * Lines 225-229: both captions' heights are padded, the block is the two
   * plus the spacing, and it is centred on BlockCentre.
   */
  function BlockLayout(th: nat, arabicH: nat, englishH: nat): (p: Placement)
    ensures p.englishY == p.arabicY + (arabicH + TextPadding) as real + VerticalSpacing as real
    ensures p.englishY > p.arabicY
    ensures (p.arabicY + p.englishY + (englishH + TextPadding) as real) / 2.0 == BlockCentre(th)
  {
    var arabicHeight := arabicH + TextPadding;
    var englishHeight := englishH + TextPadding;
    var total := arabicHeight + englishHeight + VerticalSpacing;
    var yArabic := BlockCentre(th) - total as real / 2.0;
    Placement(yArabic, yArabic + arabicHeight as real + VerticalSpacing as real)
  }

  lemma FontConstants()
    ensures Config.FontSize == 70 && Config.EnglishFontSize == 52 && VerticalSpacing == 35
    ensures Config.EnglishFontSize as real <= Config.FontSize as real * 0.75 < Config.EnglishFontSize as real + 1.0
  {
  }

  // -------------------------------------------------------------- captions

  datatype Lang = Arabic | English

  /** A caption clip: its language, text, vertical position and time window. */
  datatype Caption = Caption(lang: Lang, text: Json, y: real, start: real, duration: real)

  /**
   * The two captions of ayah i, given the rendered clips' heights: Arabic then
   * English, both starting when the ayah starts and lasting as long as it.
   */
  function CaptionPair(infos: seq<AyahInfo>, i: nat, th: nat, arabicH: nat, englishH: nat): seq<Caption>
    requires i < |infos|
  {
    var p := BlockLayout(th, arabicH, englishH);
    [Caption(Arabic, infos[i].arabicText, p.arabicY, StartOf(infos, i), infos[i].duration),
     Caption(English, infos[i].englishText, p.englishY, StartOf(infos, i), infos[i].duration)]
  }

  /** Whether both captions of each of the first n ayahs can be rendered. */
  predicate RenderableUpTo(infos: seq<AyahInfo>, measure: (Lang, Json) -> Option<nat>, n: nat)
    requires n <= |infos|
  {
    forall i :: 0 <= i < n ==> measure(Arabic, infos[i].arabicText).Some? && measure(English, infos[i].englishText).Some?
  }

  /** Whether both captions of every ayah can be rendered. */
  predicate Renderable(infos: seq<AyahInfo>, measure: (Lang, Json) -> Option<nat>)
  {
    RenderableUpTo(infos, measure, |infos|)
  }

  /** The captions of the first n ayahs, pair after pair. */
  function Captions(infos: seq<AyahInfo>, th: nat, measure: (Lang, Json) -> Option<nat>, n: nat): seq<Caption>
    requires n <= |infos| && RenderableUpTo(infos, measure, n)
  {
    if n == 0 then []
    else
      Captions(infos, th, measure, n - 1) +
      CaptionPair(infos, n - 1, th, measure(Arabic, infos[n - 1].arabicText).value,
                  measure(English, infos[n - 1].englishText).value)
  }

  /**
   * The captions hold two entries per ayah, and entries 2i and 2i+1 are the
   * pair of ayah i.
   */
  lemma {:induction false} CaptionsArePairs(infos: seq<AyahInfo>, th: nat, measure: (Lang, Json) -> Option<nat>, n: nat)
    requires n <= |infos| && RenderableUpTo(infos, measure, n)
    ensures |Captions(infos, th, measure, n)| == 2 * n
    ensures forall i :: 0 <= i < n ==>
      Captions(infos, th, measure, n)[2 * i..2 * i + 2] == CaptionPair(infos, i, th,
        measure(Arabic, infos[i].arabicText).value, measure(English, infos[i].englishText).value)
  {
    if n > 0 {
      CaptionsArePairs(infos, th, measure, n - 1);
      var prev := Captions(infos, th, measure, n - 1);
      var last := CaptionPair(infos, n - 1, th, measure(Arabic, infos[n - 1].arabicText).value,
                              measure(English, infos[n - 1].englishText).value);
      assert Captions(infos, th, measure, n) == prev + last;
      forall i | 0 <= i < n
        ensures (prev + last)[2 * i..2 * i + 2] == CaptionPair(infos, i, th,
          measure(Arabic, infos[i].arabicText).value, measure(English, infos[i].englishText).value)
      {
        PairSlice(prev, last, i);
      }
    }
  }

  /** Appending a pair keeps the earlier pairs in place and puts the new one last. */
  lemma PairSlice(prev: seq<Caption>, last: seq<Caption>, i: nat)
    requires |last| == 2 && |prev| % 2 == 0 && 2 * i <= |prev|
    ensures 2 * i < |prev| ==> (prev + last)[2 * i..2 * i + 2] == prev[2 * i..2 * i + 2]
    ensures 2 * i == |prev| ==> (prev + last)[2 * i..2 * i + 2] == last
  {
  }

  /**
   * Lines 189-244: for each ayah in order render both captions, place them
   * and give them the ayah's time window; append both and advance the
   * running start. A caption that cannot be rendered raises.
   */
  method BuildCaptions(infos: seq<AyahInfo>, th: nat, measure: (Lang, Json) -> Option<nat>)
    returns (r: Result<seq<Caption>>, cumulative: real)
    ensures r.Ok? <==> Renderable(infos, measure)
    ensures r.Err? ==> r.failure == Failure(OtherError, TextClip)
    ensures r.Ok? ==> r.value == Captions(infos, th, measure, |infos|)
    ensures r.Ok? ==> cumulative == TotalDuration(infos)
  {
    var clips: seq<Caption> := [];
    cumulative := 0.0;
    var i := 0;
    while i < |infos|
      invariant 0 <= i <= |infos| && RenderableUpTo(infos, measure, i)
      invariant clips == Captions(infos, th, measure, i)
      invariant cumulative == StartOf(infos, i)
    {
      var arabicH := measure(Arabic, infos[i].arabicText);
      var englishH := measure(English, infos[i].englishText);
      if arabicH.None? || englishH.None? {
        return Err(Failure(OtherError, TextClip)), cumulative;
      }
      var p := BlockLayout(th, arabicH.value, englishH.value);
      var arabicClip := Caption(Arabic, infos[i].arabicText, p.arabicY, cumulative, infos[i].duration);
      var englishClip := Caption(English, infos[i].englishText, p.englishY, cumulative, infos[i].duration);
      clips := clips + [arabicClip, englishClip];
      StartOfNext(infos, i);
      cumulative := cumulative + infos[i].duration;
      i := i + 1;
    }
    StartOfEnd(infos);
    r := Ok(clips);
  }
}
