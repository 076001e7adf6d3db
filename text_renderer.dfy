/**
 * The still-image caption renderer: measure the Arabic and the English text,
 * centre both on the image with a fixed gap between them, and draw each as a
 * 5x5 fan of black strokes followed by one fill in the text's colour.
 */
module TextRenderer {
  import Config

  datatype Font = TrueType(file: string, size: nat) | DefaultFont

  datatype Fonts = Fonts(arabic: Font, english: Font)

  /**
   * Lines 13-20: both TrueType fonts when both load, the English one at three
   * quarters of the size; if either load raises IOError, both become the
   * default font (the English load is not reached when the Arabic one fails).
   */
  function LoadFonts(arabicLoads: bool, englishLoads: bool): (f: Fonts)
    ensures f.arabic.DefaultFont? <==> f.english.DefaultFont?
    ensures f.arabic.TrueType? <==> arabicLoads && englishLoads
    ensures f.arabic.TrueType? ==> f.arabic == TrueType(Config.ArabicFont, Config.FontSize)
    ensures f.english.TrueType? ==> f.english == TrueType(Config.EnglishFont, 52)
  {
    if arabicLoads && englishLoads then
      Fonts(TrueType(Config.ArabicFont, Config.FontSize), TrueType(Config.EnglishFont, Config.EnglishFontSize))
    else Fonts(DefaultFont, DefaultFont)
  }

  /** `draw.textbbox((0, 0), text, font)`: left, top, right, bottom. */
  datatype BBox = BBox(left: int, top: int, right: int, bottom: int)

  function Width(b: BBox): int { b.right - b.left }

  function Height(b: BBox): int { b.bottom - b.top }

  /** The fixed gap between the two texts, in pixels. */
  const Gap: int := 40

  /**
   * `(outer - inner) // 2`: the offset that centres an extent in another. The
   * two margins it leaves differ by at most one pixel, the right one being
   * the larger (Python's floor division agrees with Dafny's for divisor 2).
   */
  function Centre(outer: int, inner: int): (x: int)
    ensures x + inner + x <= outer <= x + inner + x + 1
  {
    (outer - inner) / 2
  }

  datatype Layout = Layout(xArabic: int, yArabic: int, xEnglish: int, yEnglish: int)

  /**
   * Lines 22-43: each text is centred horizontally; the block made of the
   * Arabic text, the gap and the English text is centred vertically, with
   * the English text below the Arabic one.
   */
  function TextLayout(width: int, height: int, arabic: BBox, english: BBox): (l: Layout)
    ensures l.xArabic + Width(arabic) + l.xArabic <= width <= l.xArabic + Width(arabic) + l.xArabic + 1
    ensures l.xEnglish + Width(english) + l.xEnglish <= width <= l.xEnglish + Width(english) + l.xEnglish + 1
    ensures l.yEnglish == l.yArabic + Height(arabic) + Gap
    ensures var below := height - (l.yEnglish + Height(english));
      l.yArabic <= below <= l.yArabic + 1
    ensures var total := Height(arabic) + Height(english) + Gap;
      l.yArabic + total + l.yArabic <= height <= l.yArabic + total + l.yArabic + 1
  {
    var total := Height(arabic) + Height(english) + Gap;
    var top := Centre(height, total);
    Layout(Centre(width, Width(arabic)), top, Centre(width, Width(english)), top + Height(arabic) + Gap)
  }

  /** One `draw.text((x, y), text, font=font, fill=fill)` call. */
  datatype DrawOp = DrawOp(x: int, y: int, text: string, font: Font, fill: string)

  /** The transparent RGBA image and the drawing calls made on it, in order. */
  class Drawing {
    const width: nat
    const height: nat
    var ops: seq<DrawOp>

    constructor (width: nat, height: nat)
      ensures this.width == width && this.height == height && ops == []
    {
      this.width := width;
      this.height := height;
      ops := [];
    }

    method Text(x: int, y: int, text: string, font: Font, fill: string)
      modifies this
      ensures ops == old(ops) + [DrawOp(x, y, text, font, fill)]
    {
      ops := ops + [DrawOp(x, y, text, font, fill)];
    }
  }

  const StrokeWidth: nat := 2
  const StrokeColor: string := "black"

  /** The k-th stroke of the fan: offsets run over [-2, 2], vertical offset fastest. */
  function StrokeOp(x: int, y: int, text: string, font: Font, k: nat): DrawOp
  {
    DrawOp(x + k / 5 - StrokeWidth, y + k % 5 - StrokeWidth, text, font, StrokeColor)
  }

  /** Twenty-five strokes, then the fill at the unshifted position. */
  function Outlined(x: int, y: int, text: string, font: Font, fill: string): seq<DrawOp>
  {
    seq(25, k requires 0 <= k => StrokeOp(x, y, text, font, k)) + [DrawOp(x, y, text, font, fill)]
  }

  /** Lines 50-54 (and 56-60): the two nested offset loops, then the fill. */
  method DrawOutlined(d: Drawing, x: int, y: int, text: string, font: Font, fill: string)
    modifies d
    ensures d.ops == old(d.ops) + Outlined(x, y, text, font, fill)
  {
    ghost var before := d.ops;
    var adj := -(StrokeWidth as int);
    while adj <= StrokeWidth as int
      invariant -2 <= adj <= 3
      invariant d.ops == before + seq((adj + 2) * 5, k requires 0 <= k => StrokeOp(x, y, text, font, k))
    {
      var adj2 := -(StrokeWidth as int);
      while adj2 <= StrokeWidth as int
        invariant -2 <= adj2 <= 3
        invariant d.ops == before + seq((adj + 2) * 5 + adj2 + 2, k requires 0 <= k => StrokeOp(x, y, text, font, k))
      {
        ghost var k := (adj + 2) * 5 + adj2 + 2;
        assert StrokeOp(x, y, text, font, k) == DrawOp(x + adj, y + adj2, text, font, StrokeColor);
        d.Text(x + adj, y + adj2, text, font, StrokeColor);
        adj2 := adj2 + 1;
      }
      adj := adj + 1;
    }
    d.Text(x, y, text, font, fill);
  }

  /** The fan holds a stroke at offset (dx, dy). */
  predicate StrokedAt(ops: seq<DrawOp>, x: int, y: int, text: string, font: Font, dx: int, dy: int)
  {
    exists k :: 0 <= k < 25 && k < |ops| && ops[k] == DrawOp(x + dx, y + dy, text, font, StrokeColor)
  }

  /**
   * An outlined text is 26 calls: 25 black strokes, one at each offset of
   * [-2, 2] x [-2, 2] and no two at the same offset, then exactly one fill,
   * last, at the unshifted position.
   */
  lemma OutlineShape(x: int, y: int, text: string, font: Font, fill: string)
    requires fill != StrokeColor
    ensures var ops := Outlined(x, y, text, font, fill);
      && |ops| == 26
      && ops[25] == DrawOp(x, y, text, font, fill)
      && (forall k :: 0 <= k < 25 ==> ops[k].fill == StrokeColor && ops[k].text == text && ops[k].font == font)
      && (forall k :: 0 <= k < 25 ==> -2 <= ops[k].x - x <= 2 && -2 <= ops[k].y - y <= 2)
      && (forall k, k' :: 0 <= k < k' < 25 ==> (ops[k].x, ops[k].y) != (ops[k'].x, ops[k'].y))
      && (forall dx, dy :: -2 <= dx <= 2 && -2 <= dy <= 2 ==> StrokedAt(ops, x, y, text, font, dx, dy))
      && (forall k :: 0 <= k < 26 && ops[k].fill == fill ==> k == 25)
  {
    var ops := Outlined(x, y, text, font, fill);
    forall dx, dy | -2 <= dx <= 2 && -2 <= dy <= 2
      ensures StrokedAt(ops, x, y, text, font, dx, dy)
    {
      var k := (dx + 2) * 5 + dy + 2;
      assert ops[k] == StrokeOp(x, y, text, font, k);
    }
    forall k, k' | 0 <= k < k' < 25
      ensures (ops[k].x, ops[k].y) != (ops[k'].x, ops[k'].y)
    {
      assert ops[k] == StrokeOp(x, y, text, font, k) && ops[k'] == StrokeOp(x, y, text, font, k');
      assert k == (k / 5) * 5 + k % 5 && k' == (k' / 5) * 5 + k' % 5;
    }
  }

  /**
   * `create_text_image`: a width-by-height image holding the outlined Arabic
   * text and then the outlined English text, each at its centred position;
   * the path it is saved to is returned.
   */
  method CreateTextImage(textArabic: string, textEnglish: string, outputPath: string, width: nat, height: nat,
                         arabicFontLoads: bool, englishFontLoads: bool, textbbox: (string, Font) -> BBox)
    returns (path: string, img: Drawing)
    ensures path == outputPath
    ensures fresh(img) && img.width == width && img.height == height
    ensures var fonts := LoadFonts(arabicFontLoads, englishFontLoads);
      var l := TextLayout(width, height, textbbox(textArabic, fonts.arabic), textbbox(textEnglish, fonts.english));
      img.ops == Outlined(l.xArabic, l.yArabic, textArabic, fonts.arabic, Config.ArabicFontColor) +
                 Outlined(l.xEnglish, l.yEnglish, textEnglish, fonts.english, Config.EnglishFontColor)
  {
    img := new Drawing(width, height);
    var fonts := LoadFonts(arabicFontLoads, englishFontLoads);
    var arabicBox := textbbox(textArabic, fonts.arabic);
    var englishBox := textbbox(textEnglish, fonts.english);
    var l := TextLayout(width, height, arabicBox, englishBox);
    DrawOutlined(img, l.xArabic, l.yArabic, textArabic, fonts.arabic, Config.ArabicFontColor);
    DrawOutlined(img, l.xEnglish, l.yEnglish, textEnglish, fonts.english, Config.EnglishFontColor);
    path := outputPath;
  }
}
