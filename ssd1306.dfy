/** The SSD1306 OLED framebuffer (ssd1306.c, buffer effects only): a
    128 x 64 monochrome bitmap kept as 1024 bytes in eight pages of 128
    columns; bit `y % 8` of byte `x + (y / 8) * 128` is pixel (x, y).
    Coordinates are `uint8_t`, so `x + i` and `x += 6` wrap modulo 256.
    Text is a C string of `unsigned char` (the `char` of the RP2040's ARM
    compiler), and the 6x8 font is a table of five column bytes per
    printable character, given as a parameter. */
module Ssd1306 {
  import opened Common

  const WIDTH: nat := 128
  const HEIGHT: nat := 64
  /** `sizeof(buffer)`: one bit per pixel. */
  const BUF_SIZE: nat := 1024
  /** Columns drawn per character and the cursor advance per character. */
  const GLYPH_WIDTH: nat := 5
  const ADVANCE: nat := 6
  /** Five column bytes for each of the characters 32..126. */
  const FONT_LEN: nat := 475
  /** The character drawn in place of one outside 32..126. */
  const QUESTION: uint8 := 63

  /** `(uint8_t)(base + d)`. */
  function Offset(base: uint8, d: nat): uint8
  {
    (base + d) % 256
  }

  predicate InBounds(x: int, y: int) {
    0 <= x < WIDTH && 0 <= y < HEIGHT
  }

  /** The byte holding pixel (x, y). */
  function Index(x: nat, y: nat): (i: nat)
    requires InBounds(x, y)
    ensures i < BUF_SIZE
  {
    x + (y / 8) * 128
  }

  /** `1 << k` as a byte. */
  function Bit(k: nat): bv8
    requires k < 8
  {
    [0x01, 0x02, 0x04, 0x08, 0x10, 0x20, 0x40, 0x80][k]
  }

  /** Whether pixel (x, y) is lit. */
  predicate Pixel(buf: seq<bv8>, x: nat, y: nat)
    requires |buf| == BUF_SIZE && InBounds(x, y)
  {
    buf[Index(x, y)] & Bit(y % 8) != 0
  }

  /** Setting or clearing bit `k` of a byte decides that bit and leaves the
      other seven alone. */
  lemma BitsIndependent(b: bv8, k: nat, k': nat)
    requires k < 8 && k' < 8
    ensures (b | Bit(k)) & Bit(k) != 0
    ensures (b & !Bit(k)) & Bit(k) == 0
    ensures k != k' ==> (b | Bit(k)) & Bit(k') == b & Bit(k')
    ensures k != k' ==> (b & !Bit(k)) & Bit(k') == b & Bit(k')
  {
  }

  /** Two in-bounds pixels sharing a byte differ in their bit. */
  lemma IndexSplit(x: nat, y: nat, px: nat, py: nat)
    requires InBounds(x, y) && InBounds(px, py) && (x, y) != (px, py)
    ensures Index(x, y) != Index(px, py) || y % 8 != py % 8
  {
  }

  /** The buffer after `memset(buffer, 0, sizeof(buffer))`. */
  function Blank(): (r: seq<bv8>)
    ensures |r| == BUF_SIZE && forall i :: 0 <= i < BUF_SIZE ==> r[i] == 0
  {
    seq(BUF_SIZE, _ => 0)
  }

  /** A cleared buffer shows no pixel. */
  lemma BlankIsDark(x: nat, y: nat)
    requires InBounds(x, y)
    ensures !Pixel(Blank(), x, y)
  {
  }

  /** Byte `b` with bit `k` set (`|=`) or cleared (`&= ~`). */
  function Painted(b: bv8, k: nat, color: bool): bv8
    requires k < 8
  {
    if color then b | Bit(k) else b & !Bit(k)
  }

  /** The buffer after `ssd1306_draw_pixel(x, y, color)`. */
  function WithPixel(buf: seq<bv8>, x: uint8, y: uint8, color: bool): (r: seq<bv8>)
    requires |buf| == BUF_SIZE
    ensures |r| == BUF_SIZE
    ensures !InBounds(x, y) ==> r == buf
  {
    if !InBounds(x, y) then buf
    else
      var i := Index(x, y);
      buf[i := Painted(buf[i], y % 8, color)]
  }

  /** In bounds, the pixel takes the colour and every other byte is kept. */
  lemma PixelDrawn(buf: seq<bv8>, x: uint8, y: uint8, color: bool)
    requires |buf| == BUF_SIZE && InBounds(x, y)
    ensures Pixel(WithPixel(buf, x, y, color), x, y) == color
    ensures forall i :: 0 <= i < BUF_SIZE && i != Index(x, y) ==> WithPixel(buf, x, y, color)[i] == buf[i]
  {
    BitsIndependent(buf[Index(x, y)], y % 8, y % 8);
  }

  /** Drawing one pixel changes no other pixel. */
  lemma PixelKeepsOthers(buf: seq<bv8>, x: uint8, y: uint8, color: bool, px: nat, py: nat)
    requires |buf| == BUF_SIZE && InBounds(px, py) && (px, py) != (x, y)
    ensures Pixel(WithPixel(buf, x, y, color), px, py) == Pixel(buf, px, py)
  {
    if InBounds(x, y) {
      IndexSplit(x, y, px, py);
      var i := Index(x, y);
      if Index(px, py) == i {
        BitsIndependent(buf[i], y % 8, py % 8);
      }
    }
  }

  /** The first `n` rows of one font column at `x`: row `j` is drawn at
      `y + j` from bit `j` of `line`. */
  function WithColumn(buf: seq<bv8>, x: uint8, y: uint8, line: bv8, n: nat): (r: seq<bv8>)
    requires |buf| == BUF_SIZE && n <= 8
    ensures |r| == BUF_SIZE
  {
    if n == 0 then buf
    else WithPixel(WithColumn(buf, x, y, line, n - 1), x, Offset(y, n - 1), line & Bit(n - 1) != 0)
  }

  /** How far `p` lies past `base` going up modulo 256: `(p - base) % 256`. */
  function Dist(base: uint8, p: uint8): (r: nat)
    ensures r < 256
  {
    if p >= base then p - base else p - base + 256
  }

  /** A wrapped offset lands on `p` exactly when `p` is that far past `base`. */
  lemma OffsetHits(base: uint8, d: nat, p: uint8)
    requires d < 256
    ensures (Offset(base, d) == p) == (Dist(base, p) == d)
  {
    if base + d < 256 {
      assert Offset(base, d) == base + d;
    } else {
      assert Offset(base, d) == base + d - 256;
    }
  }

  /** Pixel (px, py) after the first `n` rows of a column: the rows below `y`
      (wrapping) in column `x` show the bits of `line`. */
  function ColumnPixel(buf: seq<bv8>, x: uint8, y: uint8, line: bv8, n: nat, px: nat, py: nat): bool
    requires |buf| == BUF_SIZE && n <= 8 && InBounds(px, py)
  {
    if px == x && Dist(y, py) < n then line & Bit(Dist(y, py)) != 0 else Pixel(buf, px, py)
  }

  /** One pixel drawn: it shows `color`, every other pixel is kept. */
  lemma PixelStep(buf: seq<bv8>, x: uint8, y: uint8, color: bool, px: nat, py: nat)
    requires |buf| == BUF_SIZE && InBounds(px, py)
    ensures Pixel(WithPixel(buf, x, y, color), px, py) == if px == x && py == y then color else Pixel(buf, px, py)
  {
    if px == x && py == y {
      PixelDrawn(buf, x, y, color);
    } else {
      PixelKeepsOthers(buf, x, y, color, px, py);
    }
  }

  /** What a column does to every pixel: its rows show the bits of `line`,
      every other pixel is kept. */
  lemma {:induction false} ColumnEffect(buf: seq<bv8>, x: uint8, y: uint8, line: bv8, n: nat, px: nat, py: nat)
    requires |buf| == BUF_SIZE && n <= 8 && InBounds(px, py)
    ensures Pixel(WithColumn(buf, x, y, line, n), px, py) == ColumnPixel(buf, x, y, line, n, px, py)
  {
    if n > 0 {
      var prev := WithColumn(buf, x, y, line, n - 1);
      var row := Offset(y, n - 1);
      assert WithColumn(buf, x, y, line, n) == WithPixel(prev, x, row, line & Bit(n - 1) != 0);
      ColumnEffect(buf, x, y, line, n - 1, px, py);
      PixelStep(prev, x, row, line & Bit(n - 1) != 0, px, py);
      ColumnPixelStep(buf, x, y, line, n, px, py);
    }
  }

  /** The pixel a column's `n`-th row leaves, from the one before it. */
  lemma ColumnPixelStep(buf: seq<bv8>, x: uint8, y: uint8, line: bv8, n: nat, px: nat, py: nat)
    requires |buf| == BUF_SIZE && 0 < n <= 8 && InBounds(px, py)
    ensures ColumnPixel(buf, x, y, line, n, px, py)
         == if px == x && py == Offset(y, n - 1) then line & Bit(n - 1) != 0 else ColumnPixel(buf, x, y, line, n - 1, px, py)
  {
    OffsetHits(y, n - 1, py);
  }

  /** `font6x8[(c - 32) * 5 + i]`: column `i` of printable character `c`. */
  function FontColumn(font: seq<bv8>, c: uint8, i: nat): bv8
    requires |font| == FONT_LEN && 32 <= c <= 126 && i < GLYPH_WIDTH
  {
    font[(c - 32) * 5 + i]
  }

  /** The font bit for row `j` of column `i` of printable character `c`. */
  predicate FontBit(font: seq<bv8>, c: uint8, i: nat, j: nat)
    requires |font| == FONT_LEN && 32 <= c <= 126 && i < GLYPH_WIDTH && j < 8
  {
    FontColumn(font, c, i) & Bit(j) != 0
  }

  /** The first `n` columns of printable character `c` drawn at (x, y). */
  function WithGlyph(buf: seq<bv8>, x: uint8, y: uint8, font: seq<bv8>, c: uint8, n: nat): (r: seq<bv8>)
    requires |buf| == BUF_SIZE && |font| == FONT_LEN && 32 <= c <= 126 && n <= GLYPH_WIDTH
    ensures |r| == BUF_SIZE
  {
    if n == 0 then buf
    else WithColumn(WithGlyph(buf, x, y, font, c, n - 1), Offset(x, n - 1), y, FontColumn(font, c, n - 1), 8)
  }

  /** Pixel (px, py) after the first `n` columns of a character: the box of
      `n` columns and 8 rows from (x, y), wrapping at 256, shows the glyph's
      bits. */
  function GlyphPixel(buf: seq<bv8>, x: uint8, y: uint8, font: seq<bv8>, c: uint8, n: nat, px: nat, py: nat): bool
    requires |buf| == BUF_SIZE && |font| == FONT_LEN && 32 <= c <= 126 && n <= GLYPH_WIDTH && InBounds(px, py)
  {
    if Dist(x, px) < n && Dist(y, py) < 8 then FontBit(font, c, Dist(x, px), Dist(y, py))
    else Pixel(buf, px, py)
  }

  /** What a character does to every pixel: its box shows the glyph, every
      pixel outside the box is kept. */
  lemma {:induction false} GlyphEffect(buf: seq<bv8>, x: uint8, y: uint8, font: seq<bv8>, c: uint8, n: nat, px: nat, py: nat)
    requires |buf| == BUF_SIZE && |font| == FONT_LEN && 32 <= c <= 126 && n <= GLYPH_WIDTH && InBounds(px, py)
    ensures Pixel(WithGlyph(buf, x, y, font, c, n), px, py) == GlyphPixel(buf, x, y, font, c, n, px, py)
  {
    if n > 0 {
      var prev := WithGlyph(buf, x, y, font, c, n - 1);
      var col := Offset(x, n - 1);
      var line := FontColumn(font, c, n - 1);
      assert WithGlyph(buf, x, y, font, c, n) == WithColumn(prev, col, y, line, 8);
      GlyphEffect(buf, x, y, font, c, n - 1, px, py);
      ColumnEffect(prev, col, y, line, 8, px, py);
      GlyphPixelStep(buf, prev, x, y, font, c, n, px, py);
    }
  }

  /** The pixel a character's `n`-th column leaves, from the one before it. */
  lemma GlyphPixelStep(buf: seq<bv8>, prev: seq<bv8>, x: uint8, y: uint8, font: seq<bv8>, c: uint8, n: nat, px: nat, py: nat)
    requires |buf| == BUF_SIZE && |prev| == BUF_SIZE && |font| == FONT_LEN && 32 <= c <= 126
    requires 0 < n <= GLYPH_WIDTH && InBounds(px, py)
    requires Pixel(prev, px, py) == GlyphPixel(buf, x, y, font, c, n - 1, px, py)
    ensures ColumnPixel(prev, Offset(x, n - 1), y, FontColumn(font, c, n - 1), 8, px, py)
         == GlyphPixel(buf, x, y, font, c, n, px, py)
  {
    OffsetHits(x, n - 1, px);
  }

  /** The character actually drawn: anything outside 32..126 becomes '?'. */
  function Printable(c: uint8): (r: uint8)
    ensures 32 <= r <= 126
    ensures 32 <= c <= 126 ==> r == c
    ensures !(32 <= c <= 126) ==> r == QUESTION
  {
    if c < 32 || c > 126 then QUESTION else c
  }

  /** The buffer after `ssd1306_draw_string(x, y, text)`: one glyph per
      character up to the first NUL (or the end of `text`), the cursor moving
      6 columns right, modulo 256, after each. */
  function WithText(buf: seq<bv8>, x: uint8, y: uint8, font: seq<bv8>, text: seq<uint8>): (r: seq<bv8>)
    requires |buf| == BUF_SIZE && |font| == FONT_LEN
    ensures |r| == BUF_SIZE
    ensures (text == [] || text[0] == 0) ==> r == buf
    decreases |text|
  {
    if text == [] || text[0] == 0 then buf
    else WithText(WithGlyph(buf, x, y, font, Printable(text[0]), GLYPH_WIDTH), Offset(x, ADVANCE), y, font, text[1..])
  }

  /** A C string with no NUL in it. */
  predicate NoZero(s: seq<uint8>) {
    forall i :: 0 <= i < |s| ==> s[i] != 0
  }

  /** Where the cursor stands after `n` characters drawn from `x`. */
  function CursorAfter(x: uint8, n: nat): uint8
    decreases n
  {
    if n == 0 then x else CursorAfter(Offset(x, ADVANCE), n - 1)
  }

  /** The cursor moves 6 columns per character, modulo 256. */
  lemma {:induction false} CursorAdvances(x: uint8, n: nat)
    ensures CursorAfter(x, n) == Offset(x, 6 * n)
    decreases n
  {
    if n > 0 {
      CursorAdvances(Offset(x, ADVANCE), n - 1);
      OffsetAdd(x, ADVANCE, 6 * (n - 1));
      assert ADVANCE + 6 * (n - 1) == 6 * n;
    }
  }

  /** Drawing `a` then `b` in one call is drawing `a`, then `b` from where the
      cursor stopped. */
  lemma {:induction false} TextSplits(buf: seq<bv8>, x: uint8, y: uint8, font: seq<bv8>, a: seq<uint8>, b: seq<uint8>)
    requires |buf| == BUF_SIZE && |font| == FONT_LEN && NoZero(a)
    ensures WithText(buf, x, y, font, a + b) == WithText(WithText(buf, x, y, font, a), CursorAfter(x, |a|), y, font, b)
    decreases |a|
  {
    if a == [] {
      assert a + b == b;
    } else {
      var g := WithGlyph(buf, x, y, font, Printable(a[0]), GLYPH_WIDTH);
      var x' := Offset(x, ADVANCE);
      assert (a + b)[0] == a[0] && (a + b)[1..] == a[1..] + b;
      assert WithText(buf, x, y, font, a + b) == WithText(g, x', y, font, a[1..] + b);
      assert WithText(buf, x, y, font, a) == WithText(g, x', y, font, a[1..]);
      TextSplits(g, x', y, font, a[1..], b);
    }
  }

  /** Two wrapped offsets add up. */
  lemma OffsetAdd(base: uint8, d: nat, e: nat)
    ensures Offset(Offset(base, d), e) == Offset(base, d + e)
  {
    var s := base + d;
    var q := s / 256;
    assert s == 256 * q + s % 256;
    ModShift(s % 256 + e, q);
  }

  /** Adding a multiple of 256 leaves a remainder unchanged. */
  lemma ModShift(t: int, q: int)
    ensures (t + 256 * q) % 256 == t % 256
  {
  }

  /** Every character outside 32..126, other than the terminating NUL, draws
      exactly what '?' draws. */
  lemma {:induction false} UnprintableAsQuestion(buf: seq<bv8>, x: uint8, y: uint8, font: seq<bv8>, text: seq<uint8>, i: nat)
    requires |buf| == BUF_SIZE && |font| == FONT_LEN && i < |text| && text[i] != 0 && !(32 <= text[i] <= 126)
    ensures WithText(buf, x, y, font, text) == WithText(buf, x, y, font, text[i := QUESTION])
    decreases |text|
  {
    if text[0] != 0 {
      var g := WithGlyph(buf, x, y, font, Printable(text[0]), GLYPH_WIDTH);
      if i > 0 {
        assert text[i := QUESTION][1..] == text[1..][i - 1 := QUESTION];
        UnprintableAsQuestion(g, Offset(x, ADVANCE), y, font, text[1..], i - 1);
      } else {
        assert text[i := QUESTION][1..] == text[1..];
      }
    }
  }

  /** The display's framebuffer: the static `buffer` of ssd1306.c. */
  class Oled {
    const buffer: array<bv8>

    /** The static buffer starts zeroed. */
    constructor ()
      ensures buffer.Length == BUF_SIZE && buffer[..] == Blank()
      ensures fresh(buffer)
    {
      buffer := new bv8[BUF_SIZE](_ => 0);
    }

    /** `ssd1306_clear`. */
    method Clear()
      requires buffer.Length == BUF_SIZE
      modifies buffer
      ensures buffer[..] == Blank()
    {
      forall i | 0 <= i < buffer.Length {
        buffer[i] := 0;
      }
    }

    /** `ssd1306_draw_pixel`. */
    method DrawPixel(x: uint8, y: uint8, color: bool)
      requires buffer.Length == BUF_SIZE
      modifies buffer
      ensures buffer[..] == WithPixel(old(buffer[..]), x, y, color)
    {
      if x >= WIDTH || y >= HEIGHT {
        return;
      }
      var i := Index(x, y);
      buffer[i] := Painted(buffer[i], y % 8, color);
    }

    /** `ssd1306_draw_string`: the loop over the string; the two inner loops
        are `DrawGlyph` and `DrawColumn`. */
    method DrawString(x0: uint8, y: uint8, text: seq<uint8>, font: seq<bv8>)
      requires buffer.Length == BUF_SIZE && |font| == FONT_LEN
      modifies buffer
      ensures buffer[..] == WithText(old(buffer[..]), x0, y, font, text)
    {
      var x: uint8 := x0;
      var k := 0;
      while k < |text| && text[k] != 0
        invariant k <= |text|
        invariant WithText(old(buffer[..]), x0, y, font, text) == WithText(buffer[..], x, y, font, text[k..])
        decreases |text| - k
      {
        ghost var b0 := buffer[..];
        DrawGlyph(x, y, font, Printable(text[k]));
        assert text[k..][1..] == text[k + 1..];
        assert WithText(b0, x, y, font, text[k..]) == WithText(buffer[..], Offset(x, ADVANCE), y, font, text[k + 1..]);
        x := Offset(x, ADVANCE);
        k := k + 1;
      }
    }

    /** The loop over the five columns of one character of `draw_string`. */
    method DrawGlyph(x: uint8, y: uint8, font: seq<bv8>, c: uint8)
      requires buffer.Length == BUF_SIZE && |font| == FONT_LEN && 32 <= c <= 126
      modifies buffer
      ensures buffer[..] == WithGlyph(old(buffer[..]), x, y, font, c, GLYPH_WIDTH)
    {
      var i := 0;
      while i < GLYPH_WIDTH
        invariant i <= GLYPH_WIDTH
        invariant buffer[..] == WithGlyph(old(buffer[..]), x, y, font, c, i)
      {
        DrawColumn(Offset(x, i), y, font[(c - 32) * 5 + i]);
        assert font[(c - 32) * 5 + i] == FontColumn(font, c, i);
        i := i + 1;
      }
    }

    /** The loop over the eight rows of one font column of `draw_string`. */
    method DrawColumn(x: uint8, y: uint8, line: bv8)
      requires buffer.Length == BUF_SIZE
      modifies buffer
      ensures buffer[..] == WithColumn(old(buffer[..]), x, y, line, 8)
    {
      var j := 0;
      while j < 8
        invariant j <= 8
        invariant buffer[..] == WithColumn(old(buffer[..]), x, y, line, j)
      {
        DrawPixel(x, Offset(y, j), line & Bit(j) != 0);
        j := j + 1;
      }
    }
  }
}
