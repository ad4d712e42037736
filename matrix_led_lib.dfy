/** The brightness encoding of the WS2812 matrix (matrix_led_lib.c, integer
    parts): a percentage becomes a channel level in 0..50, written to all
    three bytes of a GRB word, and a word decodes back to a percentage.
    Words are `uint32_t` values; a shift by 8k bits is a multiplication or
    division by 256^k and the mask `& 0xFF` is `% 256`. */
module MatrixLedLib {
  import opened Common

  /** `max_value_light`: the channel level of 100 %. */
  const MAX_VALUE_LIGHT: nat := 50

  /** What an `_ex` function returns, with what it writes to its
      `out_percent_0_100` argument. */
  datatype Encoded = Encoded(word: uint32, percent: uint8)

  /** A `uint8_t` percentage capped at 100. */
  function Cap(p: uint8): (r: uint8)
    ensures r <= 100 && (p <= 100 ==> r == p) && (p > 100 ==> r == 100)
  {
    if p > 100 then 100 else p
  }

  /** The channel level of a percentage: `(p * 50 + 50) / 100`, which is
      half the percentage rounded up. */
  function Level(p: uint8): (v: nat)
    requires p <= 100
    ensures v <= MAX_VALUE_LIGHT
    ensures v == (p + 1) / 2
  {
    (p * MAX_VALUE_LIGHT + 50) / 100
  }

  /** Byte `k` of a word: `(w >> 8k) & 0xFF`. */
  function Byte(w: uint32, k: nat): uint8
    requires k < 4
  {
    var shifted := if k == 0 then w else if k == 1 then w / 0x100 else if k == 2 then w / 0x1_0000 else w / 0x100_0000;
    shifted % 256
  }

  /** One level in each of the three bytes of a GRB word:
      `(v << 16) | (v << 8) | v`. */
  function Grb(v: nat): (w: uint32)
    requires v <= MAX_VALUE_LIGHT
    ensures Byte(w, 2) == v && Byte(w, 1) == v && Byte(w, 0) == v && Byte(w, 3) == 0
  {
    var lo := v * 0x100 + v;
    var w := v * 0x1_0000 + lo;
    assert w / 0x1_0000 == v;
    assert w / 0x100 == v * 0x100 + v;
    w
  }

  /** `matrix_set_brightness_percent_ex`. */
  function SetPercentEx(p: uint8): (r: Encoded)
    ensures r.percent == Cap(p)
    ensures r.word == Grb((Cap(p) + 1) / 2)
  {
    var q := Cap(p);
    Encoded(Grb(Level(q)), q)
  }

  /** `matrix_set_brightness_percent_inverse_ex`: the complement of the
      capped percentage. */
  function SetInverseEx(p: uint8): (r: Encoded)
    ensures r.percent == 100 - Cap(p)
    ensures r.word == Grb((100 - Cap(p) + 1) / 2)
  {
    var q := Cap(p);
    var inv := 100 - q;
    Encoded(Grb(Level(inv)), inv)
  }

  /** `matrix_set_brightness_percent`: `_ex` without the out-argument. */
  function SetPercent(p: uint8): (w: uint32)
    ensures w == SetPercentEx(p).word
  {
    SetPercentEx(p).word
  }

  /** `matrix_set_brightness_percent_inverse`. */
  function SetInverse(p: uint8): (w: uint32)
    ensures w == SetInverseEx(p).word
  {
    SetInverseEx(p).word
  }

  /** `matrix_percent_from_grb`: the G byte scaled back to a percentage
      (rounded, capped at 100); it comes to twice the byte. */
  function PercentFromGrb(grb: uint32): (p: uint8)
    ensures p <= 100
    ensures p == Min(2 * Byte(grb, 2), 100)
  {
    var g := (grb / 0x1_0000) % 256;
    var q := (g * 100 + MAX_VALUE_LIGHT / 2) / MAX_VALUE_LIGHT;
    if q > 100 then 100 else q
  }

  /** Decoding an encoded percentage gives it back rounded up to even: the
      level keeps only every other percent. */
  lemma PercentRoundTrip(p: uint8)
    ensures PercentFromGrb(SetPercent(p)) == Cap(p) + Cap(p) % 2
  {
    LevelOfGrb((Cap(p) + 1) / 2);
  }

  /** The same for the inverse encoding, whose percent is 100 - p. */
  lemma InverseRoundTrip(p: uint8)
    ensures PercentFromGrb(SetInverse(p)) == (100 - Cap(p)) + (100 - Cap(p)) % 2
  {
    var q: uint8 := 100 - Cap(p);
    assert SetInverse(p) == SetPercent(q);
    PercentRoundTrip(q);
  }

  lemma LevelOfGrb(v: nat)
    requires v <= MAX_VALUE_LIGHT
    ensures PercentFromGrb(Grb(v)) == 2 * v
  {
  }

  /** The inverse of p is the plain encoding of 100 - p. */
  lemma InverseIsComplement(p: uint8)
    requires p <= 100
    ensures SetInverseEx(p) == SetPercentEx(100 - p)
  {
  }

  /** Every encoded percent decodes to within one of where it started. */
  lemma RoundTripWithinOne(p: uint8)
    requires p <= 100
    ensures p <= PercentFromGrb(SetPercent(p)) <= p + 1
  {
    PercentRoundTrip(p);
  }
}
