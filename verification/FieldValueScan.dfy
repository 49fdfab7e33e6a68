/** The word-at-a-time scan of HTTP field values (ruvia-http/src/field/field_value_scan.h):
    eight bytes are classified by one expression over a 64-bit word. A byte is valid as in
    section 5.5 of RFC 9110: HTAB, SP, a visible character or obs-text. */
module FieldValueScan {
  const ONES: bv64 := 0x0101010101010101
  const HIGH_BITS: bv64 := 0x8080808080808080
  const LOW_BITS: bv64 := 0x7f7f7f7f7f7f7f7f

  predicate Valid(b: bv8) {
    b == 0x09 || (b >= 0x20 && b != 0x7f)
  }

  /** load_http_field_value_word: the first byte is the low one. */
  function LoadWord(bytes: seq<bv8>): bv64
    requires |bytes| >= 8
  {
    WordOf(bytes[0], bytes[1], bytes[2], bytes[3], bytes[4], bytes[5], bytes[6], bytes[7])
  }

  function WordOf(a: bv8, b: bv8, c: bv8, d: bv8, e: bv8, f: bv8, g: bv8, h: bv8): bv64 {
    a as bv64 | (b as bv64 << 8) | (c as bv64 << 16) | (d as bv64 << 24)
    | (e as bv64 << 32) | (f as bv64 << 40) | (g as bv64 << 48) | (h as bv64 << 56)
  }

  /** invalid_http_field_value_mask */
  function InvalidMask(w: bv64): bv64 {
    var del := w ^ LOW_BITS;
    var controls := !((w | HIGH_BITS) - ONES * 0x20) & !w;
    var special := (controls | ((del - ONES) & !del)) & HIGH_BITS;
    if special == 0 then 0
    else
      var tabs := w ^ (ONES * 9);
      var tabBits := !(((tabs & LOW_BITS) + LOW_BITS) | tabs | LOW_BITS);
      special & !tabBits
  }

  /** The k-th byte of a word, and the high bit of that byte. */
  function Lane(w: bv64, k: nat): bv64
    requires k < 8
  {
    match k
    case 0 => w & 0xff
    case 1 => (w >> 8) & 0xff
    case 2 => (w >> 16) & 0xff
    case 3 => (w >> 24) & 0xff
    case 4 => (w >> 32) & 0xff
    case 5 => (w >> 40) & 0xff
    case 6 => (w >> 48) & 0xff
    case _ => (w >> 56) & 0xff
  }

  predicate ValidLane(w: bv64, k: nat)
    requires k < 8
  {
    Lane(w, k) == 0x09 || (Lane(w, k) >= 0x20 && Lane(w, k) != 0x7f)
  }

  predicate Marked(m: bv64, k: nat)
    requires k < 8
  {
    Lane(m, k) & 0x80 != 0
  }

  /** Each loaded byte keeps its place and its class. */
  lemma LanesAreBytes(a: bv8, b: bv8, c: bv8, d: bv8, e: bv8, f: bv8, g: bv8, h: bv8)
    ensures var w := WordOf(a, b, c, d, e, f, g, h);
            && ValidLane(w, 0) == Valid(a) && ValidLane(w, 1) == Valid(b)
            && ValidLane(w, 2) == Valid(c) && ValidLane(w, 3) == Valid(d)
            && ValidLane(w, 4) == Valid(e) && ValidLane(w, 5) == Valid(f)
            && ValidLane(w, 6) == Valid(g) && ValidLane(w, 7) == Valid(h)
  {
  }

  lemma LaneIsByte(bytes: seq<bv8>, k: nat)
    requires |bytes| >= 8 && k < 8
    ensures ValidLane(LoadWord(bytes), k) == Valid(bytes[k])
  {
    hide WordOf, ValidLane, Valid;
    LanesAreBytes(bytes[0], bytes[1], bytes[2], bytes[3], bytes[4], bytes[5], bytes[6], bytes[7]);
  }

  /** The mask marks nothing but high bits. */
  lemma MaskIsHighBits(w: bv64)
    ensures InvalidMask(w) & !HIGH_BITS == 0
  {
  }

  lemma LowMarks(w: bv64)
    ensures Marked(InvalidMask(w), 0) == !ValidLane(w, 0)
    ensures ValidLane(w, 0) ==> Marked(InvalidMask(w), 1) == !ValidLane(w, 1)
    ensures ValidLane(w, 0) && ValidLane(w, 1) ==> Marked(InvalidMask(w), 2) == !ValidLane(w, 2)
  {
  }

  lemma MiddleMarks(w: bv64)
    ensures ValidLane(w, 0) && ValidLane(w, 1) && ValidLane(w, 2) ==> Marked(InvalidMask(w), 3) == !ValidLane(w, 3)
    ensures ValidLane(w, 0) && ValidLane(w, 1) && ValidLane(w, 2) && ValidLane(w, 3) ==>
            Marked(InvalidMask(w), 4) == !ValidLane(w, 4)
    ensures ValidLane(w, 0) && ValidLane(w, 1) && ValidLane(w, 2) && ValidLane(w, 3) ==>
            ValidLane(w, 4) ==> Marked(InvalidMask(w), 5) == !ValidLane(w, 5)
  {
  }

  lemma HighMarks(w: bv64)
    ensures ValidLane(w, 0) && ValidLane(w, 1) && ValidLane(w, 2) && ValidLane(w, 3) ==>
            ValidLane(w, 4) && ValidLane(w, 5) ==> Marked(InvalidMask(w), 6) == !ValidLane(w, 6)
    ensures ValidLane(w, 0) && ValidLane(w, 1) && ValidLane(w, 2) && ValidLane(w, 3) ==>
            ValidLane(w, 4) && ValidLane(w, 5) && ValidLane(w, 6) ==> Marked(InvalidMask(w), 7) == !ValidLane(w, 7)
  {
  }

  /** The mark of a byte is exact as long as every byte below it is valid: a borrow of the DEL test can only come
      from an invalid byte. */
  lemma MarkIsExact(w: bv64, k: nat)
    requires k < 8 && forall j :: 0 <= j < k ==> ValidLane(w, j)
    ensures Marked(InvalidMask(w), k) == !ValidLane(w, k)
  {
    hide InvalidMask, ValidLane, Marked;
    LowMarks(w);
    MiddleMarks(w);
    HighMarks(w);
  }

  /** std::countr_zero, over the `width` bits that are left. */
  function TrailingZeros(m: bv64, width: nat): (r: nat)
    ensures r <= width
  {
    if width == 0 || m & 1 == 1 then 0 else 1 + TrailingZeros(m >> 1, width - 1)
  }

  lemma SkipBits(m: bv64, width: nat)
    requires width >= 4
    ensures m & 0xf == 0 ==> TrailingZeros(m, width) == 4 + TrailingZeros(m >> 4, width - 4)
    ensures m & 0xf == 8 ==> TrailingZeros(m, width) == 3
  {
    assert TrailingZeros(m, width) == if m & 1 == 1 then 0 else 1 + TrailingZeros(m >> 1, width - 1);
    assert TrailingZeros(m >> 1, width - 1) == if (m >> 1) & 1 == 1 then 0
           else 1 + TrailingZeros((m >> 1) >> 1, width - 2);
    Shifts(m);
    assert TrailingZeros(m >> 2, width - 2) == if (m >> 2) & 1 == 1 then 0
           else 1 + TrailingZeros((m >> 2) >> 1, width - 3);
    assert TrailingZeros(m >> 3, width - 3) == if (m >> 3) & 1 == 1 then 0
           else 1 + TrailingZeros((m >> 3) >> 1, width - 4);
  }

  lemma Shifts(m: bv64)
    ensures (m >> 1) >> 1 == m >> 2 && (m >> 2) >> 1 == m >> 3 && (m >> 3) >> 1 == m >> 4
    ensures m & 0xf == 0 ==> m & 1 == 0 && (m >> 1) & 1 == 0 && (m >> 2) & 1 == 0 && (m >> 3) & 1 == 0
    ensures m & 0xf == 8 ==> m & 1 == 0 && (m >> 1) & 1 == 0 && (m >> 2) & 1 == 0 && (m >> 3) & 1 == 1
  {
  }

  lemma SkipByte(m: bv64, width: nat)
    requires width >= 8
    ensures m & 0xff == 0 ==> TrailingZeros(m, width) == 8 + TrailingZeros(m >> 8, width - 8)
    ensures m & 0xff == 0x80 ==> TrailingZeros(m, width) == 7
  {
    hide TrailingZeros;
    SkipBits(m, width);
    SkipBits(m >> 4, width - 4);
    Nibbles(m);
  }

  lemma Nibbles(m: bv64)
    ensures (m >> 4) >> 4 == m >> 8
    ensures m & 0xff == 0 ==> m & 0xf == 0 && (m >> 4) & 0xf == 0
    ensures m & 0xff == 0x80 ==> m & 0xf == 0 && (m >> 4) & 0xf == 8
  {
  }

  /** Moving to the next byte of a mask. */
  lemma NextLane(m: bv64)
    requires m & !HIGH_BITS == 0
    ensures (m >> 8) & !HIGH_BITS == 0
    ensures m & 0xff == (if Marked(m, 0) then 0x80 else 0)
    ensures Marked(m >> 8, 0) == Marked(m, 1) && Marked(m >> 8, 1) == Marked(m, 2) && Marked(m >> 8, 2) == Marked(m, 3)
    ensures Marked(m >> 8, 3) == Marked(m, 4) && Marked(m >> 8, 4) == Marked(m, 5) && Marked(m >> 8, 5) == Marked(m, 6)
    ensures Marked(m >> 8, 6) == Marked(m, 7)
  {
  }

  /** The lowest set bit of a mask is in the first marked byte. */
  lemma {:induction false} LowestMark(m: bv64, k: nat, width: nat)
    requires m & !HIGH_BITS == 0 && k < 8 && width >= 8 * (k + 1)
    requires Marked(m, k) && forall j :: 0 <= j < k ==> !Marked(m, j)
    ensures TrailingZeros(m, width) == 8 * k + 7
    decreases k
  {
    hide TrailingZeros, Marked;
    NextLane(m);
    SkipByte(m, width);
    if k > 0 {
      assert !Marked(m, 0);
      var next := m >> 8;
      forall j | 0 <= j < k - 1 ensures !Marked(next, j) {
        assert !Marked(m, j + 1);
      }
      LowestMark(next, k - 1, width - 8);
    }
  }

  lemma ZeroIsUnmarked(m: bv64)
    requires m & !HIGH_BITS == 0
    ensures (m == 0) ==
            !(Marked(m, 0) || Marked(m, 1) || Marked(m, 2) || Marked(m, 3)
              || Marked(m, 4) || Marked(m, 5) || Marked(m, 6) || Marked(m, 7))
  {
  }

  /** The length of the longest valid prefix, byte by byte. */
  ghost function FirstInvalid(bytes: seq<bv8>): (k: nat)
    ensures k <= |bytes| && (forall j :: 0 <= j < k ==> Valid(bytes[j])) && (k < |bytes| ==> !Valid(bytes[k]))
  {
    if bytes == [] || !Valid(bytes[0]) then 0 else 1 + FirstInvalid(bytes[1..])
  }

  /** In each word the mask is zero iff all eight bytes are valid, and its lowest set bit
      is in the first invalid one. */
  lemma MaskFindsFirstInvalid(bytes: seq<bv8>)
    requires |bytes| == 8
    ensures var m := InvalidMask(LoadWord(bytes));
            && (m == 0 <==> forall j :: 0 <= j < 8 ==> Valid(bytes[j]))
            && (m != 0 ==> TrailingZeros(m, 64) / 8 == FirstInvalid(bytes))
  {
    hide InvalidMask, ValidLane, Marked, LoadWord, Valid;
    var w, k := LoadWord(bytes), FirstInvalid(bytes);
    var m := InvalidMask(w);
    MaskIsHighBits(w);
    ZeroIsUnmarked(m);
    forall j | 0 <= j < k ensures ValidLane(w, j) {
      LaneIsByte(bytes, j);
    }
    forall j | 0 <= j < k ensures !Marked(m, j) {
      MarkIsExact(w, j);
    }
    if k < 8 {
      LaneIsByte(bytes, k);
      MarkIsExact(w, k);
      LowestMark(m, k, 64);
    }
  }

  /** http_field_value_prefix_size: the length of the longest prefix of valid bytes. */
  method PrefixSize(value: seq<bv8>) returns (index: nat)
    ensures index <= |value|
    ensures forall j :: 0 <= j < index ==> Valid(value[j])
    ensures index < |value| ==> !Valid(value[index])
  {
    hide Valid, InvalidMask, LoadWord;
    index := 0;
    while |value| - index >= 8
      invariant index <= |value| && forall j :: 0 <= j < index ==> Valid(value[j])
    {
      var word := value[index..index + 8];
      MaskFindsFirstInvalid(word);
      assert forall j :: index <= j < index + 8 ==> value[j] == word[j - index];
      var invalid := InvalidMask(LoadWord(word));
      if invalid != 0 {
        index := index + TrailingZeros(invalid, 64) / 8;
        return;
      }
      index := index + 8;
    }
    while index < |value| && Valid(value[index])
      invariant index <= |value| && forall j :: 0 <= j < index ==> Valid(value[j])
    {
      index := index + 1;
    }
  }
}
