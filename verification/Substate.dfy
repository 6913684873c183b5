/** Values and masks for parts of the 32-bit state: numbered sections of equal width, and
    patterns over `0`, `1` and `*`. */
module Substate {
  import opened Options
  import opened Bits

  const WIDTH := 32

  datatype Masked = Masked(value: nat, mask: nat)

  /** A word with `block` placed `offset` bits from the right and zeros elsewhere. */
  function Placed(block: Word, offset: nat): Word
    requires offset + |block| <= WIDTH
  {
    Zeros(WIDTH - offset - |block|) + block + Zeros(offset)
  }

  lemma PlacedValue(block: Word, offset: nat)
    requires offset + |block| <= WIDTH
    ensures FromBits(Placed(block, offset)) == Shifted(FromBits(block), offset)
  {
    var high := WIDTH - offset - |block|;
    ParseZerosOnes(high);
    ParseZerosOnes(offset);
    ShiftedZero(|block|);
    ParseConcat(Zeros(high), block);
    assert FromBits(Zeros(high) + block) == FromBits(block);
    ParseConcat(Zeros(high) + block, Zeros(offset));
    assert Placed(block, offset) == (Zeros(high) + block) + Zeros(offset);
  }

  // ---------------------------------------------------------------- sections

  /** The place that the program gives to a section; the last one wraps to the right end. */
  function OffsetOf(section: nat, count: nat): nat
    requires count > 0
  {
    (section % count) * (32 / count)
  }

  /** The program's error cases answer with two zeros; dividing by zero sections raises. */
  method SubstateOf(state: int, section: int, count: int) returns (r: Option<Masked>)
    ensures r.None? <==> state >= 0 && section >= 0 && count == 0
    ensures r.Some? ==>
              r.value == if 0 <= state && 1 <= section <= count && 32 % count == 0 && state < Pow2(32 / count)
                         then Masked(Shifted(state, OffsetOf(section, count)), SectionMask(section, count))
                         else Masked(0, 0)
  {
    if state < 0 || section < 0 || count < 0 {
      return Some(Masked(0, 0));
    }
    if count == 0 {
      return None;
    }
    if 32 % count != 0 {
      return Some(Masked(0, 0));
    }
    if state >= Pow2(32 / count) || section < 1 || section > count {
      return Some(Masked(0, 0));
    }
    var masked := SectionOf(state, section, count);
    return Some(masked);
  }

  method SectionOf(state: nat, section: nat, count: nat) returns (r: Masked)
    requires 1 <= section <= count <= 32 && 32 % count == 0 && state < Pow2(32 / count)
    ensures r == Masked(Shifted(state, OffsetOf(section, count)), SectionMask(section, count))
  {
    var width := 32 / count;
    PlaceFits(section, count);
    var binState := ToBits(state, width);
    var value, mask := FillSection(binState, section * width, OffsetOf(section, count));
    PlacedValue(Ones(width), OffsetOf(section, count));
    PlacedValue(binState, OffsetOf(section, count));
    ParseZerosOnes(width);
    ParseInvertsFormat(state, width);
    return Masked(FromBits(value), FromBits(mask));
  }

  /** Sets the bits of a section from right to left. Negative list positions count from the
      end, so a section that starts beyond the word lands at its right end. */
  method FillSection(binState: Word, start: nat, ghost offset: nat) returns (value: Word, mask: Word)
    requires offset + |binState| <= WIDTH && (start == offset || (start == offset + WIDTH && offset == 0))
    ensures value == Placed(binState, offset) && mask == Placed(Ones(|binState|), offset)
  {
    var width := |binState|;
    mask, value := Zeros(WIDTH), Zeros(WIDTH);
    for i := 0 to width
      invariant mask == Zeros(WIDTH - offset - i) + Ones(i) + Zeros(offset)
      invariant value == Zeros(WIDTH - offset - i) + binState[width - i..] + Zeros(offset)
    {
      var place := if 31 - (start + i) >= 0 then 31 - (start + i) else 63 - (start + i);
      value := value[place := binState[width - 1 - i]];
      mask := mask[place := true];
    }
    assert binState[0..] == binState;
  }

  lemma ScaleUp(a: nat, b: nat, w: nat)
    requires a <= b
    ensures a * w <= b * w
  {
  }

  lemma WidthTimesCount(count: nat)
    requires 1 <= count <= 32 && 32 % count == 0
    ensures count * (32 / count) == 32 && 32 / count > 0
  {
  }

  /** Where a section lies: inside the word, and at `start` or 32 bits before it. */
  lemma PlaceFits(section: nat, count: nat)
    requires 1 <= section <= count <= 32 && 32 % count == 0
    ensures OffsetOf(section, count) + 32 / count <= WIDTH
    ensures section * (32 / count) == OffsetOf(section, count) + if section == count then WIDTH else 0
    ensures section == count ==> OffsetOf(section, count) == 0
  {
    WidthTimesCount(count);
    ScaledPlaceFits(section, count, 32 / count);
  }

  lemma ScaledPlaceFits(section: nat, count: nat, width: nat)
    requires 1 <= section <= count && count * width == WIDTH
    ensures var offset := (section % count) * width;
            && offset + width <= WIDTH
            && section * width == offset + (if section == count then WIDTH else 0)
            && (section == count ==> offset == 0)
  {
    if section < count {
      SmallRemainder(section, count);
      ScaleUp(section + 1, count, width);
      assert (section + 1) * width == section * width + width;
    } else {
      ScaleUp(1, count, width);
    }
  }

  lemma SmallRemainder(a: nat, b: nat)
    requires a < b
    ensures a % b == a
  {
  }

  function SectionMask(section: nat, count: nat): nat
    requires count > 0
  {
    Shifted(Pow2(32 / count) - 1, OffsetOf(section, count))
  }

  /** Bit `p` of the mask, counted from the right. */
  predicate MaskHasBit(section: nat, count: nat, p: nat)
    requires count > 0 && p < WIDTH
  {
    ToBits(SectionMask(section, count), WIDTH)[31 - p]
  }

  lemma MaskWord(section: nat, count: nat)
    requires 1 <= section <= count <= 32 && 32 % count == 0
    ensures OffsetOf(section, count) + 32 / count <= WIDTH
    ensures ToBits(SectionMask(section, count), WIDTH) == Placed(Ones(32 / count), OffsetOf(section, count))
  {
    PlaceFits(section, count);
    PlacedValue(Ones(32 / count), OffsetOf(section, count));
    ParseZerosOnes(32 / count);
    FormatInvertsParse(Placed(Ones(32 / count), OffsetOf(section, count)));
  }

  /** The block of section width that bit `p` lies in, counted from the right. */
  function BlockOf(count: nat, p: nat): (q: nat)
    requires 1 <= count <= 32 && 32 % count == 0 && p < WIDTH
    ensures q < count
    ensures q * (32 / count) <= p < q * (32 / count) + 32 / count
  {
    var width := 32 / count;
    assert count * width == 32;
    QuotientIff(p, width, p / width);
    BelowCount(p, count);
    p / width
  }

  lemma BelowCount(p: nat, count: nat)
    requires 1 <= count <= 32 && 32 % count == 0 && p < WIDTH
    ensures p / (32 / count) < count
  {
  }

  lemma SameBlock(count: nat, p: nat, q: nat)
    requires 1 <= count <= 32 && 32 % count == 0 && p < WIDTH
    ensures BlockOf(count, p) == q <==> q * (32 / count) <= p < q * (32 / count) + 32 / count
  {
    QuotientIff(p, 32 / count, q);
  }

  lemma MaskBits(section: nat, count: nat, p: nat)
    requires 1 <= section <= count <= 32 && 32 % count == 0 && p < WIDTH
    ensures MaskHasBit(section, count, p) <==> BlockOf(count, p) == section % count
  {
    MaskWord(section, count);
    SameBlock(count, p, section % count);
  }

  lemma QuotientIff(p: nat, width: nat, q: nat)
    requires width > 0
    ensures p / width == q <==> q * width <= p < q * width + width
  {
    var d := p / width;
    assert p == d * width + p % width;
    if q < d {
      assert (q + 1) * width <= d * width;
    } else if d < q {
      assert (d + 1) * width <= q * width;
    }
  }

  /** For every number of sections that divides 32, each bit of the state belongs to the mask
      of exactly one section. */
  lemma EachBitInOneSection(count: nat, p: nat)
    requires 1 <= count <= 32 && 32 % count == 0 && p < WIDTH
    ensures exists s :: 1 <= s <= count && MaskHasBit(s, count, p)
    ensures forall s, t :: 1 <= s <= count && 1 <= t <= count ==>
              (MaskHasBit(s, count, p) && MaskHasBit(t, count, p) ==> s == t)
  {
    HomeHasBit(count, p, Home(count, p));
    forall s | 1 <= s <= count ensures MaskHasBit(s, count, p) ==> s == Home(count, p) {
      HomeHasBit(count, p, s);
    }
  }

  /** The section that bit `p` belongs to. */
  function Home(count: nat, p: nat): (s: nat)
    requires 1 <= count <= 32 && 32 % count == 0 && p < WIDTH
    ensures 1 <= s <= count
  {
    if BlockOf(count, p) == 0 then count else BlockOf(count, p)
  }

  lemma HomeHasBit(count: nat, p: nat, s: nat)
    requires 1 <= s <= count <= 32 && 32 % count == 0 && p < WIDTH
    ensures MaskHasBit(s, count, p) <==> s == Home(count, p)
  {
    MaskBits(s, count, p);
    WrappedNumber(BlockOf(count, p), s, count);
  }

  lemma WrappedNumber(q: nat, s: nat, count: nat)
    requires 1 <= s <= count && q < count
    ensures q == s % count <==> s == if q == 0 then count else q
  {
  }

  /** The value lies under its mask and, read at the section's place, gives the state back. */
  lemma SectionHoldsState(state: nat, section: nat, count: nat)
    requires 1 <= section <= count <= 32 && 32 % count == 0 && state < Pow2(32 / count)
    ensures var value, width, offset := Shifted(state, OffsetOf(section, count)), 32 / count, OffsetOf(section, count);
            && And32(value, SectionMask(section, count)) == value
            && offset + width <= WIDTH
            && FromBits(ToBits(value, WIDTH)[WIDTH - offset - width..WIDTH - offset]) == state
  {
    MaskWord(section, count);
    var width, offset := 32 / count, OffsetOf(section, count);
    var v, m := Placed(ToBits(state, width), offset), Placed(Ones(width), offset);
    PlacedValue(ToBits(state, width), offset);
    ParseInvertsFormat(state, width);
    FormatInvertsParse(v);
    assert And(v, m) == v;
    assert v[WIDTH - offset - width..WIDTH - offset] == ToBits(state, width);
  }

  /** The documentation counts sections from the right end, starting with one; the program puts
      no section there unless it is the only one. */
  lemma DocumentedPlaceIff(section: nat, count: nat)
    requires 1 <= section <= count <= 32 && 32 % count == 0
    ensures OffsetOf(section, count) == (section - 1) * (32 / count) <==> count == 1
  {
    var width := 32 / count;
    WidthTimesCount(count);
    if section < count {
      assert section % count == section && section * width == (section - 1) * width + width;
    } else if count > 1 {
      ScaleUp(1, section - 1, width);
      assert section % count == 0;
    }
  }

  // ---------------------------------------------------------------- patterns

  predicate IsPattern(s: string) {
    forall i :: 0 <= i < |s| ==> s[i] in {'0', '1', '*'}
  }

  /** The pattern lies within the word. */
  predicate Accepted(s: string, offset: int) {
    s != [] && 0 <= offset && offset + |s| <= WIDTH
  }

  /** The bits of `x` under the pattern, placed `offset` bits from the right, agree with it. */
  ghost predicate FitsPattern(x: Word, s: string, offset: nat)
    requires |x| == WIDTH && Accepted(s, offset)
  {
    forall i :: 0 <= i < |s| && s[i] != '*' ==> (x[WIDTH - offset - |s| + i] <==> s[i] == '1')
  }

  function CareBits(s: string): Word {
    seq(|s|, i requires 0 <= i < |s| => s[i] != '*')
  }

  function ValueBits(s: string): Word {
    seq(|s|, i requires 0 <= i < |s| => s[i] == '1')
  }

  /** What the program looks for instead of a foreign character: the letter r before one. */
  ghost predicate LooksForeign(s: string) {
    exists i :: 0 <= i < |s| - 1 && s[i] == 'r' && s[i + 1] !in {'0', '1', '*'}
  }

  method FindsForeign(s: string) returns (found: bool)
    ensures found <==> LooksForeign(s)
  {
    for i := 0 to |s|
      invariant forall j :: 0 <= j < i && j < |s| - 1 ==> !(s[j] == 'r' && s[j + 1] !in {'0', '1', '*'})
    {
      if i < |s| - 1 && s[i] == 'r' && s[i + 1] !in {'0', '1', '*'} {
        return true;
      }
    }
    return false;
  }

  /** A 32-bit number matches value and mask exactly when it fits the pattern. There is no
      result where a foreign character gets through to the number parser. */
  method MaskedGlobalState(s: string, offset: int) returns (r: Option<Masked>)
    ensures r.None? <==> Accepted(s, offset) && !LooksForeign(s) && !IsPattern(s)
    ensures !Accepted(s, offset) || LooksForeign(s) ==> r == Some(Masked(0, 0))
    ensures Accepted(s, offset) && IsPattern(s) ==>
              forall x: nat :: And32(x, r.value.mask) == r.value.value <==> FitsPattern(ToBits(x, WIDTH), s, offset)
  {
    var foreign := FindsForeign(s);
    if foreign || |s| > 32 || |s| < 1 || offset > 31 || offset < 0 || |s| + offset > 32 {
      return Some(Masked(0, 0));
    }
    var mask, value := Zeros(WIDTH), Zeros(WIDTH);
    for i := 0 to |s|
      invariant mask == Zeros(WIDTH - offset - i) + CareBits(s)[|s| - i..] + Zeros(offset)
      invariant value == Zeros(WIDTH - offset - i) + ValueBits(s)[|s| - i..] + Zeros(offset)
    {
      var c := s[|s| - 1 - i];
      var place := 31 - (offset + i);
      assert CareBits(s)[|s| - (i + 1)..] == [c != '*'] + CareBits(s)[|s| - i..];
      assert ValueBits(s)[|s| - (i + 1)..] == [c == '1'] + ValueBits(s)[|s| - i..];
      if c != '*' {
        mask := mask[place := true];
        value := value[place := c == '1'];
      }
    }
    assert CareBits(s)[0..] == CareBits(s) && ValueBits(s)[0..] == ValueBits(s);
    forall x: nat ensures And32(x, FromBits(mask)) == FromBits(value) <==> FitsPattern(ToBits(x, WIDTH), s, offset) {
      PatternMatches(x, s, offset);
    }
    return if IsPattern(s) then Some(Masked(FromBits(value), FromBits(mask))) else None;
  }

  lemma PatternMatches(x: nat, s: string, offset: nat)
    requires Accepted(s, offset)
    ensures And32(x, FromBits(Placed(CareBits(s), offset))) == FromBits(Placed(ValueBits(s), offset))
            <==> FitsPattern(ToBits(x, WIDTH), s, offset)
  {
    var w, m, v := ToBits(x, WIDTH), Placed(CareBits(s), offset), Placed(ValueBits(s), offset);
    FormatInvertsParse(m);
    ParseIsInjective(And(w, m), v);
    WordFits(w, s, offset);
  }

  lemma WordFits(w: Word, s: string, offset: nat)
    requires |w| == WIDTH && Accepted(s, offset)
    ensures And(w, Placed(CareBits(s), offset)) == Placed(ValueBits(s), offset) <==> FitsPattern(w, s, offset)
  {
    var m, v := Placed(CareBits(s), offset), Placed(ValueBits(s), offset);
    var lo := WIDTH - offset - |s|;
    assert forall p :: 0 <= p < WIDTH ==> m[p] == (lo <= p < lo + |s| && s[p - lo] != '*');
    assert forall p :: 0 <= p < WIDTH ==> v[p] == (lo <= p < lo + |s| && s[p - lo] == '1');
    if And(w, m) == v {
      forall i | 0 <= i < |s| && s[i] != '*' ensures w[lo + i] <==> s[i] == '1' {
        assert And(w, m)[lo + i] == v[lo + i];
      }
    }
  }
}
