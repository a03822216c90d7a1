/** The bit operations of parse_string on 32-bit words (src/cJSON.c:184-193),
    tied to the numbers that the reference parser computes with. */
module JsonWords {
  import opened JsonParse

  /** uc=0x10000 | ((uc&0x3FF)<<10) | (uc2&0x3FF) */
  function JoinWord(hi: bv32, lo: bv32): bv32 {
    0x10000 | ((hi & 0x3FF) << 10) | (lo & 0x3FF)
  }

  /** (uc | 0x80) & 0xBF */
  function TailWord(u: bv32): bv32 {
    (u | 0x80) & 0xBF
  }

  /** The bytes that the switch over the length writes from the last to the first. */
  function Utf8Words(u: bv32): seq<bv32> {
    if u < 0x80 then [u | 0x00]
    else if u < 0x800 then [(u >> 6) | 0xC0, TailWord(u)]
    else if u < 0x10000 then [((u >> 6) >> 6) | 0xE0, TailWord(u >> 6), TailWord(u)]
    else [(((u >> 6) >> 6) >> 6) | 0xF0, TailWord((u >> 6) >> 6), TailWord(u >> 6), TailWord(u)]
  }

  /** The twenty payload bits of the two halves. */
  function Payload(hi: bv32, lo: bv32): bv32 {
    ((hi & 0x3FF) << 10) | (lo & 0x3FF)
  }

  lemma PayloadAdds(hi: bv32, lo: bv32)
    ensures Payload(hi, lo) == ((hi & 0x3FF) << 10) + (lo & 0x3FF)
  {
  }

  lemma JoinIsOr(hi: bv32, lo: bv32)
    ensures JoinWord(hi, lo) == 0x10000 | Payload(hi, lo)
  {
  }

  lemma SetBit16(x: bv32)
    ensures x & 0x10000 != 0 ==> 0x10000 | x == x
    ensures x & 0x10000 == 0 ==> 0x10000 | x == x + 0x10000
  {
  }

  /** The join adds 0x10000 to the payload unless bit 16 is set already. */
  lemma JoinWordAdds(hi: bv32, lo: bv32)
    ensures Payload(hi, lo) & 0x10000 != 0 ==> JoinWord(hi, lo) == Payload(hi, lo)
    ensures Payload(hi, lo) & 0x10000 == 0 ==> JoinWord(hi, lo) == Payload(hi, lo) + 0x10000
  {
    hide *;
    JoinIsOr(hi, lo);
    SetBit16(Payload(hi, lo));
  }

  /** Continuation and first bytes are sums: the marks and the payload share no bit. */
  lemma MarksAdd(u: bv32)
    ensures TailWord(u) == 0x80 + (u & 0x3F)
    ensures (u & 0x1F) | 0xC0 == 0xC0 + (u & 0x1F)
    ensures (u & 0x0F) | 0xE0 == 0xE0 + (u & 0x0F)
    ensures (u & 0x07) | 0xF0 == 0xF0 + (u & 0x07)
  {
  }

  // ----- words and numbers

  /** The number a word stands for. */
  function Num(x: bv32): nat {
    x as int
  }

  lemma Glue6(x: bv32, y: bv32)
    requires x < 0x100 && y < 0x40
    ensures Num((x << 6) | y) == Num(x) * 0x40 + Num(y) && Num(y) < 0x40
  {
  }

  lemma Glue8(x: bv32, y: bv32)
    requires x < 0x100 && y < 0x100
    ensures Num((x << 8) | y) == Num(x) * 0x100 + Num(y) && Num(x) < 0x100 && Num(y) < 0x100
  {
  }

  lemma Glue10(x: bv32, y: bv32)
    requires x < 0x400 && y < 0x400
    ensures Num((x << 10) | y) == Num(x) * 0x400 + Num(y) && Num(y) < 0x400
  {
  }

  lemma Glue14(x: bv32, y: bv32)
    requires x < 0x80 && y < 0x4000
    ensures Num((x << 14) | y) == Num(x) * 0x4000 + Num(y)
  {
  }

  lemma Glue16(x: bv32, y: bv32)
    requires x < 0x10 && y < 0x10000
    ensures Num((x << 16) | y) == Num(x) * 0x10000 + Num(y)
  {
  }

  lemma Below16(y: bv32)
    requires y < 0x10000
    ensures Num(y) < 0x10000
  {
    hide Num;
    assert y == (((y >> 8) << 8) | (y & 0xFF)) && (y >> 8) < 0x100;
    Glue8(y >> 8, y & 0xFF);
  }

  lemma OddWord(x: bv32)
    requires x < 0x10
    ensures Num(x | 1) == if Num(x) % 2 == 1 then Num(x) else Num(x) + 1
  {
  }

  lemma FirstByte(y: bv32)
    ensures y < 0x20 ==> Num(y | 0xC0) == Num(y) + 0xC0
    ensures y < 0x10 ==> Num(y | 0xE0) == Num(y) + 0xE0
    ensures y < 0x8 ==> Num(y | 0xF0) == Num(y) + 0xF0
  {
  }

  lemma Split14(u: bv32)
    requires u < 0x200000
    ensures Num(u) == Num(u >> 14) * 0x4000 + Num(u & 0x3FFF)
  {
    hide Num;
    assert u == (((u >> 14) << 14) | (u & 0x3FFF)) && (u >> 14) < 0x80;
    Glue14(u >> 14, u & 0x3FFF);
  }

  lemma Split8(u: bv32)
    requires u < 0x200000
    ensures Num(u >> 6) == Num(u >> 14) * 0x100 + Num((u >> 6) & 0xFF)
  {
    hide Num;
    assert u >> 6 == (((u >> 14) << 8) | ((u >> 6) & 0xFF)) && (u >> 14) < 0x80;
    Glue8(u >> 14, (u >> 6) & 0xFF);
  }

  lemma Split6(u: bv32)
    ensures Num(u & 0x3FFF) == Num((u >> 6) & 0xFF) * 0x40 + Num(u & 0x3F) && Num(u & 0x3F) < 0x40
  {
    hide Num;
    assert u & 0x3FFF == ((((u >> 6) & 0xFF) << 6) | (u & 0x3F)) && ((u >> 6) & 0xFF) < 0x100;
    Glue6((u >> 6) & 0xFF, u & 0x3F);
  }

  /** A shift by six divides by 64, and the mask is the remainder. */
  lemma ShiftDivides(u: bv32)
    requires u < 0x200000
    ensures Num(u >> 6) == Num(u) / 0x40 && Num(u & 0x3F) == Num(u) % 0x40
  {
    hide Num;
    Split14(u);
    Split8(u);
    Split6(u);
    Divides(Num(u), Num(u >> 14), Num((u >> 6) & 0xFF), Num(u & 0x3F));
  }

  lemma Divides(u: nat, a: nat, b: nat, c: nat)
    requires u == a * 0x4000 + b * 0x40 + c && c < 0x40
    ensures u / 0x40 == a * 0x100 + b && u % 0x40 == c
  {
  }

  /** The mask 0x3FF is the remainder modulo 1024. */
  lemma MaskIsMod(u: bv32)
    requires u < 0x10000
    ensures Num(u & 0x3FF) == Num(u) % 0x400
  {
    hide Num;
    assert u == (((u >> 10) << 10) | (u & 0x3FF)) && (u >> 10) < 0x400;
    Glue10(u >> 10, u & 0x3FF);
  }

  lemma Split16(x: bv32)
    requires x < 0x100000
    ensures Num(x) == Num(x >> 16) * 0x10000 + Num(x & 0xFFFF)
  {
    hide Num;
    assert x == (((x >> 16) << 16) | (x & 0xFFFF)) && (x >> 16) < 0x10;
    Glue16(x >> 16, x & 0xFFFF);
  }

  lemma SplitSet16(x: bv32)
    requires x < 0x100000
    ensures Num(0x10000 | x) == Num((x >> 16) | 1) * 0x10000 + Num(x & 0xFFFF)
  {
    hide Num;
    assert 0x10000 | x == ((((x >> 16) | 1) << 16) | (x & 0xFFFF)) && ((x >> 16) | 1) < 0x10;
    Glue16((x >> 16) | 1, x & 0xFFFF);
  }

  /** Setting bit 16 of a payload, as a number. */
  lemma SetBit16IsJoin(x: bv32)
    requires x < 0x100000
    ensures Num(0x10000 | x) == if Num(x) / 0x10000 % 2 == 1 then Num(x) else Num(x) + 0x10000
  {
    hide Num;
    Split16(x);
    SplitSet16(x);
    Below16(x & 0xFFFF);
    OddWord(x >> 16);
  }

  /** The join on words is the join of the reference parser. */
  lemma JoinWordIsJoin(hi: bv32, lo: bv32)
    requires hi < 0x10000 && lo < 0x10000
    ensures Num(JoinWord(hi, lo)) == Join(Num(hi), Num(lo))
  {
    hide Num, JoinWord, Payload;
    MaskIsMod(hi);
    MaskIsMod(lo);
    PayloadNumber(hi, lo);
    JoinIsOr(hi, lo);
    SetBit16IsJoin(Payload(hi, lo));
  }

  lemma PayloadNumber(hi: bv32, lo: bv32)
    ensures Payload(hi, lo) < 0x100000
    ensures Num(Payload(hi, lo)) == Num(hi & 0x3FF) * 0x400 + Num(lo & 0x3FF)
  {
    hide Num;
    Glue10(hi & 0x3FF, lo & 0x3FF);
  }

  lemma TailWordIsContinuation(u: bv32)
    requires u < 0x200000
    ensures Num(TailWord(u)) == Continuation(Num(u)) as int
  {
    hide Num;
    assert TailWord(u) == ((2 << 6) | (u & 0x3F));
    Glue6(2, u & 0x3F);
    ShiftDivides(u);
    Two();
  }

  lemma Two()
    ensures Num(2) == 2
  {
  }

  /** Where the numbers of bytes change. */
  lemma Bounds(u: bv32)
    requires u < 0x200000
    ensures u < 0x80 <==> Num(u) < 0x80
    ensures u < 0x800 <==> Num(u) < 0x800
    ensures u < 0x10000 <==> Num(u) < 0x10000
  {
    SmallBounds(u);
    if u < 0x10000 {
      Below16(u);
    } else {
      hide Num;
      assert u == (((u >> 14) << 14) | (u & 0x3FFF)) && 4 <= (u >> 14) < 0x80;
      Glue14(u >> 14, u & 0x3FFF);
      AtLeast4(u >> 14);
    }
  }

  lemma SmallBounds(u: bv32)
    ensures u < 0x80 <==> Num(u) < 0x80
    ensures u < 0x800 <==> Num(u) < 0x800
  {
  }

  lemma AtLeast4(x: bv32)
    requires 4 <= x < 0x80
    ensures Num(x) >= 4
  {
  }

  ghost predicate SameBytes(words: seq<bv32>, bytes: string) {
    |words| == |bytes| && forall i :: 0 <= i < |words| ==> Num(words[i]) == bytes[i] as int
  }

  lemma OneByte(u: bv32)
    requires u < 0x80 && Num(u) < 0x80
    ensures SameBytes(Utf8Words(u), Utf8(Num(u)))
  {
    assert u | 0x00 == u;
    hide Num;
  }

  lemma TwoBytes(u: bv32)
    requires 0x80 <= u < 0x800 && 0x80 <= Num(u) < 0x800
    ensures SameBytes(Utf8Words(u), Utf8(Num(u)))
  {
    hide Num, TailWord, Continuation;
    assert u >> 6 < 0x20;
    ShiftDivides(u);
    FirstByte(u >> 6);
    TailWordIsContinuation(u);
  }

  lemma ThreeBytes(u: bv32, u1: bv32, u2: bv32)
    requires 0x800 <= u < 0x10000 && 0x800 <= Num(u) < 0x10000 && u1 == u >> 6 && u2 == u1 >> 6
    ensures SameBytes(Utf8Words(u), Utf8(Num(u)))
  {
    hide Num, TailWord, Continuation;
    assert u1 < 0x400 && u2 < 0x10;
    ShiftDivides(u);
    ShiftDivides(u1);
    FirstByte(u2);
    TailWordIsContinuation(u);
    TailWordIsContinuation(u1);
  }

  lemma FourBytes(u: bv32, u1: bv32, u2: bv32, u3: bv32)
    requires 0x10000 <= u < 0x200000 && 0x10000 <= Num(u) < 0x200000 && u1 == u >> 6 && u2 == u1 >> 6 && u3 == u2 >> 6
    ensures SameBytes(Utf8Words(u), Utf8(Num(u)))
  {
    hide Num, TailWord, Continuation;
    assert u1 < 0x8000 && u2 < 0x200 && u3 < 0x8;
    ShiftDivides(u);
    ShiftDivides(u1);
    ShiftDivides(u2);
    FirstByte(u3);
    TailWordIsContinuation(u);
    TailWordIsContinuation(u1);
    TailWordIsContinuation(u2);
  }

  lemma Below21(u: bv32)
    requires u < 0x200000
    ensures Num(u) < 0x200000
  {
    hide Num;
    Split14(u);
    Split6(u);
    SmallBounds(u >> 14);
    Below256((u >> 6) & 0xFF);
  }

  lemma Below256(x: bv32)
    requires x < 0x100
    ensures Num(x) < 0x100
  {
  }

  /** The bytes written on words are those of the reference parser. */
  lemma Utf8WordsIsUtf8(u: bv32)
    requires u < 0x200000
    ensures Num(u) < 0x200000 && SameBytes(Utf8Words(u), Utf8(Num(u)))
  {
    Below21(u);
    Bounds(u);
    hide Num, Utf8Words, Utf8, SameBytes;
    if u < 0x80 {
      OneByte(u);
    } else if u < 0x800 {
      TwoBytes(u);
    } else if u < 0x10000 {
      ThreeBytes(u, u >> 6, (u >> 6) >> 6);
    } else {
      FourBytes(u, u >> 6, (u >> 6) >> 6, ((u >> 6) >> 6) >> 6);
    }
  }
}
