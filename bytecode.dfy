/**
 * An instruction as the C structs of all three generations lay it out: a
 * 4-byte opcode discriminant, 4 bytes of alignment padding and an 8-byte
 * operand word. The byte image is what `fwrite`/`fread` copy to and from a
 * program file; the model fixes little-endian order and zero padding.
 */
module Bytecode {
  import opened Words

  /** `{ type, operand }`: the opcode as the raw enum value it is stored as. */
  datatype Inst = Inst(code: bv32, operand: Word)

  /** `sizeof` of one instruction. */
  const INST_SIZE: int := 16

  /** The low 32 bits of a word, as a `uint32_t` cast takes them. */
  function Low32(w: Word): bv32
  {
    (w & 0xFFFF_FFFF) as bv32
  }

  lemma Low32Widen(x: bv32)
    ensures Low32(x as Word) == x
  {}

  function EncodeInst(i: Inst): (bs: seq<Byte>)
    ensures |bs| == INST_SIZE
  {
    Bytes(i.code as Word, 4) + [0, 0, 0, 0] + Bytes(i.operand, 8)
  }

  /** Reads one instruction image; the four padding bytes are ignored. */
  function DecodeInst(bs: seq<Byte>): Inst
    requires |bs| == INST_SIZE
  {
    Inst(Low32(LE(bs[0..4])), LE(bs[8..16]))
  }

  lemma CodeRoundTrip(c: bv32)
    ensures Low32(LE(Bytes(c as Word, 4))) == c
  {
    LEBytes4(c);
    Low32Widen(c);
  }

  lemma EncodeInstFields(i: Inst)
    ensures EncodeInst(i)[0..4] == Bytes(i.code as Word, 4)
    ensures EncodeInst(i)[8..16] == Bytes(i.operand, 8)
  {}

  lemma DecodeEncodeInst(i: Inst)
    ensures DecodeInst(EncodeInst(i)) == i
  {
    EncodeInstFields(i);
    CodeRoundTrip(i.code);
    LEBytes8(i.operand);
  }

  /** The byte image of an instruction array. */
  function EncodeInsts(p: seq<Inst>): (bs: seq<Byte>)
    ensures |bs| == INST_SIZE * |p|
  {
    if p == [] then [] else EncodeInst(p[0]) + EncodeInsts(p[1..])
  }

  /** The instructions whose images make up `bs`, one per 16 bytes. */
  function DecodeInsts(bs: seq<Byte>): (p: seq<Inst>)
    requires |bs| % INST_SIZE == 0
    ensures |p| == |bs| / INST_SIZE
  {
    if bs == [] then [] else [DecodeInst(bs[..INST_SIZE])] + DecodeInsts(bs[INST_SIZE..])
  }

  /** Decoding an encoded instruction array gives it back. */
  lemma {:induction false} DecodeEncode(p: seq<Inst>)
    ensures DecodeInsts(EncodeInsts(p)) == p
  {
    if p != [] {
      var bs := EncodeInsts(p);
      assert bs[..INST_SIZE] == EncodeInst(p[0]);
      assert bs[INST_SIZE..] == EncodeInsts(p[1..]);
      DecodeEncodeInst(p[0]);
      DecodeEncode(p[1..]);
    }
  }

  /** Encoding distributes over concatenation. */
  lemma {:induction false} EncodeAppend(p: seq<Inst>, q: seq<Inst>)
    ensures EncodeInsts(p + q) == EncodeInsts(p) + EncodeInsts(q)
  {
    if p == [] {
      assert p + q == q;
    } else {
      assert (p + q)[0] == p[0];
      assert (p + q)[1..] == p[1..] + q;
      EncodeAppend(p[1..], q);
    }
  }

  /** The first `k` instruction images are the image of the first `k` instructions. */
  lemma EncodePrefix(p: seq<Inst>, k: nat)
    requires k <= |p|
    ensures EncodeInsts(p)[..INST_SIZE * k] == EncodeInsts(p[..k])
  {
    assert p == p[..k] + p[k..];
    EncodeAppend(p[..k], p[k..]);
  }
}
