/** Bytecode: the one opcode, its byte encoding, and the growable buffer of
    bytes a program is compiled into. */
module Blocks {
  import opened Wrappers

  /** An unsigned 8-bit byte. */
  newtype Byte = b: int | 0 <= b < 0x100

  datatype OpCode = Return

  /** Decodes a byte: 0x00 is `Return`, every other byte is no opcode. */
  function FromByte(byte: Byte): (op: Option<OpCode>)
    ensures op == Some(Return) <==> byte == 0x00
    ensures op == None <==> byte != 0x00
  {
    match byte
    case 0x00 => Some(Return)
    case _ => None
  }

  /** The byte an opcode is written as; the inverse of `FromByte`. */
  function ToByte(op: OpCode): Byte
  {
    match op
    case Return => 0x00
  }

  lemma DecodeEncoded(op: OpCode)
    ensures FromByte(ToByte(op)) == Some(op)
  {
  }

  lemma EncodeDecoded(byte: Byte)
    ensures FromByte(byte).Some? ==> ToByte(FromByte(byte).value) == byte
  {
  }

  /** A chunk of bytecode, appended to one byte at a time. */
  class Block {
    var code: seq<Byte>

    constructor ()
      ensures code == []
    {
      code := [];
    }

    /** Appends a byte: one longer, the byte last, the earlier bytes kept. */
    method Push(byte: Byte)
      modifies this
      ensures code == old(code) + [byte]
      ensures |code| == |old(code)| + 1 && code[|code| - 1] == byte
      ensures code[..|old(code)|] == old(code)
    {
      code := code + [byte];
    }
  }

  /** Pushing the bytes of a sequence, in order, onto a new block leaves
      exactly that sequence in it. */
  method Assemble(bytes: seq<Byte>) returns (block: Block)
    ensures fresh(block) && block.code == bytes
  {
    block := new Block();
    for i := 0 to |bytes|
      invariant block.code == bytes[..i]
    {
      block.Push(bytes[i]);
      assert bytes[..i + 1] == bytes[..i] + [bytes[i]];
    }
    assert bytes[..|bytes|] == bytes;
  }
}
