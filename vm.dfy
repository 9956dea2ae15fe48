/** The virtual machine: it holds one block and runs it. */
module VirtualMachine {
  import opened Wrappers
  import opened Blocks

  datatype InterpretResult = Ok | CompileError | RuntimeError

  /** What running a non-empty block yields: the first byte alone decides,
      `Ok` when it is the `Return` opcode and a runtime error when it is no
      opcode. */
  function Execute(code: seq<Byte>): (r: InterpretResult)
    requires |code| > 0
    ensures r != CompileError
    ensures r == InterpretResult.Ok <==> FromByte(code[0]) == Some(Return)
  {
    match FromByte(code[0])
    case Some(Return) => InterpretResult.Ok
    case None => RuntimeError
  }

  /** Running never reports a compile error; it succeeds exactly when the
      first byte is 0x00. */
  lemma ExecuteOutcomes(code: seq<Byte>)
    requires |code| > 0
    ensures Execute(code) != CompileError
    ensures Execute(code) == InterpretResult.Ok <==> code[0] == 0x00
    ensures Execute(code) == RuntimeError <==> code[0] != 0x00
  {
  }

  /** Bytes after the first never change the outcome. */
  lemma ExecuteReadsFirstByte(code: seq<Byte>, other: seq<Byte>)
    requires |code| > 0 && |other| > 0 && code[0] == other[0]
    ensures Execute(code) == Execute(other)
  {
  }

  class VM {
    var block: Block

    constructor ()
      ensures fresh(block) && block.code == []
    {
      block := new Block();
    }

    /** Installs a block and runs it; the result is that of the new block,
        whatever block was installed before. */
    method Interpret(block: Block) returns (r: InterpretResult)
      requires |block.code| > 0
      modifies this
      ensures this.block == block
      ensures r == Execute(block.code)
    {
      this.block := block;
      ghost var fetched;
      r, fetched := Run();
    }

    /** The dispatch loop: fetch the byte at the program counter, advance
        it, and act on the decoded opcode, until an opcode ends the run.
        `fetched` lists the offsets read: only the first. */
    method Run() returns (r: InterpretResult, ghost fetched: seq<nat>)
      requires |block.code| > 0
      ensures r == Execute(block.code)
      ensures fetched == [0]
    {
      var pc := 0;
      var outcome: Option<InterpretResult> := None;
      fetched := [];
      while outcome.None?
        invariant pc <= 1 && |fetched| == pc && (pc == 1 ==> fetched[0] == 0)
        invariant outcome.None? <==> pc == 0
        invariant outcome.Some? ==> outcome.value == Execute(block.code)
        decreases 1 - pc
      {
        pc := pc + 1;
        fetched := fetched + [pc - 1];
        match FromByte(block.code[pc - 1]) {
          case Some(opcode) =>
            match opcode {
              case Return => outcome := Some(InterpretResult.Ok);
            }
          case None =>
            outcome := Some(RuntimeError);
        }
      }
      r := outcome.value;
    }
  }
}
