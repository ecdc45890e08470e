/**
 * The stack machine of src/interpreter.rs: `interpret_chunk` runs a chunk's code words with an operand
 * stack and an instruction index `ip`, both fields of an `Interpreter` that the run updates in place.
 *
 * Values are numbers (`real`). Where the Rust code would panic, or has no match arm at all, the run
 * ends in `Aborted` with the reason. `Run` is the reference definition of the loop, and `Depth` a
 * value-free account of the stack height that predicts, from the code alone, whether a run succeeds.
 */
module Interpreter {
  import opened Wrappers
  import opened OpCodes
  import opened Chunks
  import Compiler

  datatype RuntimeError = InvalidOpCode(word: nat) | InvalidBinaryOperator | IncompleteExpression | ExpectedOperand

  datatype InterpreterError = CompilerFailure(compilerError: Compiler.CompilerError) | Runtime(runtimeError: RuntimeError)

  /** The points where the Rust code panics, or would not compile. */
  datatype Abort =
    | MissingConstantIndex          // `chunk.code[self.ip + 1]` past the end of the code
    | ConstantOutOfRange(index: nat) // `chunk.constants[constant_idx]` past the end of the pool
    | EmptyResult                    // `self.stack[0]` on an empty stack
    | Unhandled(op: OpCode)          // `SetVar` and `GetVar` have no arm in the instruction match

  /** How a run ends. */
  datatype Outcome = Done(value: real) | Failed(error: InterpreterError) | Aborted(abort: Abort)

  /** `left / right`; division by zero, an IEEE infinity or NaN in the source, is taken to be 0. */
  function Quotient(left: real, right: real): (q: real)
    ensures right != 0.0 ==> q * right == left
  {
    if right == 0.0 then 0.0 else left / right
  }

  /** The arithmetic of `interpret_binary_op`: `left op right` for the four arithmetic instructions. */
  function Arith(op: OpCode, left: real, right: real): (r: Option<real>)
    ensures r.Some? <==> op in {Add, Subtract, Multiply, Divide}
  {
    match op
    case Add => Some(left + right)
    case Subtract => Some(left - right)
    case Divide => Some(Quotient(left, right))
    case Multiply => Some(left * right)
    case _ => None
  }

  // ---------------------------------------------------------------------------------------------
  // Reference definition
  // ---------------------------------------------------------------------------------------------

  /** The number of operands an instruction pops before it pushes its one result. */
  function Pops(op: OpCode): nat {
    match op
    case Constant => 0
    case Negate => 1
    case _ => 2
  }

  /** The end of `interpret_chunk`, once the code is exhausted. */
  function Finish(stack: seq<real>): Outcome {
    if |stack| > 1 then Failed(Runtime(IncompleteExpression))
    else if stack == [] then Aborted(EmptyResult)
    else Done(stack[0])
  }

  /** Where one iteration of the loop leaves the machine: a new stack and `ip`, or how the run ended. */
  datatype Step = Next(stack: seq<real>, ip: nat) | Halt(outcome: Outcome)

  /**
   * One iteration of the loop of `interpret_chunk`, on the word at `ip`. A step that goes on moves
   * `ip` forward, pops `Pops(op)` operands and pushes one value, leaving the stack below
   * untouched; a step that stops fails with the word it could not decode or for want of an operand,
   * or aborts, but never ends the run with a value.
   */
  function StepAt(chunk: Chunk, stack: seq<real>, ip: nat): (r: Step)
    requires ip < |chunk.code|
    ensures r.Next? ==>
      && ip < r.ip <= |chunk.code|
      && FromUsize(chunk.code[ip]).Some?
      && var k := |stack| - Pops(FromUsize(chunk.code[ip]).value);
         0 <= k && |r.stack| == k + 1 && r.stack[..k] == stack[..k]
    ensures r.Halt? ==> !r.outcome.Done? && r.outcome != Aborted(EmptyResult)
    ensures r.Halt? && r.outcome.Failed? ==>
      r.outcome.error == Runtime(ExpectedOperand) ||
      (r.outcome.error == Runtime(InvalidOpCode(chunk.code[ip])) && chunk.code[ip] > 7)
  {
    var word := chunk.code[ip];
    var n := |stack|;
    match FromUsize(word)
    case None => Halt(Failed(Runtime(InvalidOpCode(word))))
    case Some(op) =>
      match op
      case Constant =>
        if ip + 1 >= |chunk.code| then Halt(Aborted(MissingConstantIndex))
        else if chunk.code[ip + 1] >= |chunk.constants| then Halt(Aborted(ConstantOutOfRange(chunk.code[ip + 1])))
        else Next(stack + [chunk.constants[chunk.code[ip + 1]]], ip + 2)
      case Negate =>
        if stack == [] then Halt(Failed(Runtime(ExpectedOperand)))
        else Next(stack[..n - 1] + [-stack[n - 1]], ip + 1)
      case SetVar => Halt(Aborted(Unhandled(SetVar)))
      case GetVar => Halt(Aborted(Unhandled(GetVar)))
      case _ =>
        if n < 2 then Halt(Failed(Runtime(ExpectedOperand)))
        else Next(stack[..n - 2] + [Arith(op, stack[n - 2], stack[n - 1]).value], ip + 1)
  }

  /** The loop of `interpret_chunk` from stack `stack` and instruction index `ip`. */
  function Run(chunk: Chunk, stack: seq<real>, ip: nat): Outcome
    decreases |chunk.code| - ip
  {
    if ip >= |chunk.code| then Finish(stack)
    else
      match StepAt(chunk, stack, ip)
      case Halt(outcome) => outcome
      case Next(after, next) => Run(chunk, after, next)
  }

  // ---------------------------------------------------------------------------------------------
  // The Interpreter object
  // ---------------------------------------------------------------------------------------------

  class Interpreter {
    var stack: seq<real>
    var ip: nat

    constructor ()
      ensures stack == [] && ip == 0
    {
      stack := [];
      ip := 0;
    }

    /** `Vec::pop` on the stack. */
    method Pop() returns (top: Option<real>)
      modifies this
      ensures old(stack) == [] ==> top.None? && stack == []
      ensures old(stack) != [] ==> top == Some(old(stack)[|old(stack)| - 1]) && stack == old(stack)[..|old(stack)| - 1]
      ensures ip == old(ip)
    {
      if stack == [] {
        return None;
      }
      top := Some(stack[|stack| - 1]);
      stack := stack[..|stack| - 1];
    }

    method InterpretChunk(chunk: Chunk) returns (r: Outcome)
      modifies this
      ensures r == Run(chunk, [], 0)
      ensures r.Done? ==> stack == [r.value] && ip >= |chunk.code|
    {
      stack := [];
      ip := 0;
      while ip < |chunk.code|
        invariant Run(chunk, [], 0) == Run(chunk, stack, ip)
        decreases |chunk.code| - ip
      {
        ghost var step := StepAt(chunk, stack, ip);
        var word := chunk.code[ip];
        var opCode := FromUsize(word);
        if opCode.None? {
          return Failed(Runtime(InvalidOpCode(word)));
        }
        match opCode.value {
          case Constant =>
            if ip + 1 >= |chunk.code| {
              return Aborted(MissingConstantIndex);
            }
            var constantIdx := chunk.code[ip + 1];
            if constantIdx >= |chunk.constants| {
              return Aborted(ConstantOutOfRange(constantIdx));
            }
            stack := stack + [chunk.constants[constantIdx]];
            ip := ip + 2;
            assert step == Next(stack, ip);
          case Negate =>
            var operand := Pop();
            if operand.None? {
              return Failed(Runtime(ExpectedOperand));
            }
            ip := ip + 1;
            stack := stack + [-operand.value];
            assert step == Next(stack, ip);
          case SetVar =>
            return Aborted(Unhandled(SetVar));
          case GetVar =>
            return Aborted(Unhandled(GetVar));
          case _ =>
            var result := InterpretBinaryOp(opCode.value);
            if result.Err? {
              return Failed(result.error);
            }
            assert step == Next(stack, ip);
        }
      }
      if |stack| > 1 {
        return Failed(Runtime(IncompleteExpression));
      }
      if stack == [] {
        return Aborted(EmptyResult);
      }
      return Done(stack[0]);
    }

    /**
     * Pops the right operand, then the left one, and pushes `left op right`. With fewer than two
     * operands whatever was there is popped and the run fails; an instruction that is not arithmetic
     * fails after both pops.
     */
    method InterpretBinaryOp(opCode: OpCode) returns (r: Result<(), InterpreterError>)
      modifies this
      ensures var n := |old(stack)|;
        if n < 2 then r == Err(Runtime(ExpectedOperand)) && stack == [] && ip == old(ip)
        else
          var result := Arith(opCode, old(stack)[n - 2], old(stack)[n - 1]);
          if result.None? then r == Err(Runtime(InvalidBinaryOperator)) && stack == old(stack)[..n - 2] && ip == old(ip)
          else r == Ok(()) && stack == old(stack)[..n - 2] + [result.value] && ip == old(ip) + 1
    {
      var right := Pop();
      var left := Pop();
      if right.None? || left.None? {
        return Err(Runtime(ExpectedOperand));
      }
      var result := Arith(opCode, left.value, right.value);
      if result.None? {
        return Err(Runtime(InvalidBinaryOperator));
      }
      ip := ip + 1;
      stack := stack + [result.value];
      return Ok(());
    }
  }

  // ---------------------------------------------------------------------------------------------
  // Properties of the reference definition
  // ---------------------------------------------------------------------------------------------

  /**
   * The stack height the code from `ip` leaves when started at height `h`, or None when some
   * instruction on the way is not a valid word, lacks its constant, finds too few operands or has
   * no arm. Only the code and the size of the pool matter, never the values.
   */
  function Depth(chunk: Chunk, ip: nat, h: nat): Option<nat>
    decreases |chunk.code| - ip
  {
    if ip >= |chunk.code| then Some(h)
    else
      match FromUsize(chunk.code[ip])
      case None => None
      case Some(op) =>
        if op == SetVar || op == GetVar || h < Pops(op) then None
        else if op != Constant then Depth(chunk, ip + 1, h - Pops(op) + 1)
        else if ip + 1 < |chunk.code| && chunk.code[ip + 1] < |chunk.constants| then Depth(chunk, ip + 2, h + 1)
        else None
  }

  /** One step keeps `Depth` unchanged, and a step that stops is one `Depth` rejects. */
  predicate StepKeepsDepth(chunk: Chunk, stack: seq<real>, ip: nat)
    requires ip < |chunk.code|
  {
    match StepAt(chunk, stack, ip)
    case Next(after, next) => Depth(chunk, ip, |stack|) == Depth(chunk, next, |after|)
    case Halt(_) => Depth(chunk, ip, |stack|).None?
  }

  lemma StepFollowsDepth(chunk: Chunk, stack: seq<real>, ip: nat)
    requires ip < |chunk.code|
    ensures StepKeepsDepth(chunk, stack, ip)
  {
    var op := FromUsize(chunk.code[ip]);
    if op == Some(Negate) {
      NegateFollowsDepth(chunk, stack, ip);
    } else if op.Some? && op.value in {Add, Subtract, Multiply, Divide} {
      ArithFollowsDepth(chunk, stack, ip);
    }
  }

  lemma NegateFollowsDepth(chunk: Chunk, stack: seq<real>, ip: nat)
    requires ip < |chunk.code| && FromUsize(chunk.code[ip]) == Some(Negate)
    ensures StepKeepsDepth(chunk, stack, ip)
  {
    var n := |stack|;
    if n >= 1 {
      assert |stack[..n - 1] + [-stack[n - 1]]| == n;
    }
  }

  lemma ArithFollowsDepth(chunk: Chunk, stack: seq<real>, ip: nat)
    requires ip < |chunk.code| && FromUsize(chunk.code[ip]).Some?
    requires FromUsize(chunk.code[ip]).value in {Add, Subtract, Multiply, Divide}
    ensures StepKeepsDepth(chunk, stack, ip)
  {
    var n := |stack|;
    if n >= 2 {
      var op := FromUsize(chunk.code[ip]).value;
      assert |stack[..n - 2] + [Arith(op, stack[n - 2], stack[n - 1]).value]| == n - 1;
    }
  }

  /**
   * The stack-height bookkeeping decides how a run ends: it returns a value exactly when the code
   * leaves one value behind, fails with `IncompleteExpression` exactly when it leaves several, and
   * reaches `stack[0]` on an empty stack exactly when it leaves none.
   */
  lemma {:induction false} RunFollowsDepth(chunk: Chunk, stack: seq<real>, ip: nat)
    ensures Run(chunk, stack, ip).Done? <==> Depth(chunk, ip, |stack|) == Some(1)
    ensures Run(chunk, stack, ip) == Failed(Runtime(IncompleteExpression)) <==>
              Depth(chunk, ip, |stack|).Some? && Depth(chunk, ip, |stack|).value > 1
    ensures Run(chunk, stack, ip) == Aborted(EmptyResult) <==> Depth(chunk, ip, |stack|) == Some(0)
    decreases |chunk.code| - ip
  {
    if ip < |chunk.code| {
      StepFollowsDepth(chunk, stack, ip);
      var step := StepAt(chunk, stack, ip);
      assert StepKeepsDepth(chunk, stack, ip);
      if step.Next? {
        RunFollowsDepth(chunk, step.stack, step.ip);
      }
    }
  }

  /** `word` occurs in the code from `ip` on. */
  predicate InCode(chunk: Chunk, ip: nat, word: nat) {
    exists k :: ip <= k < |chunk.code| && chunk.code[k] == word
  }

  /**
   * A run fails only with a runtime error, never with `InvalidBinaryOperator` (only arithmetic words
   * reach `interpret_binary_op`), and an invalid word it reports is one of the chunk's words, above 7.
   */
  lemma {:induction false} RunFailures(chunk: Chunk, stack: seq<real>, ip: nat)
    ensures var r := Run(chunk, stack, ip);
      r.Failed? ==>
        && r.error.Runtime?
        && r.error.runtimeError != InvalidBinaryOperator
        && (r.error.runtimeError.InvalidOpCode? ==> r.error.runtimeError.word > 7 && InCode(chunk, ip, r.error.runtimeError.word))
    decreases |chunk.code| - ip
  {
    if ip < |chunk.code| {
      var step := StepAt(chunk, stack, ip);
      if step.Next? {
        RunFailures(chunk, step.stack, step.ip);
        var r := Run(chunk, stack, ip);
        if r.Failed? && r.error.Runtime? && r.error.runtimeError.InvalidOpCode? {
          var k :| step.ip <= k < |chunk.code| && chunk.code[k] == r.error.runtimeError.word;
          assert ip <= k;
        }
      }
    }
  }

  // ---------------------------------------------------------------------------------------------
  // Runs of small chunks
  // ---------------------------------------------------------------------------------------------

  /** A step that goes on hands the rest of the run its stack and `ip`. */
  lemma RunStep(chunk: Chunk, stack: seq<real>, ip: nat)
    requires ip < |chunk.code| && StepAt(chunk, stack, ip).Next?
    ensures Run(chunk, stack, ip) == Run(chunk, StepAt(chunk, stack, ip).stack, StepAt(chunk, stack, ip).ip)
  {
  }

  /** `Constant` pushes the constant its operand word names, onto the stack as it was, and moves past both words. */
  lemma RunConstant(chunk: Chunk, stack: seq<real>, ip: nat)
    requires ip + 1 < |chunk.code| && chunk.code[ip] == ToUsize(Constant) && chunk.code[ip + 1] < |chunk.constants|
    ensures Run(chunk, stack, ip) == Run(chunk, stack + [chunk.constants[chunk.code[ip + 1]]], ip + 2)
  {
    assert StepAt(chunk, stack, ip) == Next(stack + [chunk.constants[chunk.code[ip + 1]]], ip + 2);
    RunStep(chunk, stack, ip);
  }

  /** Past the last word the run ends as `Finish` says. */
  lemma RunEnd(chunk: Chunk, stack: seq<real>, ip: nat)
    requires ip >= |chunk.code|
    ensures Run(chunk, stack, ip) == Finish(stack)
  {
  }

  /** `Negate` replaces the top of the stack by its negation and moves one word on. */
  lemma RunNegate(chunk: Chunk, below: seq<real>, top: real, ip: nat)
    requires ip < |chunk.code| && chunk.code[ip] == ToUsize(Negate)
    ensures Run(chunk, below + [top], ip) == Run(chunk, below + [-top], ip + 1)
  {
    var stack := below + [top];
    assert stack[..|stack| - 1] == below && stack[|stack| - 1] == top;
    assert StepAt(chunk, stack, ip) == Next(below + [-top], ip + 1);
    RunStep(chunk, stack, ip);
  }

  /**
   * An arithmetic instruction on a stack ending in `left, right` (`right` on top) replaces the two
   * by `left op right`, keeps everything below and moves one word on.
   */
  lemma RunArith(chunk: Chunk, below: seq<real>, left: real, right: real, ip: nat)
    requires ip < |chunk.code| && 1 <= chunk.code[ip] <= 4
    ensures Run(chunk, below + [left, right], ip) == Run(chunk, below + [Arith(FromUsize(chunk.code[ip]).value, left, right).value], ip + 1)
  {
    var stack := below + [left, right];
    assert stack[..|stack| - 2] == below && stack[|stack| - 2] == left && stack[|stack| - 1] == right;
    assert StepAt(chunk, stack, ip) == Next(below + [Arith(FromUsize(chunk.code[ip]).value, left, right).value], ip + 1);
    RunStep(chunk, stack, ip);
  }

  /**
   * Two constants and an arithmetic instruction compute `a op b` for the constants `a` then `b`: the
   * right operand is popped first, so the left operand is the deeper one.
   */
  lemma OperandOrder(chunk: Chunk, word: nat, a: real, b: real)
    requires chunk.code == [0, 0, 0, 1, word] && 1 <= word <= 4 && chunk.constants == [a, b]
    ensures Run(chunk, [], 0) == Done(Arith(FromUsize(word).value, a, b).value)
  {
    RunConstant(chunk, [], 0);
    RunConstant(chunk, [a], 2);
    assert [] + [a] == [a] && [a] + [b] == [] + [a, b];
    RunArith(chunk, [], a, b, 4);
    var v := Arith(FromUsize(word).value, a, b).value;
    RunEnd(chunk, [] + [v], 5);
    assert [] + [v] == [v];
  }

  /** The code of `1 + 2 * 3` in postfix order evaluates to 7. */
  lemma SumOfProduct(chunk: Chunk)
    requires chunk.code == [0, 0, 0, 1, 0, 2, 3, 1] && chunk.constants == [1.0, 2.0, 3.0]
    ensures Run(chunk, [], 0) == Done(7.0)
  {
    RunConstant(chunk, [], 0);
    RunConstant(chunk, [1.0], 2);
    RunConstant(chunk, [1.0, 2.0], 4);
    assert [] + [1.0] == [1.0] && [1.0] + [2.0] == [1.0, 2.0] && [1.0, 2.0] + [3.0] == [1.0] + [2.0, 3.0];
    RunArith(chunk, [1.0], 2.0, 3.0, 6);
    assert [1.0] + [6.0] == [] + [1.0, 6.0];
    RunArith(chunk, [], 1.0, 6.0, 7);
    assert [] + [7.0] == [7.0];
  }

  /** The code of `-(3 - 1)` evaluates to -2. */
  lemma NegatedDifference(chunk: Chunk)
    requires chunk.code == [0, 0, 0, 1, 2, 5] && chunk.constants == [3.0, 1.0]
    ensures Run(chunk, [], 0) == Done(-2.0)
  {
    RunConstant(chunk, [], 0);
    RunConstant(chunk, [3.0], 2);
    assert [] + [3.0] == [3.0] && [3.0] + [1.0] == [] + [3.0, 1.0];
    RunArith(chunk, [], 3.0, 1.0, 4);
    RunNegate(chunk, [], 2.0, 5);
    assert [] + [-2.0] == [-2.0];
  }

  /** A word that decodes to no instruction, and an instruction short of operands, fail the run. */
  lemma RuntimeFailures(a: real)
    ensures Run(Chunk([9], [], []), [], 0) == Failed(Runtime(InvalidOpCode(9)))
    ensures Run(Chunk([5], [], []), [], 0) == Failed(Runtime(ExpectedOperand))
    ensures Run(Chunk([0, 0, 1], [a], []), [], 0) == Failed(Runtime(ExpectedOperand))
  {
    RunConstant(Chunk([0, 0, 1], [a], []), [], 0);
    assert [] + [a] == [a];
  }

  /** Code that leaves two values, or none, does not end with a value. */
  lemma FinishFailures(a: real, b: real)
    ensures Run(Chunk([0, 0, 0, 1], [a, b], []), [], 0) == Failed(Runtime(IncompleteExpression))
    ensures Run(Chunk([], [], []), [], 0) == Aborted(EmptyResult)
  {
    var pair := Chunk([0, 0, 0, 1], [a, b], []);
    RunConstant(pair, [], 0);
    RunConstant(pair, [a], 2);
    assert [] + [a] == [a] && [a] + [b] == [a, b];
    RunEnd(pair, [a, b], 4);
  }

  /** Where the Rust code would panic or has no arm: a missing or out-of-range constant index, a variable instruction. */
  lemma Aborts(a: real)
    ensures Run(Chunk([0], [], []), [], 0) == Aborted(MissingConstantIndex)
    ensures Run(Chunk([0, 3], [a], []), [], 0) == Aborted(ConstantOutOfRange(3))
    ensures Run(Chunk([6], [], []), [], 0) == Aborted(Unhandled(SetVar))
    ensures Run(Chunk([7], [], []), [], 0) == Aborted(Unhandled(GetVar))
  {
  }
}
