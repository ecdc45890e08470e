/** The instruction set of src/compiler/op_code.rs and its numbering as machine words. */
module OpCodes {
  import opened Wrappers

  datatype OpCode = Constant | Add | Subtract | Multiply | Divide | Negate | SetVar | GetVar

  /** `to_usize`: the enum's discriminant. Exactly the words 0 to 7 are used, and `from_usize` reads them back. */
  function ToUsize(op: OpCode): (word: nat)
    ensures word <= 7
    ensures FromUsize(word) == Some(op)
  {
    match op
    case Constant => 0
    case Add => 1
    case Subtract => 2
    case Multiply => 3
    case Divide => 4
    case Negate => 5
    case SetVar => 6
    case GetVar => 7
  }

  /** `from_usize`: the instruction a word encodes; a word above 7 encodes none. */
  function FromUsize(word: nat): (r: Option<OpCode>)
    ensures r.None? <==> word > 7
  {
    match word
    case 0 => Some(Constant)
    case 1 => Some(Add)
    case 2 => Some(Subtract)
    case 3 => Some(Multiply)
    case 4 => Some(Divide)
    case 5 => Some(Negate)
    case 6 => Some(SetVar)
    case 7 => Some(GetVar)
    case _ => None
  }

  /** Decoding then encoding gives the word back. */
  lemma DecodeEncode(word: nat)
    requires FromUsize(word).Some?
    ensures ToUsize(FromUsize(word).value) == word
  {
  }

  /** Distinct instructions have distinct words. */
  lemma ToUsizeInjective(a: OpCode, b: OpCode)
    requires ToUsize(a) == ToUsize(b)
    ensures a == b
  {
    assert FromUsize(ToUsize(a)) == Some(a);
  }

  /** The values of the language (`Value`); the machine of module `Interpreter` computes on numbers only. */
  datatype Value = Number(number: real) | String(text: string)
}
