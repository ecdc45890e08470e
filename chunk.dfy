/** A compiled chunk (src/compiler/chunk.rs): machine words, the constant pool and the source tokens. */
module Chunks {
  import Lexer

  /**
   * `code` holds instruction words and, after each `Constant`, the index of its constant. The pool
   * holds numbers: the interpreter does arithmetic on every value it loads.
   */
  datatype Chunk = Chunk(code: seq<nat>, constants: seq<real>, tokens: seq<Lexer.Token>)

  /** `Chunk::new()`. */
  const EmptyChunk := Chunk([], [], [])
}
