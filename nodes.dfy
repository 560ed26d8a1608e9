/** The instruction nodes the buildkit parser produces, and the boundaries to the parser
    and to the decompiler, which are inputs of the model. */
module Nodes {

  /** One instruction: its keyword as written (`Value`), the values of its `Next` chain of
      argument nodes, and its line range. */
  datatype Instruction = Instruction(value: string, args: seq<string>, startLine: int, endLine: int)

  /** The number of empty values in `args`. */
  function CountEmpty(args: seq<string>): nat {
    if args == [] then 0 else CountEmpty(args[..|args| - 1]) + (if args[|args| - 1] == "" then 1 else 0)
  }

  /** What parser.Parse returns: the root's children, or an error message. */
  datatype ParseResult = Parsed(children: seq<Instruction>) | ParseFailed(message: string)

  /** The external Containerfile parser, applied to one text. */
  type Parser = string -> ParseResult

  /** What decompiler.Decompile returns: the instructions of the image, or an error. */
  datatype DecompileResult = Decompiled(nodes: seq<Instruction>) | DecompileFailed(message: string)
}
