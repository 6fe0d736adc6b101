/** The tree the semantic analyser and the code generator walk, and the
    symbol table they share. Unlike the parser's `Tree`, this node reads its
    kind from `type` and always carries a value (the empty string when the
    original node holds none). */
module Ast {

  datatype Node = Node(kind: string, value: string, children: seq<Node>)

  /** A symbol-table entry: the declared type name and the memory address. */
  datatype Entry = Entry(typ: string, address: nat)

  type SymbolTable = map<string, Entry>
}
