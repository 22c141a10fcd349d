/** A call of a call graph, cited at the line it is written on. */
module Calls {
  datatype Edge = Edge(caller: string, callee: string, path: string, line: int)
}
