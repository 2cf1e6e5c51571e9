/** The fragment of the decorated Go syntax tree (the `dst` package) that the
    slog pass reads and writes. Nodes the pass does not look into are kept
    abstract (`OtherExpr`, `OtherStmt`, `OtherNode`). */
module Ast {

  /** An expression: an identifier with the import path it resolves to
      ("" for a local name), a call, or anything else. */
  datatype Expr =
    | Ident(name: string, path: string)
    | Call(fun: Expr, args: seq<Expr>)
    | OtherExpr

  /** The token of an assignment: `:=` (token.DEFINE), `=` (token.ASSIGN) or
      an operator assignment such as `+=`. */
  datatype Token = Define | AssignTok | OtherTok

  /** `dst.SpaceType`: the line break recorded before or after a node. */
  datatype SpaceType = NoSpace | NewLine | EmptyLine

  /** The spacing decorations of a statement (`dst.NodeDecs.Before` and `.After`). */
  datatype NodeDecs = NodeDecs(before: SpaceType, after: SpaceType)

  /** A statement of a function body. */
  datatype Stmt =
    | AssignStmt(lhs: seq<Expr>, tok: Token, rhs: seq<Expr>, decs: NodeDecs)
    | ExprStmt(x: Expr)
    | OtherStmt

  /** A function declaration whose body the pass splices in place
      (`decl.Body.List` is reassigned). */
  class FuncDecl {
    const name: string
    var body: seq<Stmt>

    constructor (name: string, body: seq<Stmt>)
      ensures this.name == name && this.body == body
    {
      this.name := name;
      this.body := body;
    }
  }

  /** The node under the traversal cursor. */
  datatype Node = FuncDeclNode(decl: FuncDecl) | OtherNode
}
