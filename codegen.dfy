/** Code generation for the slog integration: the statement that wraps a
    text handler in the New Relic log-context handler. */
module Codegen {
  import opened Ast

  /** Import path of the New Relic slog integration. */
  const NrslogImportPath := "github.com/newrelic/go-agent/v3/integrations/logcontext-v2/nrslog"

  /** Name of the agent variable that the generated code passes to the wrapper. */
  const AgentVariableName := "NewRelicAgent"

  /** `SlogHandlerWrapper(handlerName, nrHandlerName)`: the statement
      `nrHandlerName := nrslog.WrapHandler(NewRelicAgent, handlerName)`, on a
      line of its own, together with the import path it needs. */
  function SlogHandlerWrapper(handlerName: string, nrHandlerName: string): (r: (Stmt, string))
    ensures r.0.AssignStmt?
    ensures r.0.lhs == [Ident(nrHandlerName, "")]
    ensures r.0.tok == Define
    ensures |r.0.rhs| == 1 && r.0.rhs[0].Call?
    ensures r.0.rhs[0].fun == Ident("WrapHandler", NrslogImportPath)
    ensures r.0.rhs[0].args == [Ident(AgentVariableName, ""), Ident(handlerName, "")]
    ensures r.0.decs.before == NewLine && r.0.decs.after == NoSpace
    ensures r.1 == NrslogImportPath
  {
    (AssignStmt(
       [Ident(nrHandlerName, "")],
       Define,
       [Call(Ident("WrapHandler", NrslogImportPath),
             [Ident(AgentVariableName, ""), Ident(handlerName, "")])],
       NodeDecs(NewLine, NoSpace)),
     NrslogImportPath)
  }
}
