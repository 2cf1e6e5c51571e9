/** The slog injection pass: in the body of `main`, every
    `h := slog.NewTextHandler(...)` is followed by an inserted
    `NRh := nrslog.WrapHandler(NewRelicAgent, h)`, and later call arguments
    naming a detected handler are renamed to the wrapped one. */
module SlogParser {
  import opened Ast
  import opened Codegen
  import opened Seqs

  /** Import path that a text-handler call must resolve to. */
  const SlogPackagePath := "log/slog"

  /** The prefix that turns a handler name into the wrapped one. */
  const WrappedPrefix := "NR"

  /** The statement is `lhs := f(...)` with exactly one right-hand side, and
      `f` is the identifier `NewTextHandler` of package log/slog. */
  predicate IsTextHandlerCall(s: Stmt)
  {
    && s.AssignStmt?
    && |s.rhs| == 1
    && s.rhs[0].Call?
    && s.rhs[0].fun.Ident?
    && s.rhs[0].fun.name == "NewTextHandler"
    && s.rhs[0].fun.path == SlogPackagePath
  }

  /** The type assertion `v.Lhs[0].(*dst.Ident)` of `slogMiddlewareCall`
      succeeds: on a text-handler call the first left-hand side, when there
      is one, is an identifier. Other statements never reach the assertion. */
  predicate LhsWellFormed(s: Stmt)
  {
    IsTextHandlerCall(s) && |s.lhs| > 0 ==> s.lhs[0].Ident?
  }

  /** `slogMiddlewareCall` as written: the name bound by a text-handler call,
      or "" for every other statement and for an absent left-hand side. The
      unchecked type assertion panics unless `LhsWellFormed` holds, which
      is therefore its precondition. */
  function SlogMiddlewareCallAsWritten(stmt: Stmt): (name: string)
    requires LhsWellFormed(stmt)
    ensures name != "" ==> IsTextHandlerCall(stmt) && |stmt.lhs| > 0 && name == stmt.lhs[0].name
    ensures IsTextHandlerCall(stmt) && |stmt.lhs| > 0 ==> name == stmt.lhs[0].name
    ensures !IsTextHandlerCall(stmt) ==> name == ""
  {
    if !stmt.AssignStmt? || |stmt.rhs| != 1 then ""
    else if stmt.rhs[0].Call? then
      var call := stmt.rhs[0];
      if call.fun.Ident? then
        if call.fun.name == "NewTextHandler" && call.fun.path == SlogPackagePath then
          if |stmt.lhs| > 0 then stmt.lhs[0].name else ""
        else ""
      else ""
    else ""
  }

  /** A text handler assigned to a field (`cfg.h = slog.NewTextHandler(w, nil)`)
      has a selector, not an identifier, on its left: the assertion panics. */
  lemma SelectorLhsPanics()
    ensures !LhsWellFormed(AssignStmt([OtherExpr], AssignTok,
                                      [Call(Ident("NewTextHandler", SlogPackagePath), [OtherExpr, OtherExpr])],
                                      NodeDecs(NoSpace, NoSpace)))
  {
  }

  /** `slogMiddlewareCall` with the type assertion checked: a text-handler
      call whose first left-hand side is not an identifier is not matched,
      so the pass treats it like any other statement. */
  function SlogMiddlewareCall(stmt: Stmt): string
  {
    if IsTextHandlerCall(stmt) && |stmt.lhs| > 0 && stmt.lhs[0].Ident? then stmt.lhs[0].name else ""
  }

  /** Wherever the code as written does not panic, the checked matcher
      returns the same name. */
  lemma MatcherAgreesWhereDefined(stmt: Stmt)
    requires LhsWellFormed(stmt)
    ensures SlogMiddlewareCall(stmt) == SlogMiddlewareCallAsWritten(stmt)
  {
  }

  /** One call argument after renaming: an identifier naming a detected
      handler gets the wrapped name, keeping its import path. */
  function RenameArg(arg: Expr, names: seq<string>): Expr
  {
    if arg.Ident? && arg.name in names then Ident(WrappedPrefix + arg.name, arg.path) else arg
  }

  /** Every argument of a call after renaming, in order. */
  function RenameArgs(args: seq<Expr>, names: seq<string>): (r: seq<Expr>)
    ensures |r| == |args|
    ensures forall j :: 0 <= j < |args| ==> r[j] == RenameArg(args[j], names)
  {
    if args == [] then [] else [RenameArg(args[0], names)] + RenameArgs(args[1..], names)
  }

  /** A statement after renaming: the identifier arguments of a
      single-call assignment naming a detected handler get the wrapped name. */
  function RenameStmt(s: Stmt, names: seq<string>): Stmt
  {
    if s.AssignStmt? && |s.rhs| == 1 && s.rhs[0].Call? then
      AssignStmt(s.lhs, s.tok, [Call(s.rhs[0].fun, RenameArgs(s.rhs[0].args, names))], s.decs)
    else s
  }

  /** Renaming touches only the identifier arguments of a single-call
      assignment: every other statement, and every other part of that
      assignment, is kept; an argument changes exactly when it is an
      identifier naming a detected handler, and then only its name, to the
      wrapped name. */
  lemma RenameStmtSpec(s: Stmt, names: seq<string>)
    ensures var r := RenameStmt(s, names);
      && (!(s.AssignStmt? && |s.rhs| == 1 && s.rhs[0].Call?) ==> r == s)
      && (s.AssignStmt? && |s.rhs| == 1 && s.rhs[0].Call? ==>
            && r.AssignStmt? && r.lhs == s.lhs && r.tok == s.tok && r.decs == s.decs
            && |r.rhs| == 1 && r.rhs[0].Call? && r.rhs[0].fun == s.rhs[0].fun
            && |r.rhs[0].args| == |s.rhs[0].args|
            && (forall j :: 0 <= j < |s.rhs[0].args| ==>
                  var a := s.rhs[0].args[j];
                  && (a.Ident? && a.name in names ==> r.rhs[0].args[j] == Ident(WrappedPrefix + a.name, a.path))
                  && (!(a.Ident? && a.name in names) ==> r.rhs[0].args[j] == a)))
  {
  }

  /** What the pass leaves in place of one original statement, given the
      handler names detected before it: the statement and its wrapper when
      it is a text-handler call, else the statement renamed (renaming is
      only attempted once some handler has been seen). */
  function Process(s: Stmt, names: seq<string>): (out: seq<Stmt>)
  {
    var h := SlogMiddlewareCall(s);
    if h != "" then [s, SlogHandlerWrapper(h, WrappedPrefix + h).0]
    else if |names| > 0 then [RenameStmt(s, names)]
    else [s]
  }

  /** What the pass has built after some statements: the new statements,
      the handler names detected so far (in order) and the import paths
      handed to the manager (in call order). */
  datatype PassState = PassState(out: seq<Stmt>, names: seq<string>, imports: seq<string>)

  /** The pass's state after one more original statement. */
  function Step(st: PassState, s: Stmt): PassState
  {
    var h := SlogMiddlewareCall(s);
    PassState(st.out + Process(s, st.names),
              st.names + (if h != "" then [h] else []),
              st.imports + (if h != "" then [SlogHandlerWrapper(h, WrappedPrefix + h).1] else []))
  }

  /** The pass's state after the first `k` statements of `body`. */
  function Run(body: seq<Stmt>, k: nat): PassState
    requires k <= |body|
  {
    if k == 0 then PassState([], [], []) else Step(Run(body, k - 1), body[k - 1])
  }

  /** The handler names detected in a body, in statement order. */
  function Handlers(body: seq<Stmt>): seq<string>
  {
    Run(body, |body|).names
  }

  /** The body after the pass. */
  function Instrument(body: seq<Stmt>): seq<Stmt>
  {
    Run(body, |body|).out
  }

  /** The import paths the pass hands to the manager. */
  function AddedImports(body: seq<Stmt>): seq<string>
  {
    Run(body, |body|).imports
  }

  /** One step of the pass as written, with the unchecked matcher; defined
      only where its type assertion succeeds. */
  function StepAsWritten(st: PassState, s: Stmt): PassState
    requires LhsWellFormed(s)
  {
    var h := SlogMiddlewareCallAsWritten(s);
    PassState(st.out + (if h != "" then [s, SlogHandlerWrapper(h, WrappedPrefix + h).0]
                        else if |st.names| > 0 then [RenameStmt(s, st.names)]
                        else [s]),
              st.names + (if h != "" then [h] else []),
              st.imports + (if h != "" then [SlogHandlerWrapper(h, WrappedPrefix + h).1] else []))
  }

  /** The pass as written: defined only on bodies whose first `k`
      statements all pass the type assertion; on any other body `main`
      panics. */
  function RunAsWritten(body: seq<Stmt>, k: nat): PassState
    requires k <= |body|
    requires forall j | 0 <= j < k :: LhsWellFormed(body[j])
  {
    if k == 0 then PassState([], [], []) else StepAsWritten(RunAsWritten(body, k - 1), body[k - 1])
  }

  /** Where its assertion succeeds, a step as written is a step of the pass. */
  lemma StepAgreesWhereDefined(st: PassState, s: Stmt)
    requires LhsWellFormed(s)
    ensures StepAsWritten(st, s) == Step(st, s)
  {
    MatcherAgreesWhereDefined(s);
  }

  /** On every body the code as written handles without panicking, the
      pass built on the checked matcher computes the same statements,
      names and imports. */
  lemma {:induction false} PassAgreesWhereDefined(body: seq<Stmt>, k: nat)
    requires k <= |body|
    requires forall j | 0 <= j < k :: LhsWellFormed(body[j])
    ensures Run(body, k) == RunAsWritten(body, k)
  {
    if k > 0 {
      PassAgreesWhereDefined(body, k - 1);
      StepAgreesWhereDefined(Run(body, k - 1), body[k - 1]);
    }
  }

  /** Where the two differ: a text handler assigned to a field, on which the
      code as written panics, is not wrapped by the checked pass, which
      adds no import for it. */
  lemma CheckedPassDoesNotWrapSelectorHandler()
    ensures var s := AssignStmt([OtherExpr], AssignTok,
                                [Call(Ident("NewTextHandler", SlogPackagePath), [OtherExpr, OtherExpr])],
                                NodeDecs(NoSpace, NoSpace));
      && !LhsWellFormed(s)
      && Instrument([s]) == [s] && AddedImports([s]) == []
  {
    var s := AssignStmt([OtherExpr], AssignTok,
                        [Call(Ident("NewTextHandler", SlogPackagePath), [OtherExpr, OtherExpr])],
                        NodeDecs(NoSpace, NoSpace));
    assert SlogMiddlewareCall(s) == "";
    assert Run([s], 1) == Step(Run([s], 0), s);
  }

  /** The part of the instrumentation manager the pass uses: the import
      paths passed to `addImport`, in call order. */
  class Manager {
    var imports: seq<string>

    constructor ()
      ensures imports == []
    {
      imports := [];
    }

    /** Records one `addImport(path)` call. */
    method AddImport(path: string)
      modifies this
      ensures imports == old(imports) + [path]
    {
      imports := imports + [path];
    }
  }

  /** The argument loop of the pass: every identifier argument naming a
      detected handler is renamed to the wrapped handler, the others stay. */
  method RenameHandlerArgs(args: seq<Expr>, handlerNames: seq<string>) returns (renamed: seq<Expr>)
    ensures |renamed| == |args|
    ensures forall j :: 0 <= j < |args| ==>
      renamed[j] == if args[j].Ident? && args[j].name in handlerNames
                    then Ident(WrappedPrefix + args[j].name, args[j].path) else args[j]
  {
    renamed := args;
    var ai := 0;
    while ai < |renamed|
      invariant 0 <= ai <= |renamed| == |args|
      invariant forall j :: 0 <= j < ai ==> renamed[j] == RenameArg(args[j], handlerNames)
      invariant forall j :: ai <= j < |renamed| ==> renamed[j] == args[j]
    {
      var arg := renamed[ai];
      if arg.Ident? && arg.name in handlerNames {
        renamed := renamed[ai := Ident(WrappedPrefix + arg.name, arg.path)];
      }
      ai := ai + 1;
    }
  }

  /** The renaming step for one statement: a single-call assignment gets its
      arguments renamed, any other statement is returned as it is. */
  method RenameCallArgs(stmt: Stmt, handlerNames: seq<string>) returns (renamed: Stmt)
    ensures renamed == RenameStmt(stmt, handlerNames)
  {
    renamed := stmt;
    if stmt.AssignStmt? && |stmt.rhs| == 1 && stmt.rhs[0].Call? {
      var call := stmt.rhs[0];
      var args := RenameHandlerArgs(call.args, handlerNames);
      assert args == RenameArgs(call.args, handlerNames);
      renamed := AssignStmt(stmt.lhs, stmt.tok, [Call(call.fun, args)], stmt.decs);
    }
  }

  /** `InstrumentSlogHandler`: runs the pass on the body of `main` and records
      one import per wrapped handler; any other node is left alone. */
  method InstrumentSlogHandler(manager: Manager, node: Node)
    modifies manager, if node.FuncDeclNode? then {node.decl} else {}
    ensures !(node.FuncDeclNode? && node.decl.name == "main") ==>
      manager.imports == old(manager.imports) && (node.FuncDeclNode? ==> node.decl.body == old(node.decl.body))
    ensures node.FuncDeclNode? && node.decl.name == "main" ==>
      && node.decl.body == Instrument(old(node.decl.body))
      && manager.imports == old(manager.imports) + AddedImports(old(node.decl.body))
  {
    if node.FuncDeclNode? && node.decl.name == "main" {
      InstrumentMainBody(manager, node.decl);
    }
  }

  /** The loop of `InstrumentSlogHandler` over the statements of `main`. The
      statement list is rewritten in a local and stored back into the
      declaration when the loop ends. */
  method InstrumentMainBody(manager: Manager, decl: FuncDecl)
    modifies manager, decl
    ensures decl.body == Instrument(old(decl.body))
    ensures manager.imports == old(manager.imports) + AddedImports(old(decl.body))
  {
    ghost var original := decl.body;
    ghost var imports0 := manager.imports;
    var list := decl.body;
    var handlerNames: seq<string> := [];
    ghost var k := 0;
    ghost var st := PassState([], [], []);
    var i := 0;
    while i < |list|
      invariant 0 <= k <= |original| && st == Run(original, k)
      invariant list == st.out + original[k..]
      invariant i == |st.out|
      invariant handlerNames == st.names
      invariant manager.imports == imports0 + st.imports
      decreases |original| - k
    {
      NextStatement(original, k, list, st.out);
      var stmt := list[i];
      RunStep(original, k);
      list, i, handlerNames := InstrumentStatement(manager, list, i, stmt, handlerNames, st, original[k + 1..], imports0);
      st := Step(st, stmt);
      k := k + 1;
    }
    NextStatement(original, k, list, st.out);
    decl.body := list;
  }

  /** One iteration of that loop, on the statement `stmt` at position `i` of
      `list`: a text-handler call gets its wrapper spliced in after it (the
      loop then skips the wrapper), its name recorded and one import added;
      once a handler is known, any other statement has its call arguments
      renamed; before that, it is kept. */
  method InstrumentStatement(manager: Manager, list: seq<Stmt>, i: nat, stmt: Stmt, handlerNames: seq<string>,
                             ghost st: PassState, ghost rest: seq<Stmt>, ghost imports0: seq<string>)
    returns (list': seq<Stmt>, i': nat, handlerNames': seq<string>)
    requires list == st.out + [stmt] + rest && i == |st.out| && handlerNames == st.names
    requires manager.imports == imports0 + st.imports
    modifies manager
    ensures list' == Step(st, stmt).out + rest
    ensures i' == |Step(st, stmt).out|
    ensures handlerNames' == Step(st, stmt).names
    ensures manager.imports == imports0 + Step(st, stmt).imports
  {
    var slogHandler := SlogMiddlewareCall(stmt);
    if slogHandler != "" {
      var nrHandler := WrappedPrefix + slogHandler;
      handlerNames' := handlerNames + [slogHandler];
      var wrapped := SlogHandlerWrapper(slogHandler, nrHandler);
      var middleware, goGet := wrapped.0, wrapped.1;
      MatchedStep(st, stmt, rest);
      list' := list[..i + 1] + [middleware] + list[i + 1..];
      manager.AddImport(goGet);
      AppendAssociative(imports0, st.imports, [goGet]);
      i' := i + 2;
    } else if |handlerNames| > 0 {
      var renamed := RenameCallArgs(stmt, handlerNames);
      RenamedStep(st, stmt, rest);
      list' := list[i := renamed];
      handlerNames' := handlerNames;
      i' := i + 1;
    } else {
      KeptStep(st, stmt, rest);
      list', handlerNames' := list, handlerNames;
      i' := i + 1;
    }
  }

  /** The statement the loop reads is the next original statement, and the
      loop stops exactly when every original statement has been processed. */
  lemma NextStatement(original: seq<Stmt>, k: nat, body: seq<Stmt>, out: seq<Stmt>)
    requires k <= |original|
    requires body == out + original[k..]
    ensures |out| < |body| <==> k < |original|
    ensures k < |original| ==> body[|out|] == original[k] && body == out + [original[k]] + original[k + 1..]
  {
    if k < |original| {
      assert original[k..] == [original[k]] + original[k + 1..];
    }
  }

  /** The pass's state grows one statement at a time. */
  lemma RunStep(original: seq<Stmt>, k: nat)
    requires k < |original|
    ensures Run(original, k + 1) == Step(Run(original, k), original[k])
  {
  }

  /** One loop iteration on a text-handler call: the wrapper is spliced in
      after it, its name is recorded and one import is added. */
  lemma MatchedStep(st: PassState, s: Stmt, rest: seq<Stmt>)
    requires SlogMiddlewareCall(s) != ""
    ensures var h := SlogMiddlewareCall(s);
      var w := SlogHandlerWrapper(h, WrappedPrefix + h);
      var body := st.out + [s] + rest;
      var next := Step(st, s);
      && next.out == st.out + [s, w.0]
      && body[..|st.out| + 1] + [w.0] + body[|st.out| + 1..] == next.out + rest
      && |next.out| == |st.out| + 2
      && next.names == st.names + [h]
      && next.imports == st.imports + [w.1]
  {
    var h := SlogMiddlewareCall(s);
    SpliceAfter(st.out, s, SlogHandlerWrapper(h, WrappedPrefix + h).0, rest);
  }

  /** One loop iteration on any other statement once a handler has been
      seen: the statement is replaced by its renamed form. */
  lemma RenamedStep(st: PassState, s: Stmt, rest: seq<Stmt>)
    requires SlogMiddlewareCall(s) == "" && |st.names| > 0
    ensures var next := Step(st, s);
      && next.out == st.out + [RenameStmt(s, st.names)]
      && (st.out + [s] + rest)[|st.out| := RenameStmt(s, st.names)] == next.out + rest
      && |next.out| == |st.out| + 1
      && next.names == st.names
      && next.imports == st.imports
  {
    ReplaceAt(st.out, s, RenameStmt(s, st.names), rest);
  }

  /** One loop iteration on any other statement before the first handler:
      the statement is kept. */
  lemma KeptStep(st: PassState, s: Stmt, rest: seq<Stmt>)
    requires SlogMiddlewareCall(s) == "" && |st.names| == 0
    ensures var next := Step(st, s);
      && next.out == st.out + [s]
      && st.out + [s] + rest == next.out + rest
      && |next.out| == |st.out| + 1
      && next.names == st.names
      && next.imports == st.imports
  {
  }

  /** Splicing a statement in after position |done|. */
  lemma SpliceAfter(done: seq<Stmt>, s: Stmt, w: Stmt, rest: seq<Stmt>)
    ensures var b := done + [s] + rest;
      b[..|done| + 1] + [w] + b[|done| + 1..] == (done + [s, w]) + rest
  {
    var b := done + [s] + rest;
    assert b[..|done| + 1] == done + [s];
    assert b[|done| + 1..] == rest;
  }

  /** Replacing the statement at position |done|. */
  lemma ReplaceAt(done: seq<Stmt>, s: Stmt, r: Stmt, rest: seq<Stmt>)
    ensures (done + [s] + rest)[|done| := r] == (done + [r]) + rest
  {
  }
}
