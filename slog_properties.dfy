/** What the slog injection pass guarantees about the body of `main`: where
    every original statement and every wrapper ends up, how many statements
    and imports are added, that renaming only looks backwards, and the
    rewrite of the slog example program. */
module SlogProperties {
  import opened Ast
  import opened Codegen
  import opened SlogParser

  /** Every original statement yields one output statement, plus one wrapper
      and one import per detected handler. */
  lemma {:induction false} RunCounts(body: seq<Stmt>, k: nat)
    requires k <= |body|
    ensures |Run(body, k).out| == k + |Run(body, k).names|
    ensures |Run(body, k).imports| == |Run(body, k).names|
  {
    if k > 0 {
      RunCounts(body, k - 1);
      RunStepCounts(body, k - 1);
    }
  }

  /** Every entry of `imports` is the path of the New Relic slog integration. */
  predicate OnlyNrslog(imports: seq<string>)
  {
    forall j :: 0 <= j < |imports| ==> imports[j] == NrslogImportPath
  }

  /** Every import the pass records is the path of the New Relic slog
      integration. */
  lemma {:induction false} ImportsAreNrslog(body: seq<Stmt>, k: nat)
    requires k <= |body|
    ensures OnlyNrslog(Run(body, k).imports)
  {
    if k > 0 {
      ImportsAreNrslog(body, k - 1);
      RunStep(body, k - 1);
      StepKeepsNrslog(Run(body, k - 1), body[k - 1]);
    }
  }

  lemma StepKeepsNrslog(st: PassState, s: Stmt)
    requires OnlyNrslog(st.imports)
    ensures OnlyNrslog(Step(st, s).imports)
  {
  }

  /** Statement `k` adds one statement to the output, plus a wrapper and its
      import when it is a text-handler call. */
  lemma RunStepCounts(body: seq<Stmt>, k: nat)
    requires k < |body|
    ensures var st, next := Run(body, k), Run(body, k + 1);
      var n := if SlogMiddlewareCall(body[k]) != "" then 1 else 0;
      && |next.out| == |st.out| + 1 + n
      && |next.names| == |st.names| + n
      && next.imports == st.imports + (if n == 1 then [NrslogImportPath] else [])
  {
    RunStep(body, k);
    StepCounts(Run(body, k), body[k]);
  }

  /** One step adds one statement, plus a wrapper and its import when the
      statement is a text-handler call. */
  lemma StepCounts(st: PassState, s: Stmt)
    ensures var next := Step(st, s);
      var n := if SlogMiddlewareCall(s) != "" then 1 else 0;
      && |next.out| == |st.out| + 1 + n
      && |next.names| == |st.names| + n
      && next.imports == st.imports + (if n == 1 then [NrslogImportPath] else [])
  {
  }

  /** The instrumented body has one extra statement per detected handler. */
  lemma InstrumentLength(body: seq<Stmt>)
    ensures |Instrument(body)| == |body| + |Handlers(body)|
  {
    RunCounts(body, |body|);
  }

  /** `addImport` is called once per handler, with the wrapper's path. */
  lemma OneImportPerHandler(body: seq<Stmt>)
    ensures |AddedImports(body)| == |Handlers(body)|
    ensures OnlyNrslog(AddedImports(body))
  {
    RunCounts(body, |body|);
    ImportsAreNrslog(body, |body|);
  }

  /** Every list of `b` continues the same list of `a`. */
  predicate Extends(a: PassState, b: PassState)
  {
    a.out <= b.out && a.names <= b.names && a.imports <= b.imports
  }

  /** The pass only ever appends: its state after `j` statements is a prefix
      of its state after `k >= j` statements. */
  lemma {:induction false} RunPrefix(body: seq<Stmt>, j: nat, k: nat)
    requires j <= k <= |body|
    ensures Extends(Run(body, j), Run(body, k))
    decreases k - j
  {
    if j < k {
      RunPrefix(body, j, k - 1);
      RunStepExtends(body, k - 1);
      ExtendsTransitive(Run(body, j), Run(body, k - 1), Run(body, k));
    }
  }

  /** One more statement only appends. */
  lemma RunStepExtends(body: seq<Stmt>, k: nat)
    requires k < |body|
    ensures Extends(Run(body, k), Run(body, k + 1))
  {
    RunStep(body, k);
  }

  lemma ExtendsTransitive(a: PassState, b: PassState, c: PassState)
    requires Extends(a, b) && Extends(b, c)
    ensures Extends(a, c)
  {
  }

  /** The pass's state after `k` statements depends on those statements only. */
  lemma {:induction false} RunOfPrefix(a: seq<Stmt>, b: seq<Stmt>, k: nat)
    requires k <= |a| && k <= |b| && a[..k] == b[..k]
    ensures Run(a, k) == Run(b, k)
  {
    if k > 0 {
      assert a[..k - 1] == a[..k][..k - 1] && b[..k - 1] == b[..k][..k - 1];
      assert a[k - 1] == a[..k][k - 1] && b[k - 1] == b[..k][k - 1];
      RunOfPrefix(a, b, k - 1);
    }
  }

  /** The names known when statement `j` is scanned are exactly the handlers
      detected in the statements before it. */
  lemma NamesBefore(body: seq<Stmt>, j: nat)
    requires j <= |body|
    ensures Run(body, j).names == Handlers(body[..j])
  {
    RunOfPrefix(body[..j], body, j);
  }

  /** Where original statement `j` lands in the instrumented body (at index
      `|Run(body, j).out|`): a text-handler call stays as it is and is
      directly followed by `SlogHandlerWrapper(h, "NR" + h)`; any other
      statement is copied unchanged while no handler has been seen, and is
      renamed with the handlers seen before it afterwards. */
  lemma Placement(body: seq<Stmt>, j: nat)
    requires j < |body|
    ensures var out := Instrument(body);
      var p := |Run(body, j).out|;
      var names := Run(body, j).names;
      var h := SlogMiddlewareCall(body[j]);
      && p < |out|
      && (h != "" ==> p + 1 < |out| && out[p] == body[j] && out[p + 1] == SlogHandlerWrapper(h, WrappedPrefix + h).0)
      && (h == "" && names == [] ==> out[p] == body[j])
      && (h == "" && names != [] ==> out[p] == RenameStmt(body[j], names))
  {
    RunPrefix(body, j + 1, |body|);
    var st := Run(body, j);
    assert Run(body, j + 1).out == st.out + Process(body[j], st.names);
    assert Instrument(body)[..|Run(body, j + 1).out|] == Run(body, j + 1).out;
  }

  /** Original statements keep their relative order: a later statement
      lands at a later index. */
  lemma PositionsIncrease(body: seq<Stmt>, i: nat, j: nat)
    requires i < j <= |body|
    ensures |Run(body, i).out| < |Run(body, j).out|
  {
    RunCounts(body, i);
    RunCounts(body, j);
    RunPrefix(body, i, j);
  }

  /** Statements before the first text-handler call are left untouched:
      each keeps its own index and its value. */
  lemma UntouchedBeforeFirstHandler(body: seq<Stmt>, j: nat)
    requires j < |body| && Handlers(body[..j]) == []
    ensures |body| <= |Instrument(body)| && Instrument(body)[j] == body[j]
  {
    NamesBefore(body, j);
    RunCounts(body, j);
    RunCounts(body, |body|);
    Placement(body, j);
  }

  /** Renaming is forward-only and exact: an identifier argument of a
      renamed statement `j` becomes `"NR" + x` if and only if `x` was
      detected as a handler in a statement before `j`; the other arguments
      keep their value. */
  lemma ForwardOnlyRename(body: seq<Stmt>, j: nat, a: nat)
    requires j < |body| && SlogMiddlewareCall(body[j]) == ""
    requires body[j].AssignStmt? && |body[j].rhs| == 1 && body[j].rhs[0].Call? && a < |body[j].rhs[0].args|
    requires body[j].rhs[0].args[a].Ident?
    ensures var out := Instrument(body);
      var p := |Run(body, j).out|;
      var x := body[j].rhs[0].args[a];
      && p < |out| && out[p].AssignStmt? && |out[p].rhs| == 1 && out[p].rhs[0].Call?
      && a < |out[p].rhs[0].args|
      && (out[p].rhs[0].args[a] == Ident(WrappedPrefix + x.name, x.path) <==> x.name in Handlers(body[..j]))
      && (x.name !in Handlers(body[..j]) ==> out[p].rhs[0].args[a] == x)
  {
    Placement(body, j);
    NamesBefore(body, j);
    RenameStmtSpec(body[j], Run(body, j).names);
    var x := body[j].rhs[0].args[a];
    assert x != Ident(WrappedPrefix + x.name, x.path) by {
      assert |WrappedPrefix + x.name| != |x.name|;
    }
  }

  /** Statements that are not single-call assignments are never renamed,
      wherever they appear. */
  lemma OnlyCallAssignmentsRenamed(body: seq<Stmt>, j: nat)
    requires j < |body| && !(body[j].AssignStmt? && |body[j].rhs| == 1 && body[j].rhs[0].Call?)
    ensures |Run(body, j).out| < |Instrument(body)| && Instrument(body)[|Run(body, j).out|] == body[j]
  {
    Placement(body, j);
    RenameStmtSpec(body[j], Run(body, j).names);
  }

  /** The inserted wrapper is not a text-handler call, so the pass would
      never wrap it a second time. */
  lemma WrapperIsNotAHandler(h: string, nr: string)
    ensures SlogMiddlewareCall(SlogHandlerWrapper(h, nr).0) == ""
  {
  }

  /** Skipping the inserted wrapper matters: scanned with its own handler
      already known, the wrapper would be renamed to wrap itself. */
  lemma WrapperChangedIfScanned(h: string, names: seq<string>)
    requires h in names
    ensures var w := SlogHandlerWrapper(h, WrappedPrefix + h).0;
      RenameStmt(w, names) != w
  {
    var w := SlogHandlerWrapper(h, WrappedPrefix + h).0;
    var r := RenameStmt(w, names);
    RenameStmtSpec(w, names);
    assert r.rhs[0].args[1] == Ident(WrappedPrefix + h, "");
    assert |WrappedPrefix + h| != |h|;
  }

  /** The pass is not idempotent: running it again on its own output wraps
      the handler's wrapper statement once more. */
  lemma NotIdempotent()
    ensures var body := [AssignStmt([Ident("h", "")], Define,
                                    [Call(Ident("NewTextHandler", SlogPackagePath), [OtherExpr, OtherExpr])],
                                    NodeDecs(NoSpace, NoSpace))];
      Instrument(Instrument(body)) != Instrument(body)
  {
    var s := AssignStmt([Ident("h", "")], Define,
                        [Call(Ident("NewTextHandler", SlogPackagePath), [OtherExpr, OtherExpr])],
                        NodeDecs(NoSpace, NoSpace));
    assert SlogMiddlewareCall(s) == "h";
    InstrumentLength([s]);
    var once := Instrument([s]);
    assert Run([s], 1).names == ["h"];
    assert |once| == 2;
    InstrumentLength(once);
    assert Run(once, 1).names == ["h"];
    assert |Handlers(once)| >= 1 by {
      RunPrefix(once, 1, 2);
    }
  }

  /** A statement `name := slog.NewTextHandler(os.Stdout, &slog.HandlerOptions{})`;
      the options literal, which the pass never inspects, is abstracted. */
  function TextHandlerStmt(name: string): Stmt
  {
    AssignStmt([Ident(name, "")], Define,
               [Call(Ident("NewTextHandler", SlogPackagePath), [Ident("Stdout", "os"), OtherExpr])],
               NodeDecs(NoSpace, NoSpace))
  }

  /** A statement `name := slog.New(arg)`. */
  function NewLoggerStmt(name: string, arg: string): Stmt
  {
    AssignStmt([Ident(name, "")], Define,
               [Call(Ident("New", SlogPackagePath), [Ident(arg, "")])],
               NodeDecs(NoSpace, NoSpace))
  }

  /** The body of `main` in the slog example program: two text handlers,
      two loggers built on them, and two calls that log. */
  function ExampleBody(): seq<Stmt>
  {
    [TextHandlerStmt("handler"), TextHandlerStmt("handler2"),
     NewLoggerStmt("log", "handler"), NewLoggerStmt("log2", "handler2"),
     ExprStmt(OtherExpr), ExprStmt(OtherExpr)]
  }

  /** The two handlers of the example program are detected in order, each
      followed by its wrapper and one import. */
  lemma ExampleHandlers()
    ensures Run(ExampleBody(), 2) ==
      PassState([TextHandlerStmt("handler"), SlogHandlerWrapper("handler", "NRhandler").0,
                 TextHandlerStmt("handler2"), SlogHandlerWrapper("handler2", "NRhandler2").0],
                ["handler", "handler2"], [NrslogImportPath, NrslogImportPath])
  {
    var b := ExampleBody();
    assert SlogMiddlewareCall(b[0]) == "handler";
    assert SlogMiddlewareCall(b[1]) == "handler2";
    assert WrappedPrefix + "handler" == "NRhandler";
    assert WrappedPrefix + "handler2" == "NRhandler2";
    var w1 := SlogHandlerWrapper("handler", "NRhandler");
    var w2 := SlogHandlerWrapper("handler2", "NRhandler2");
    RunStep(b, 0);
    var st0 := Run(b, 0);
    assert st0 == PassState([], [], []);
    MatchedStep(st0, b[0], []);
    assert Run(b, 1).out == [b[0], w1.0];
    assert Run(b, 1).names == ["handler"];
    assert Run(b, 1).imports == [w1.1];
    RunStep(b, 1);
    MatchedStep(Run(b, 1), b[1], []);
  }

  /** With both handlers known, each logger is rebuilt on its own wrapped
      handler: `handler` becomes `NRhandler`, never `NRhandler2`. */
  lemma ExampleLoggersRenamed()
    ensures RenameStmt(NewLoggerStmt("log", "handler"), ["handler", "handler2"]) == NewLoggerStmt("log", "NRhandler")
    ensures RenameStmt(NewLoggerStmt("log2", "handler2"), ["handler", "handler2"]) == NewLoggerStmt("log2", "NRhandler2")
  {
    var names := ["handler", "handler2"];
    assert "handler" in names && "handler2" in names;
    assert WrappedPrefix + "handler" == "NRhandler";
    assert WrappedPrefix + "handler2" == "NRhandler2";
    assert RenameArgs([Ident("handler", "")], names) == [Ident("NRhandler", "")];
    assert RenameArgs([Ident("handler2", "")], names) == [Ident("NRhandler2", "")];
  }

  /** One step of the pass on a statement that is not a handler, once a
      handler is known. */
  lemma RunRenamed(body: seq<Stmt>, k: nat)
    requires k < |body| && SlogMiddlewareCall(body[k]) == "" && |Run(body, k).names| > 0
    ensures var st := Run(body, k);
      Run(body, k + 1) == PassState(st.out + [RenameStmt(body[k], st.names)], st.names, st.imports)
  {
    RunStep(body, k);
    RenamedStep(Run(body, k), body[k], []);
  }

  /** The loggers of the example program are rebuilt on the wrapped
      handlers. */
  lemma ExampleLoggers(body: seq<Stmt>)
    requires |body| == 6 && body[2] == NewLoggerStmt("log", "handler") && body[3] == NewLoggerStmt("log2", "handler2")
    requires Run(body, 2).names == ["handler", "handler2"]
    ensures var st2 := Run(body, 2);
      Run(body, 4) ==
        PassState(st2.out + [NewLoggerStmt("log", "NRhandler"), NewLoggerStmt("log2", "NRhandler2")],
                  st2.names, st2.imports)
  {
    ExampleLoggersRenamed();
    RunRenamed(body, 2);
    RunRenamed(body, 3);
    var st2 := Run(body, 2);
    AppendTwo(st2.out, NewLoggerStmt("log", "NRhandler"), NewLoggerStmt("log2", "NRhandler2"));
  }

  /** The logging calls of the example program are kept. */
  lemma ExampleCalls(body: seq<Stmt>)
    requires |body| == 6 && body[4] == ExprStmt(OtherExpr) && body[5] == ExprStmt(OtherExpr)
    requires |Run(body, 4).names| > 0
    ensures var st4 := Run(body, 4);
      Run(body, 6) == PassState(st4.out + [ExprStmt(OtherExpr), ExprStmt(OtherExpr)], st4.names, st4.imports)
  {
    RunRenamed(body, 4);
    RunRenamed(body, 5);
    AppendTwo(Run(body, 4).out, ExprStmt(OtherExpr), ExprStmt(OtherExpr));
  }

  lemma AppendTwo<T>(a: seq<T>, x1: T, x2: T)
    ensures a + [x1] + [x2] == a + [x1, x2]
  {
  }

  /** The example program after the pass: each handler is followed by its
      wrapper, and each logger is built on its own wrapped handler. */
  lemma ExampleInstrumented()
    ensures Instrument(ExampleBody()) ==
      [TextHandlerStmt("handler"), SlogHandlerWrapper("handler", "NRhandler").0,
       TextHandlerStmt("handler2"), SlogHandlerWrapper("handler2", "NRhandler2").0,
       NewLoggerStmt("log", "NRhandler"), NewLoggerStmt("log2", "NRhandler2"),
       ExprStmt(OtherExpr), ExprStmt(OtherExpr)]
    ensures Handlers(ExampleBody()) == ["handler", "handler2"]
    ensures AddedImports(ExampleBody()) == [NrslogImportPath, NrslogImportPath]
  {
    var b := ExampleBody();
    ExampleHandlers();
    ExampleLoggers(b);
    ExampleCalls(b);
    var s2 := Run(b, 2).out;
    Concat8(s2[0], s2[1], s2[2], s2[3], NewLoggerStmt("log", "NRhandler"), NewLoggerStmt("log2", "NRhandler2"),
            ExprStmt(OtherExpr), ExprStmt(OtherExpr));
  }

  lemma Concat8<T>(x1: T, x2: T, x3: T, x4: T, x5: T, x6: T, x7: T, x8: T)
    ensures [x1, x2, x3, x4] + [x5, x6] + [x7, x8] == [x1, x2, x3, x4, x5, x6, x7, x8]
  {
  }
}
