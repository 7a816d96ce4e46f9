/**
 * The first stub rewriter (`utils/types_compiler/compile.py`). For every
 * class that is not excluded it takes the nested `Operations` classes out of
 * the body and, when there was one, appends a `RequestMaker` class over
 * `<Cls>._RequestMaker` holding the last one's body as it stands, and the
 * assignment `REQUEST_MAKER_CLASS = RequestMaker`. It keeps a stack of the
 * classes being visited, does not descend into a class, and cannot raise.
 */
module EarliestRewriter {
  import opened StubAst
  import opened Text
  import CR = ControllerRewriter
  import LR = LegacyRewriter

  const MakerName: string := "RequestMaker"
  const NestedMakerName: string := "_RequestMaker"
  const MakerClassField: string := "REQUEST_MAKER_CLASS"

  /** What a class with an `Operations` child gains. */
  function MakerStatements(cls: string, body: seq<Stmt>): seq<Stmt> {
    [ClassDef(MakerName, [Attribute(Name(cls), NestedMakerName)], [], body),
     Assign([Name(MakerClassField)], Name(MakerName))]
  }

  /** `visit_ClassDef`: the class it returns, and whether it met an `Operations` child. */
  function ClassStep(exclude: set<string>, s: Stmt): (Stmt, bool)
    requires s.ClassDef?
  {
    if s.name in exclude then (s, false)
    else
      var (rest, ops) := CR.SplitOperations(s.body);
      if ops.Some? then (ClassDef(s.name, s.bases, s.typeParams, rest + MakerStatements(s.name, ops.value)), true)
      else (ClassDef(s.name, s.bases, s.typeParams, rest), false)
  }

  /** `visit` on one statement, threading `modified`: classes are rewritten, functions have their bodies walked. */
  function VisitStmt(exclude: set<string>, modified: bool, s: Stmt): (bool, Stmt)
    decreases StmtSize(s), 0
  {
    match s
    case ClassDef(_, _, _, _) =>
      var (c, found) := ClassStep(exclude, s);
      (modified || found, c)
    case FunctionDef(name, isAsync, params, returnType, body, decorators) =>
      var (m, body') := VisitBody(exclude, modified, body);
      (m, FunctionDef(name, isAsync, params, returnType, body', decorators))
    case _ => (modified, s)
  }

  /** `generic_visit` over a list of statements, first to last. */
  function VisitBody(exclude: set<string>, modified: bool, body: seq<Stmt>): (bool, seq<Stmt>)
    decreases BodySize(body), 1
  {
    if body == [] then (modified, [])
    else
      var n := |body|;
      BodyMeasuresSnoc(body[..n - 1], body[n - 1]);
      assert body[..n - 1] + [body[n - 1]] == body;
      var (m, init) := VisitBody(exclude, modified, body[..n - 1]);
      var (m', last) := VisitStmt(exclude, m, body[n - 1]);
      (m', init + [last])
  }

  /**
   * A class that is not excluded keeps its other statements verbatim and in
   * order, holds no `Operations` class afterwards, and, when it had one,
   * ends with `RequestMaker` holding the last `Operations` body unchanged
   * (no parameter is dropped) and the `REQUEST_MAKER_CLASS` assignment. The
   * flag reports exactly whether there was one. An excluded class is
   * returned as it is.
   */
  lemma ClassStepSpec(exclude: set<string>, s: Stmt)
    requires s.ClassDef?
    ensures var (c, found) := ClassStep(exclude, s);
            var (rest, ops) := CR.SplitOperations(s.body);
            c.ClassDef? && c.name == s.name && c.bases == s.bases
            && (s.name in exclude ==> c == s && !found)
            && (s.name !in exclude ==>
                  (found <==> exists k :: 0 <= k < |s.body| && CR.IsOperations(s.body[k]))
                  && (forall k :: 0 <= k < |c.body| ==> !CR.IsOperations(c.body[k]))
                  && (ops.None? ==> c == s)
                  && (ops.Some? ==>
                        exists k :: 0 <= k < |s.body| && CR.IsOperations(s.body[k])
                                    && c.body == rest + MakerStatements(s.name, s.body[k].body)
                                    && forall j :: k < j < |s.body| ==> !CR.IsOperations(s.body[j])))
  {
    CR.SplitOperationsSpec(s.body);
    var (c, found) := ClassStep(exclude, s);
    var (rest, ops) := CR.SplitOperations(s.body);
    if s.name !in exclude && ops.Some? {
      assert MakerName != CR.OperationsClassName;
      forall k | 0 <= k < |c.body| ensures !CR.IsOperations(c.body[k]) {
        if k < |rest| {
          assert c.body[k] == rest[k];
        }
      }
    }
  }

  /**
   * A visit sets `modified` exactly when it meets a class it rewrites, and
   * returns a statement it meets no such class in unchanged.
   */
  lemma {:induction false} VisitStmtModified(exclude: set<string>, modified: bool, s: Stmt)
    ensures VisitStmt(exclude, modified, s).0 == (modified || LR.Reaches(exclude, s))
    ensures !LR.Reaches(exclude, s) ==> VisitStmt(exclude, modified, s).1 == s
    decreases StmtSize(s), 0
  {
    match s
    case ClassDef(_, _, _, _) =>
      CR.SplitOperationsSpec(s.body);
    case FunctionDef(_, _, _, _, body, _) =>
      VisitBodyModified(exclude, modified, body);
    case _ =>
  }

  lemma {:induction false} VisitBodyModified(exclude: set<string>, modified: bool, body: seq<Stmt>)
    ensures VisitBody(exclude, modified, body).0 == (modified || LR.BodyReaches(exclude, body))
    ensures !LR.BodyReaches(exclude, body) ==> VisitBody(exclude, modified, body).1 == body
    decreases BodySize(body), 1
  {
    if body != [] {
      var n := |body|;
      BodyMeasuresSnoc(body[..n - 1], body[n - 1]);
      assert body[..n - 1] + [body[n - 1]] == body;
      VisitBodyModified(exclude, modified, body[..n - 1]);
      VisitStmtModified(exclude, VisitBody(exclude, modified, body[..n - 1]).0, body[n - 1]);
    }
  }

  /** `apply_rewrites_to_stub` with a fresh rewriter; the text written is the unparsed tree alone. */
  function ApplyRun(exclude: seq<string>, file: CR.StubFile, unparse: Module -> string): CR.RunOutcome {
    if !file.present || file.tree.None? then CR.Untouched
    else
      var (m, tree) := VisitBody(LR.ExcludedNames(exclude), false, file.tree.value);
      if m then CR.Written(unparse(tree)) else CR.Untouched
  }

  /** A parsed file is written exactly when the walk meets a class it rewrites. */
  lemma ApplyRunWritesIffRewritten(exclude: seq<string>, file: CR.StubFile, unparse: Module -> string)
    requires file.present && file.tree.Some?
    ensures ApplyRun(exclude, file, unparse).Written? <==> LR.BodyReaches(LR.ExcludedNames(exclude), file.tree.value)
    ensures !LR.BodyReaches(LR.ExcludedNames(exclude), file.tree.value) ==> ApplyRun(exclude, file, unparse) == CR.Untouched
  {
    VisitBodyModified(LR.ExcludedNames(exclude), false, file.tree.value);
  }

  class RequestMakerRewriter {
    var excludeClasses: set<string>
    var classStack: seq<string>
    var modified: bool

    /** `RequestMakerRewriter(set(exclude_classes))` */
    constructor(exclude: set<string>)
      ensures excludeClasses == exclude && classStack == [] && !modified
    {
      excludeClasses := exclude;
      classStack := [];
      modified := false;
    }

    /** `visit_ClassDef`: the class is pushed on the stack for the visit and popped on every way out. */
    method VisitClassDef(node: Stmt) returns (r: Stmt)
      requires node.ClassDef?
      modifies this
      ensures (modified, r) == VisitStmt(excludeClasses, old(modified), node)
      ensures classStack == old(classStack) && excludeClasses == old(excludeClasses)
    {
      classStack := classStack + [node.name];
      if node.name in excludeClasses {
        classStack := classStack[..|classStack| - 1];
        assert classStack == old(classStack);
        return node;
      }
      var operationsBody: seq<Stmt> := [];
      var found := false;
      var newBody: seq<Stmt> := [];
      for i := 0 to |node.body|
        invariant newBody == CR.SplitOperations(node.body[..i]).0
        invariant found == CR.SplitOperations(node.body[..i]).1.Some?
        invariant found ==> operationsBody == CR.SplitOperations(node.body[..i]).1.value
        invariant modified == (old(modified) || found)
        invariant classStack == old(classStack) + [node.name] && excludeClasses == old(excludeClasses)
      {
        var stmt := node.body[i];
        if stmt.ClassDef? && stmt.name == CR.OperationsClassName {
          operationsBody := stmt.body;
          found := true;
          modified := true;
        } else {
          newBody := newBody + [stmt];
        }
        assert node.body[..i + 1][..i] == node.body[..i];
      }
      assert node.body[..|node.body|] == node.body;
      if found {
        newBody := newBody + MakerStatements(node.name, operationsBody);
      }
      r := ClassDef(node.name, node.bases, node.typeParams, newBody);
      classStack := classStack[..|classStack| - 1];
      assert classStack == old(classStack);
    }

    /** `visit`: `visit_ClassDef` for a class, `generic_visit` for every other statement. */
    method Visit(s: Stmt) returns (r: Stmt)
      modifies this
      ensures (modified, r) == VisitStmt(excludeClasses, old(modified), s)
      ensures classStack == old(classStack) && excludeClasses == old(excludeClasses)
      decreases StmtSize(s), 1
    {
      if s.ClassDef? {
        r := VisitClassDef(s);
      } else if s.FunctionDef? {
        var body := GenericVisit(s.body);
        r := FunctionDef(s.name, s.isAsync, s.params, s.returnType, body, s.decorators);
      } else {
        r := s;
      }
    }

    /** `generic_visit` over a list of statements. */
    method GenericVisit(body: seq<Stmt>) returns (out: seq<Stmt>)
      modifies this
      ensures (modified, out) == VisitBody(excludeClasses, old(modified), body)
      ensures classStack == old(classStack) && excludeClasses == old(excludeClasses)
      decreases BodySize(body), 2
    {
      out := [];
      for i := 0 to |body|
        invariant (modified, out) == VisitBody(excludeClasses, old(modified), body[..i])
        invariant classStack == old(classStack) && excludeClasses == old(excludeClasses)
      {
        BodyMeasuresBound(body, i);
        var s1 := Visit(body[i]);
        assert body[..i + 1][..i] == body[..i];
        out := out + [s1];
      }
      assert body[..|body|] == body;
    }
  }

  /** `apply_rewrites_to_stub(stub_path, exclude_classes)` with the file given as a value. */
  method ApplyRewritesToStub(exclude: seq<string>, file: CR.StubFile, unparse: Module -> string) returns (outcome: CR.RunOutcome)
    ensures outcome == ApplyRun(exclude, file, unparse)
  {
    if !file.present || file.tree.None? {
      return CR.Untouched;
    }
    var transformer := new RequestMakerRewriter(LR.ExcludedNames(exclude));
    var tree := transformer.GenericVisit(file.tree.value);
    if transformer.modified {
      return CR.Written(unparse(tree));
    }
    return CR.Untouched;
  }
}
