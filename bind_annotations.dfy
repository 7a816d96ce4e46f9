/**
 * `BindModelTypeTransformer._find_bind_model_in_annotation`: a walk over
 * an annotation in `ast.walk` order, looking for
 * `Annotated[T, ..., "model:<Name>", ...]` and reporting the first model
 * name found.
 */
module BindAnnotations {
  import opened Wrappers
  import opened Text
  import opened StubAst

  /** `ast.iter_child_nodes` restricted to expressions (contexts and operators carry no subscripts). */
  function Children(e: Expr): seq<Expr> {
    match e
    case Attribute(v, _) => [v]
    case Subscript(v, s) => [v, s]
    case Tuple(es) => es
    case BinOp(l, _, r) => [l, r]
    case Call(f, xs) => [f] + xs
    case OtherExpr(_, cs) => cs
    case _ => []
  }

  lemma ChildrenSize(e: Expr)
    ensures ExprSize(e) == 1 + ExprsSize(Children(e))
  {
    match e
    case Attribute(v, _) =>
      assert ExprsSize([v]) == ExprSize(v) + ExprsSize([v][1..]);
    case Subscript(v, s) =>
      assert ExprsSize([v, s]) == ExprSize(v) + ExprsSize([v, s][1..]);
      assert [v, s][1..] == [s];
      assert ExprsSize([s]) == ExprSize(s) + ExprsSize([s][1..]);
    case BinOp(l, _, r) =>
      assert ExprsSize([l, r]) == ExprSize(l) + ExprsSize([l, r][1..]);
      assert [l, r][1..] == [r];
      assert ExprsSize([r]) == ExprSize(r) + ExprsSize([r][1..]);
    case Call(f, xs) =>
      assert ([f] + xs)[1..] == xs;
    case _ =>
  }

  /** One step of the walk: the node leaves the queue and its children join it at the end. */
  lemma StepSize(queue: seq<Expr>)
    requires queue != []
    ensures ExprsSize(queue[1..] + Children(queue[0])) < ExprsSize(queue)
  {
    ChildrenSize(queue[0]);
    ExprsSizeAppend(queue[1..], Children(queue[0]));
  }

  /** `ast.walk` over a queue of nodes: breadth first, each node before its children. */
  function Walk(queue: seq<Expr>): seq<Expr>
    decreases ExprsSize(queue)
  {
    if queue == [] then []
    else
      StepSize(queue);
      [queue[0]] + Walk(queue[1..] + Children(queue[0]))
  }

  lemma {:induction false} ExprsSizeBound(es: seq<Expr>, k: nat)
    requires k < |es|
    ensures ExprSize(es[k]) <= ExprsSize(es)
  {
    if k > 0 {
      ExprsSizeBound(es[1..], k - 1);
    }
  }

  lemma ChildrenSmaller(e: Expr)
    ensures forall c :: 0 <= c < |Children(e)| ==> ExprSize(Children(e)[c]) < ExprSize(e)
  {
    ChildrenSize(e);
    forall c | 0 <= c < |Children(e)| ensures ExprSize(Children(e)[c]) < ExprSize(e) {
      ExprsSizeBound(Children(e), c);
    }
  }

  /** `s` is a node of the tree `e`: `e` itself or a node under one of its children. */
  ghost predicate Occurs(s: Expr, e: Expr)
    decreases ExprSize(e)
  {
    ChildrenSmaller(e);
    s == e || exists c :: 0 <= c < |Children(e)| && Occurs(s, Children(e)[c])
  }

  lemma {:induction false} WalkVisitsOnly(queue: seq<Expr>, s: Expr)
    requires s in Walk(queue)
    ensures exists k :: 0 <= k < |queue| && Occurs(s, queue[k])
    decreases ExprsSize(queue)
  {
    var e := queue[0];
    var cs := Children(e);
    var next := queue[1..] + cs;
    StepSize(queue);
    assert Walk(queue) == [e] + Walk(next);
    if s == e {
      assert Occurs(s, queue[0]);
    } else {
      assert s in Walk(next);
      WalkVisitsOnly(next, s);
      var k :| 0 <= k < |next| && Occurs(s, next[k]);
      if k < |queue| - 1 {
        assert next[k] == queue[k + 1];
        assert Occurs(s, queue[k + 1]);
      } else {
        var c := k - (|queue| - 1);
        assert next[k] == cs[c];
        ChildOccurs(s, e, c);
        assert Occurs(s, queue[0]);
      }
    }
  }

  lemma ChildOccurs(s: Expr, e: Expr, c: nat)
    requires c < |Children(e)| && Occurs(s, Children(e)[c])
    ensures Occurs(s, e)
  {
  }

  lemma {:induction false} WalkVisitsAll(queue: seq<Expr>, s: Expr, k: nat)
    requires k < |queue| && Occurs(s, queue[k])
    ensures s in Walk(queue)
    decreases ExprsSize(queue)
  {
    var e := queue[0];
    var cs := Children(e);
    var next := queue[1..] + cs;
    StepSize(queue);
    assert Walk(queue) == [e] + Walk(next);
    if k > 0 {
      assert next[k - 1] == queue[k];
      WalkVisitsAll(next, s, k - 1);
    } else if s != e {
      var c :| 0 <= c < |cs| && Occurs(s, cs[c]);
      assert next[|queue| - 1 + c] == cs[c];
      WalkVisitsAll(next, s, |queue| - 1 + c);
    }
  }

  /** The walk visits exactly the nodes of the queued trees. */
  lemma WalkVisits(queue: seq<Expr>, s: Expr)
    ensures s in Walk(queue) <==> exists k :: 0 <= k < |queue| && Occurs(s, queue[k])
  {
    if s in Walk(queue) {
      WalkVisitsOnly(queue, s);
    }
    if k :| 0 <= k < |queue| && Occurs(s, queue[k]) {
      WalkVisitsAll(queue, s, k);
    }
  }

  /** The head name the transformer reads off a subscript's value. */
  function HeadName(v: Expr): Option<string> {
    if v.Name? then Some(v.id)
    else if v.Attribute? then Some(v.attr)
    else if v.Subscript? && v.value.Name? then Some(v.value.id)
    else None
  }

  predicate IsAnnotatedHead(v: Expr) {
    HeadName(v) == Some("Annotated") || HeadName(v) == Some("typing.Annotated")
  }

  /** The elements of a subscript's slice: a tuple's elements, a tuple under `.value`, or the slice alone. */
  function SliceElements(s: Expr): seq<Expr> {
    if s.Tuple? then s.elts
    else if (s.Attribute? || s.Subscript?) && s.value.Tuple? then s.value.elts
    else [s]
  }

  /** A metadata string `"model:<name>"` names the model after the first colon, stripped; an empty name does not count. */
  function MetaName(m: Expr): (r: Option<string>)
    ensures r.Some? ==> r.value != "" && Strip(r.value) == r.value
    ensures r.Some? ==> m.Constant? && m.literal.StrLiteral? && StartsWith(m.literal.text, "model:")
  {
    if m.Constant? && m.literal.StrLiteral? && StartsWith(m.literal.text, "model:") then
      match SplitOnce(m.literal.text, ':').1
      case None => None
      case Some(rest) =>
        var name := Strip(rest);
        StripIdempotent(rest);
        if name != "" then Some(name) else None
    else None
  }

  /** The first metadata entry that names a model. */
  function FirstMeta(metas: seq<Expr>): Option<string> {
    if metas == [] then None
    else if MetaName(metas[0]).Some? then MetaName(metas[0])
    else FirstMeta(metas[1..])
  }

  /** The first entry found names a model; none is found exactly when no entry names one. */
  lemma {:induction false} FirstMetaSpec(metas: seq<Expr>)
    ensures FirstMeta(metas).Some? ==> exists k :: 0 <= k < |metas| && MetaName(metas[k]) == FirstMeta(metas)
    ensures FirstMeta(metas).None? <==> forall k :: 0 <= k < |metas| ==> MetaName(metas[k]).None?
  {
    if metas != [] && MetaName(metas[0]).None? {
      var tail := metas[1..];
      FirstMetaSpec(tail);
      assert forall k :: 0 <= k < |tail| ==> tail[k] == metas[k + 1];
    }
  }

  /** What one node contributes: the model named by an `Annotated[...]` subscript with at least two elements. */
  function MatchBind(sub: Expr): Option<string> {
    if sub.Subscript? && IsAnnotatedHead(sub.value) && |SliceElements(sub.slice)| >= 2 then
      FirstMeta(SliceElements(sub.slice)[1..])
    else None
  }

  /** The first node, in walk order, that names a model. */
  function FirstMatch(nodes: seq<Expr>): Option<string> {
    if nodes == [] then None
    else if MatchBind(nodes[0]).Some? then MatchBind(nodes[0])
    else FirstMatch(nodes[1..])
  }

  /** The first match found comes from some node; none is found exactly when no node matches. */
  lemma {:induction false} FirstMatchSpec(nodes: seq<Expr>)
    ensures FirstMatch(nodes).Some? ==> exists k :: 0 <= k < |nodes| && MatchBind(nodes[k]) == FirstMatch(nodes)
    ensures FirstMatch(nodes).None? <==> forall k :: 0 <= k < |nodes| ==> MatchBind(nodes[k]).None?
  {
    if nodes != [] && MatchBind(nodes[0]).None? {
      var tail := nodes[1..];
      FirstMatchSpec(tail);
      assert forall k :: 0 <= k < |tail| ==> tail[k] == nodes[k + 1];
    }
  }

  /** The model an annotation binds, if any. */
  function BindModelOf(ann: Expr): Option<string> {
    FirstMatch(Walk([ann]))
  }

  /**
   * A bound model is a non-empty, stripped name written as metadata of an
   * `Annotated[...]` node somewhere inside the annotation.
   */
  lemma BindModelFound(ann: Expr)
    requires BindModelOf(ann).Some?
    ensures var n := BindModelOf(ann).value;
            n != "" && Strip(n) == n
            && exists s :: Occurs(s, ann) && s.Subscript? && IsAnnotatedHead(s.value) && MatchBind(s) == Some(n)
  {
    var w := Walk([ann]);
    var r := FirstMatch(w);
    FirstMatchSpec(w);
    var k :| 0 <= k < |w| && MatchBind(w[k]) == r;
    var sub := w[k];
    WalkVisitsOnly([ann], sub);
    assert Occurs(sub, ann) by {
      var i :| 0 <= i < 1 && Occurs(sub, [ann][i]);
    }
    var metas := SliceElements(sub.slice)[1..];
    assert FirstMeta(metas) == r;
    FirstMetaSpec(metas);
    var j :| 0 <= j < |metas| && MetaName(metas[j]) == r;
  }

  /** No model is bound exactly when no node of the annotation names one. */
  lemma BindModelAbsent(ann: Expr)
    ensures BindModelOf(ann).None? <==> forall s :: Occurs(s, ann) ==> MatchBind(s).None?
  {
    var w := Walk([ann]);
    FirstMatchSpec(w);
    if FirstMatch(w).None? {
      forall s | Occurs(s, ann) ensures MatchBind(s).None? {
        WalkVisitsAll([ann], s, 0);
        var k :| 0 <= k < |w| && w[k] == s;
      }
    } else {
      BindModelFound(ann);
    }
  }

  /** A plain name binds nothing, so a rewritten annotation is never rewritten again. */
  lemma NameBindsNothing(id: string)
    ensures BindModelOf(Name(id)).None?
  {
    assert Walk([Name(id)]) == [Name(id)] + Walk([]);
    assert FirstMatch([Name(id)]) == FirstMatch([]);
  }

  /** A `model:` marker names whatever follows the first colon, stripped, unless that is blank. */
  lemma MarkerNames(rest: string)
    ensures MetaName(Constant(StrLiteral("model:" + rest))) == if Strip(rest) != "" then Some(Strip(rest)) else None
  {
    var t := "model:" + rest;
    assert StartsWith(t, "model:") by {
      assert t[..6] == "model:";
    }
    assert t == "model" + [':'] + rest;
    IndexAfter("model", ':', rest);
    assert SplitOnce(t, ':').1 == Some(t[6..]);
    assert t[6..] == rest;
  }

  lemma ChatRequestMeta()
    ensures MetaName(Constant(StrLiteral("model: ChatRequest "))) == Some("ChatRequest")
  {
    assert "model: ChatRequest " == "model:" + " ChatRequest ";
    MarkerNames(" ChatRequest ");
    StripChatRequest();
  }

  lemma StripChatRequest()
    ensures Strip(" ChatRequest ") == "ChatRequest"
  {
    assert !IsSpace('C');
    assert LStrip(" ChatRequest ") == "ChatRequest ";
    assert !IsSpace('t');
    assert RStrip("ChatRequest ") == "ChatRequest";
  }

  /** The walk of one tree starts at its root. */
  lemma WalkRoot(e: Expr)
    ensures Walk([e]) == [e] + Walk(Children(e))
  {
    assert [e][1..] + Children(e) == Children(e);
  }

  /** A leaf leaves the queue and adds nothing to it. */
  lemma WalkLeaf(leaf: Expr, rest: seq<Expr>)
    requires Children(leaf) == []
    ensures Walk([leaf] + rest) == [leaf] + Walk(rest)
  {
    assert ([leaf] + rest)[1..] + Children(leaf) == rest;
  }

  /** `Annotated[x, meta]` binds the model its metadata names, whatever `x` is. */
  lemma BindAnnotatedMeta(x: Expr, meta: Expr)
    requires MetaName(meta).Some?
    ensures BindModelOf(Subscript(Name("Annotated"), Tuple([x, meta]))) == MetaName(meta)
  {
    var a := Subscript(Name("Annotated"), Tuple([x, meta]));
    assert SliceElements(a.slice)[1..] == [meta];
    assert FirstMeta([meta]) == MetaName(meta);
    WalkRoot(a);
    FirstMatchCons(a, Walk(Children(a)));
  }

  /** `Annotated[dict, "model: ChatRequest "]` binds `ChatRequest`. */
  lemma AnnotatedExample()
    ensures BindModelOf(Subscript(Name("Annotated"), Tuple([Name("dict"), Constant(StrLiteral("model: ChatRequest "))])))
            == Some("ChatRequest")
  {
    ChatRequestMeta();
    BindAnnotatedMeta(Name("dict"), Constant(StrLiteral("model: ChatRequest ")));
  }

  /**
   * Under `head[[x], None]`, as a `Callable` is written, the binding is the
   * binding of `x`: the walk enters the argument list, an `ast.List`.
   */
  lemma BindThroughList(head: Expr, kind: string, x: Expr)
    requires Children(head) == [] && !IsAnnotatedHead(head)
    ensures BindModelOf(Subscript(head, Tuple([OtherExpr(kind, [x]), Constant(NoneLiteral)]))) == BindModelOf(x)
  {
    var l := OtherExpr(kind, [x]);
    var none := Constant(NoneLiteral);
    var t := Tuple([l, none]);
    var e := Subscript(head, t);
    WalkRoot(e);
    assert Children(e) == [head] + [t];
    WalkLeaf(head, [t]);
    WalkRoot(t);
    assert Walk([l, none]) == [l] + Walk([none, x]) by {
      assert [l, none][1..] + Children(l) == [none, x];
    }
    WalkLeaf(none, [x]);
    FirstMatchCons(none, Walk([x]));
    FirstMatchCons(l, Walk([none, x]));
    FirstMatchCons(t, Walk([l, none]));
    FirstMatchCons(head, Walk([t]));
    FirstMatchCons(e, Walk([head, t]));
  }

  /** `Callable[[Annotated[dict, "model: ChatRequest "]], None]` binds `ChatRequest`. */
  lemma NestedInListExample()
    ensures BindModelOf(Subscript(Name("Callable"), Tuple([
              OtherExpr("List", [Subscript(Name("Annotated"), Tuple([Name("dict"), Constant(StrLiteral("model: ChatRequest "))]))]),
              Constant(NoneLiteral)])))
            == Some("ChatRequest")
  {
    AnnotatedExample();
    BindThroughList(Name("Callable"), "List",
                    Subscript(Name("Annotated"), Tuple([Name("dict"), Constant(StrLiteral("model: ChatRequest "))])));
  }

  /** Under a subscript such as `list[...]` whose head is a plain name other than `Annotated`, the slice's binding is the binding. */
  lemma BindUnderSubscript(v: Expr, b: Expr)
    requires Children(v) == [] && !IsAnnotatedHead(v)
    ensures BindModelOf(Subscript(v, b)) == BindModelOf(b)
  {
    var l := Subscript(v, b);
    WalkRoot(l);
    FirstMatchCons(l, Walk(Children(l)));
    assert Children(l) == [v] + [b];
    WalkLeaf(v, [b]);
    FirstMatchCons(v, Walk([b]));
  }

  /** Metadata without a `model:` entry binds nothing. */
  lemma UnboundAnnotatedExample()
    ensures MatchBind(Subscript(Attribute(Name("typing"), "Annotated"), Tuple([Name("dict"), Constant(StrLiteral("doc"))])))
            == None
  {
    var doc := Constant(StrLiteral("doc"));
    assert !StartsWith("doc", "model:");
    var c := Subscript(Attribute(Name("typing"), "Annotated"), Tuple([Name("dict"), doc]));
    assert SliceElements(c.slice)[1..] == [doc];
  }

  lemma FirstMatchCons(sub: Expr, rest: seq<Expr>)
    ensures FirstMatch([sub] + rest) == if MatchBind(sub).Some? then MatchBind(sub) else FirstMatch(rest)
  {
    assert ([sub] + rest)[1..] == rest;
  }

  lemma FirstMetaFrom(metas: seq<Expr>, j: nat)
    requires j < |metas|
    ensures FirstMeta(metas[j..]) == if MetaName(metas[j]).Some? then MetaName(metas[j]) else FirstMeta(metas[j + 1..])
  {
    assert metas[j..][1..] == metas[j + 1..];
  }

  /** `_find_bind_model_in_annotation(ann)`: the walk, each node checked as it is yielded. */
  method FindBindModelInAnnotation(ann: Expr) returns (r: Option<string>)
    ensures r == BindModelOf(ann)
  {
    var todo := [ann];
    while todo != []
      invariant FirstMatch(Walk(todo)) == BindModelOf(ann)
      decreases ExprsSize(todo)
    {
      var sub := todo[0];
      StepSize(todo);
      var rest := todo[1..] + Children(sub);
      assert Walk(todo) == [sub] + Walk(rest);
      FirstMatchCons(sub, Walk(rest));
      todo := rest;
      var found := CheckNode(sub);
      if found.Some? {
        return found;
      }
    }
    return None;
  }

  /** The loop body of `_find_bind_model_in_annotation` for one yielded node. */
  method CheckNode(sub: Expr) returns (r: Option<string>)
    ensures r == MatchBind(sub)
  {
    if !sub.Subscript? {
      return None;
    }
    var val := sub.value;
    var name: Option<string> := None;
    if val.Name? {
      name := Some(val.id);
    } else if val.Attribute? {
      name := Some(val.attr);
    } else if val.Subscript? && val.value.Name? {
      name := Some(val.value.id);
    }
    if name != Some("Annotated") && name != Some("typing.Annotated") {
      return None;
    }
    var s := sub.slice;
    var elts: seq<Expr>;
    if s.Tuple? {
      elts := s.elts;
    } else if (s.Attribute? || s.Subscript?) && s.value.Tuple? {
      elts := s.value.elts;
    } else {
      elts := [s];
    }
    if |elts| < 2 {
      return None;
    }
    var metas := elts[1..];
    var j := 0;
    while j < |metas|
      invariant 0 <= j <= |metas|
      invariant FirstMeta(metas[j..]) == MatchBind(sub)
    {
      var m := metas[j];
      FirstMetaFrom(metas, j);
      if m.Constant? && m.literal.StrLiteral? {
        var txt := m.literal.text;
        if StartsWith(txt, "model:") {
          var parts := SplitOnce(txt, ':');
          if parts.1.Some? {
            var modelName := Strip(parts.1.value);
            if modelName != "" {
              return Some(modelName);
            }
          }
        }
      }
      j := j + 1;
    }
    return None;
  }
}
