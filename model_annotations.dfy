/**
 * The two analyses the TypedDict writer runs over a field annotation:
 * whether the annotation admits `None` (which makes the field optional),
 * and the renaming of referenced base models to their `...Data` records.
 */
module ModelAnnotations {
  import opened StubAst

  /**
   * `annotation_contains_none`, as written: `None`/`NoneType` names, the
   * `None` constant and `.NoneType` attributes, looked for through `|`
   * operands, tuple elements and subscript slices, never a subscript's
   * value. `Optional[X]` is therefore not recognised.
   */
  predicate AnnotationContainsNone(e: Expr) {
    match e
    case Subscript(_, s) =>
      if s.Tuple? then exists k :: 0 <= k < |s.elts| && AnnotationContainsNone(s.elts[k])
      else AnnotationContainsNone(s)
    case Name(id) => id == "None" || id == "NoneType"
    case Constant(literal) => literal.NoneLiteral?
    case Attribute(_, attr) => attr == "NoneType"
    case BinOp(left, op, right) => op.BitOr? && (AnnotationContainsNone(left) || AnnotationContainsNone(right))
    case Tuple(elts) => exists k :: 0 <= k < |elts| && AnnotationContainsNone(elts[k])
    case _ => false
  }

  /** `Optional[...]` or `typing.Optional[...]`. */
  predicate IsOptionalSubscript(e: Expr) {
    e.Subscript? && ((e.value.Name? && e.value.id == "Optional")
                     || (e.value.Attribute? && e.value.attr == "Optional"))
  }

  /** The same analysis with `Optional[...]` recognised as admitting `None`, as the code's own comment intends. */
  predicate AnnotationAdmitsNone(e: Expr) {
    match e
    case Subscript(_, s) =>
      IsOptionalSubscript(e) ||
      if s.Tuple? then exists k :: 0 <= k < |s.elts| && AnnotationAdmitsNone(s.elts[k])
      else AnnotationAdmitsNone(s)
    case Name(id) => id == "None" || id == "NoneType"
    case Constant(literal) => literal.NoneLiteral?
    case Attribute(_, attr) => attr == "NoneType"
    case BinOp(left, op, right) => op.BitOr? && (AnnotationAdmitsNone(left) || AnnotationAdmitsNone(right))
    case Tuple(elts) => exists k :: 0 <= k < |elts| && AnnotationAdmitsNone(elts[k])
    case _ => false
  }

  /** `Optional[X]` with no `None` inside `X` is reported as not containing `None`. */
  lemma OptionalIsMissed()
    ensures !AnnotationContainsNone(Subscript(Name("Optional"), Name("int")))
    ensures AnnotationAdmitsNone(Subscript(Name("Optional"), Name("int")))
  {
  }

  /** The corrected analysis accepts everything the original does, and every `Optional[...]`. */
  lemma {:induction false} AdmitsNoneExtends(e: Expr)
    ensures AnnotationContainsNone(e) ==> AnnotationAdmitsNone(e)
    ensures IsOptionalSubscript(e) ==> AnnotationAdmitsNone(e)
  {
    match e
    case Subscript(_, s) =>
      if s.Tuple? {
        forall k | 0 <= k < |s.elts| ensures AnnotationContainsNone(s.elts[k]) ==> AnnotationAdmitsNone(s.elts[k]) {
          AdmitsNoneExtends(s.elts[k]);
        }
      } else {
        AdmitsNoneExtends(s);
      }
    case BinOp(left, _, right) =>
      AdmitsNoneExtends(left);
      AdmitsNoneExtends(right);
    case Tuple(elts) =>
      forall k | 0 <= k < |elts| ensures AnnotationContainsNone(elts[k]) ==> AnnotationAdmitsNone(elts[k]) {
        AdmitsNoneExtends(elts[k]);
      }
    case _ =>
  }

  /** Some `Optional[...]` sits where the analysis looks. */
  predicate MentionsOptional(e: Expr) {
    match e
    case Subscript(_, s) =>
      IsOptionalSubscript(e) ||
      if s.Tuple? then exists k :: 0 <= k < |s.elts| && MentionsOptional(s.elts[k])
      else MentionsOptional(s)
    case BinOp(left, op, right) => op.BitOr? && (MentionsOptional(left) || MentionsOptional(right))
    case Tuple(elts) => exists k :: 0 <= k < |elts| && MentionsOptional(elts[k])
    case _ => false
  }

  /** Without an `Optional[...]` in view, the two analyses agree. */
  lemma {:induction false} AgreeWithoutOptional(e: Expr)
    requires !MentionsOptional(e)
    ensures AnnotationAdmitsNone(e) == AnnotationContainsNone(e)
  {
    match e
    case Subscript(_, s) =>
      if s.Tuple? {
        forall k | 0 <= k < |s.elts| ensures AnnotationAdmitsNone(s.elts[k]) == AnnotationContainsNone(s.elts[k]) {
          AgreeWithoutOptional(s.elts[k]);
        }
      } else {
        AgreeWithoutOptional(s);
      }
    case BinOp(left, op, right) =>
      if op.BitOr? {
        AgreeWithoutOptional(left);
        AgreeWithoutOptional(right);
      }
    case Tuple(elts) =>
      forall k | 0 <= k < |elts| ensures AnnotationAdmitsNone(elts[k]) == AnnotationContainsNone(elts[k]) {
        AgreeWithoutOptional(elts[k]);
      }
    case _ =>
  }

  /**
   * `int` is required, `str | None` and `Union[str, None]` are optional,
   * `list[None]` counts too, `dict[str, int]` does not: the same answers from
   * the analysis as written and from the corrected one.
   */
  lemma AnnotationExamples()
    ensures !AnnotationContainsNone(Name("int")) && !AnnotationAdmitsNone(Name("int"))
    ensures AnnotationContainsNone(BinOp(Name("str"), BitOr, Constant(NoneLiteral)))
    ensures AnnotationAdmitsNone(BinOp(Name("str"), BitOr, Constant(NoneLiteral)))
    ensures AnnotationContainsNone(Subscript(Name("Union"), Tuple([Name("str"), Constant(NoneLiteral)])))
    ensures AnnotationAdmitsNone(Subscript(Name("Union"), Tuple([Name("str"), Constant(NoneLiteral)])))
    ensures AnnotationContainsNone(Subscript(Name("list"), Constant(NoneLiteral)))
    ensures AnnotationAdmitsNone(Subscript(Name("list"), Constant(NoneLiteral)))
    ensures !AnnotationContainsNone(Subscript(Name("dict"), Tuple([Name("str"), Name("int")])))
    ensures !AnnotationAdmitsNone(Subscript(Name("dict"), Tuple([Name("str"), Name("int")])))
  {
    var u := Tuple([Name("str"), Constant(NoneLiteral)]);
    assert AnnotationContainsNone(u.elts[1]) && AnnotationAdmitsNone(u.elts[1]);
    var d := Tuple([Name("str"), Name("int")]);
    assert forall k :: 0 <= k < |d.elts| ==> !AnnotationContainsNone(d.elts[k]) && !AnnotationAdmitsNone(d.elts[k]);
  }

  /**
   * `rewrite_type_annotation(node, basemodel_names)`: a name or attribute
   * whose last part is a base-model name gets the `Data` suffix; subscripts
   * (value and slice, elementwise for a tuple slice), tuples and `|` are
   * rewritten inside; every other node is kept.
   */
  function RewriteTypeAnnotation(e: Expr, names: set<string>): Expr {
    match e
    case Name(id) => if id in names then Name(id + "Data") else e
    case Attribute(value, attr) => if attr in names then Attribute(value, attr + "Data") else e
    case Subscript(value, s) =>
      Subscript(RewriteTypeAnnotation(value, names),
                if s.Tuple? then Tuple(seq(|s.elts|, k requires 0 <= k < |s.elts| => RewriteTypeAnnotation(s.elts[k], names)))
                else RewriteTypeAnnotation(s, names))
    case Tuple(elts) => Tuple(seq(|elts|, k requires 0 <= k < |elts| => RewriteTypeAnnotation(elts[k], names)))
    case BinOp(left, op, right) =>
      if op.BitOr? then BinOp(RewriteTypeAnnotation(left, names), op, RewriteTypeAnnotation(right, names)) else e
    case _ => e
  }

  /** Some name the rewrite would rename sits where the rewrite looks. */
  predicate Mentions(e: Expr, names: set<string>) {
    match e
    case Name(id) => id in names
    case Attribute(_, attr) => attr in names
    case Subscript(value, s) => Mentions(value, names) || Mentions(s, names)
    case Tuple(elts) => exists k :: 0 <= k < |elts| && Mentions(elts[k], names)
    case BinOp(left, op, right) => op.BitOr? && (Mentions(left, names) || Mentions(right, names))
    case _ => false
  }

  /** An annotation that mentions no base model comes back unchanged. */
  lemma {:induction false} RewriteUnmentioned(e: Expr, names: set<string>)
    requires !Mentions(e, names)
    ensures RewriteTypeAnnotation(e, names) == e
  {
    match e
    case Subscript(value, s) =>
      RewriteUnmentioned(value, names);
      RewriteUnmentioned(s, names);
      if s.Tuple? {
        forall k | 0 <= k < |s.elts| ensures RewriteTypeAnnotation(s.elts[k], names) == s.elts[k] {
          assert !Mentions(s.elts[k], names);
          RewriteUnmentioned(s.elts[k], names);
        }
      }
    case Tuple(elts) =>
      forall k | 0 <= k < |elts| ensures RewriteTypeAnnotation(elts[k], names) == elts[k] {
        RewriteUnmentioned(elts[k], names);
      }
    case BinOp(left, op, right) =>
      if op.BitOr? {
        RewriteUnmentioned(left, names);
        RewriteUnmentioned(right, names);
      }
    case _ =>
  }

  /** No base-model name ends up renamed onto another base-model name. */
  predicate SuffixFree(names: set<string>) {
    forall n :: n in names ==> n + "Data" !in names
  }

  /** When no `...Data` name is itself a base model, rewriting twice is rewriting once. */
  lemma {:induction false} RewriteIdempotent(e: Expr, names: set<string>)
    requires SuffixFree(names)
    ensures RewriteTypeAnnotation(RewriteTypeAnnotation(e, names), names) == RewriteTypeAnnotation(e, names)
  {
    match e
    case Subscript(value, s) =>
      RewriteIdempotent(value, names);
      RewriteIdempotent(s, names);
      if s.Tuple? {
        forall k | 0 <= k < |s.elts|
          ensures RewriteTypeAnnotation(RewriteTypeAnnotation(s.elts[k], names), names)
                  == RewriteTypeAnnotation(s.elts[k], names)
        {
          RewriteIdempotent(s.elts[k], names);
        }
      }
    case Tuple(elts) =>
      forall k | 0 <= k < |elts|
        ensures RewriteTypeAnnotation(RewriteTypeAnnotation(elts[k], names), names)
                == RewriteTypeAnnotation(elts[k], names)
      {
        RewriteIdempotent(elts[k], names);
      }
    case BinOp(left, op, right) =>
      if op.BitOr? {
        RewriteIdempotent(left, names);
        RewriteIdempotent(right, names);
      }
    case _ =>
  }

  /** The names the optionality analysis reacts to. */
  predicate KeepsNoneNames(names: set<string>) {
    "None" !in names && "NoneType" !in names && "Optional" !in names
  }

  /** Renaming base models never changes whether an annotation admits `None`. */
  lemma {:induction false} RewriteKeepsOptionality(e: Expr, names: set<string>)
    requires KeepsNoneNames(names)
    ensures AnnotationAdmitsNone(RewriteTypeAnnotation(e, names)) == AnnotationAdmitsNone(e)
  {
    match e
    case Name(id) =>
      if id in names {
        assert id + "Data" != "None" && id + "Data" != "NoneType" by {
          assert |id + "Data"| >= 4 && (id + "Data")[|id|..] == "Data";
        }
      }
    case Attribute(_, attr) =>
      if attr in names {
        assert (attr + "Data")[|attr|..] == "Data";
        assert attr + "Data" != "NoneType" by {
          assert "NoneType"[4..] == "Type";
          if |attr| == 4 {
            assert (attr + "Data")[4..] == "Data";
          }
        }
      }
    case Subscript(value, s) =>
      RewriteKeepsOptionality(s, names);
      KeepsOptionalHead(value, names);
      if s.Tuple? {
        forall k | 0 <= k < |s.elts|
          ensures AnnotationAdmitsNone(RewriteTypeAnnotation(s.elts[k], names)) == AnnotationAdmitsNone(s.elts[k])
        {
          RewriteKeepsOptionality(s.elts[k], names);
        }
      }
    case Tuple(elts) =>
      var r := RewriteTypeAnnotation(e, names);
      forall k | 0 <= k < |elts|
        ensures AnnotationAdmitsNone(r.elts[k]) == AnnotationAdmitsNone(elts[k])
      {
        assert r.elts[k] == RewriteTypeAnnotation(elts[k], names);
        RewriteKeepsOptionality(elts[k], names);
      }
    case BinOp(left, op, right) =>
      if op.BitOr? {
        RewriteKeepsOptionality(left, names);
        RewriteKeepsOptionality(right, names);
      }
    case _ =>
  }

  /** Renaming base models never changes what `annotation_contains_none` answers either. */
  lemma {:induction false} RewriteKeepsNoneDetection(e: Expr, names: set<string>)
    requires KeepsNoneNames(names)
    ensures AnnotationContainsNone(RewriteTypeAnnotation(e, names)) == AnnotationContainsNone(e)
  {
    match e
    case Name(id) =>
      if id in names {
        assert id + "Data" != "None" && id + "Data" != "NoneType" by {
          assert |id + "Data"| >= 4 && (id + "Data")[|id|..] == "Data";
        }
      }
    case Attribute(_, attr) =>
      if attr in names {
        assert (attr + "Data")[|attr|..] == "Data";
        assert attr + "Data" != "NoneType" by {
          assert "NoneType"[4..] == "Type";
          if |attr| == 4 {
            assert (attr + "Data")[4..] == "Data";
          }
        }
      }
    case Subscript(value, s) =>
      RewriteKeepsNoneDetection(s, names);
      if s.Tuple? {
        forall k | 0 <= k < |s.elts|
          ensures AnnotationContainsNone(RewriteTypeAnnotation(s.elts[k], names)) == AnnotationContainsNone(s.elts[k])
        {
          RewriteKeepsNoneDetection(s.elts[k], names);
        }
      }
    case Tuple(elts) =>
      var r := RewriteTypeAnnotation(e, names);
      forall k | 0 <= k < |elts|
        ensures AnnotationContainsNone(r.elts[k]) == AnnotationContainsNone(elts[k])
      {
        assert r.elts[k] == RewriteTypeAnnotation(elts[k], names);
        RewriteKeepsNoneDetection(elts[k], names);
      }
    case BinOp(left, op, right) =>
      if op.BitOr? {
        RewriteKeepsNoneDetection(left, names);
        RewriteKeepsNoneDetection(right, names);
      }
    case _ =>
  }

  /** The head of a subscript reads `Optional` after the rewrite exactly when it did before. */
  lemma KeepsOptionalHead(value: Expr, names: set<string>)
    requires KeepsNoneNames(names)
    ensures var r := RewriteTypeAnnotation(value, names);
            ((r.Name? && r.id == "Optional") || (r.Attribute? && r.attr == "Optional"))
            == ((value.Name? && value.id == "Optional") || (value.Attribute? && value.attr == "Optional"))
  {
    var r := RewriteTypeAnnotation(value, names);
    if value.Name? && value.id in names {
      assert r.id[|value.id|..] == "Data";
      assert r.id != "Optional" by {
        if |r.id| == |"Optional"| {
          assert "Optional"[4..] == "onal";
        }
      }
    } else if value.Attribute? && value.attr in names {
      assert r.attr[|value.attr|..] == "Data";
      assert r.attr != "Optional" by {
        if |r.attr| == |"Optional"| {
          assert "Optional"[4..] == "onal";
        }
      }
    }
  }

  /** `list[Model] | None` becomes `list[ModelData] | None`. */
  lemma RewriteExample()
    ensures RewriteTypeAnnotation(BinOp(Subscript(Name("list"), Name("Model")), BitOr, Constant(NoneLiteral)), {"Model"})
            == BinOp(Subscript(Name("list"), Name("ModelData")), BitOr, Constant(NoneLiteral))
  {
    var names := {"Model"};
    assert "list" !in names && "Model" in names;
    assert RewriteTypeAnnotation(Name("list"), names) == Name("list");
    assert RewriteTypeAnnotation(Name("Model"), names) == Name("ModelData");
    assert RewriteTypeAnnotation(Subscript(Name("list"), Name("Model")), names)
           == Subscript(Name("list"), Name("ModelData"));
  }
}
