/**
 * `BindModelTypeTransformer`: in every stub except the API controller,
 * each parameter or return annotation that binds a model through
 * `Annotated[..., "model:<Name>"]` is replaced by the name of that model's
 * TypedDict, and the TypedDicts used are imported.
 */
module BindModel {
  import opened Wrappers
  import opened Text
  import opened StubAst
  import opened OrderedMaps
  import opened StringOrder
  import opened BindAnnotations
  import DomainModels

  /** The map from a model to its TypedDict name and module. */
  type ModelsMap = Dict<(string, string)>

  // ---------------------------------------------------------------------
  // Resolving a model reference to a TypedDict name
  // ---------------------------------------------------------------------

  /** `_extract_model_name_from_annotation` */
  function ExtractModelName(e: Expr): Option<string> {
    if e.Name? then Some(e.id)
    else if e.Attribute? then Some(e.attr)
    else None
  }

  /** The statement that decides the base model: `target: T` or `target = value`. */
  predicate Assigns(s: Stmt, target: string) {
    (s.AnnAssign? && s.target == Name(target))
    || (s.Assign? && |s.targets| == 1 && s.targets[0] == Name(target))
  }

  function AssignedExpr(s: Stmt): Expr
    requires s.AnnAssign? || s.Assign?
  {
    if s.AnnAssign? then s.annotation else s.value
  }

  /** The first statement of the class body that assigns `target` decides, even when it names no model. */
  function BaseModelInBody(body: seq<Stmt>, target: string): (r: Option<string>)
    ensures forall i :: 0 <= i < |body| && Assigns(body[i], target)
                        && (forall j :: 0 <= j < i ==> !Assigns(body[j], target))
                        ==> r == ExtractModelName(AssignedExpr(body[i]))
    ensures (forall i :: 0 <= i < |body| ==> !Assigns(body[i], target)) ==> r.None?
  {
    if body == [] then None
    else if Assigns(body[0], target) then ExtractModelName(AssignedExpr(body[0]))
    else
      var r := BaseModelInBody(body[1..], target);
      assert forall i :: 1 <= i < |body| ==> body[i] == body[1..][i - 1];
      r
  }

  /** The class attribute an endpoint type refers to. */
  function TargetAttribute(modelName: string): string {
    if modelName == "EndpointResponseType" then "response_model" else "request_model"
  }

  /** `_find_base_model_from_parent_class`, given the top parent class. */
  function BaseModelOf(top: Option<Stmt>, modelName: string): Option<string> {
    if top.None? || !top.value.ClassDef? then None
    else BaseModelInBody(top.value.body, TargetAttribute(modelName))
  }

  const EndpointTypeNames: set<string> := {"EndpointResponseType", "EndpointRequestType"}

  /** `_resolve_hint_name_from_model_ref` */
  function Hint(models: ModelsMap, top: Option<Stmt>, modelName: string): string {
    if modelName in EndpointTypeNames then
      match BaseModelOf(top, modelName)
      case Some(b) =>
        if b != "" then (match Get(models, b) case Some(v) => v.0 case None => b + "Data")
        else modelName
      case None => modelName
    else
      match Get(models, modelName)
      case Some(v) => v.0
      case None => modelName
  }

  lemma MappedName(models: ModelsMap, name: string)
    requires DomainModels.NamesTypedDicts(models)
    requires Get(models, name).Some?
    ensures Get(models, name).value.0 == name + "Data"
  {
    GetEntry(models, name);
  }

  /**
   * With the map the TypedDict writer builds, a model reference resolves to
   * `<Model>Data` when the model is known and stays as written otherwise.
   */
  lemma HintOfModel(models: ModelsMap, top: Option<Stmt>, modelName: string)
    requires DomainModels.NamesTypedDicts(models)
    requires modelName !in EndpointTypeNames
    ensures Hint(models, top, modelName) == if modelName in Keys(models) then modelName + "Data" else modelName
  {
    if modelName in Keys(models) {
      MappedName(models, modelName);
    }
  }

  /**
   * `EndpointResponseType` and `EndpointRequestType` resolve through the
   * top class's `response_model` or `request_model` to `<Model>Data`,
   * known to the map or not; without such a model they stay as written.
   */
  lemma HintOfEndpointType(models: ModelsMap, top: Option<Stmt>, modelName: string)
    requires DomainModels.NamesTypedDicts(models)
    requires modelName in EndpointTypeNames
    ensures var b := BaseModelOf(top, modelName);
            Hint(models, top, modelName) == if b.Some? && b.value != "" then b.value + "Data" else modelName
  {
    var b := BaseModelOf(top, modelName);
    if b.Some? && b.value != "" && Get(models, b.value).Some? {
      MappedName(models, b.value);
    }
  }

  // ---------------------------------------------------------------------
  // The top parent class, through the parent map
  // ---------------------------------------------------------------------

  /** Nodes numbered in walk order: every parent comes before its child. */
  predicate ParentsPrecede(parent: map<nat, nat>) {
    forall n :: n in parent ==> parent[n] < n
  }

  /** The parent, grandparent and so on of `n`, nearest first. */
  function Ancestors(parent: map<nat, nat>, n: nat): (r: seq<nat>)
    requires ParentsPrecede(parent)
    ensures forall i :: 0 <= i < |r| ==> r[i] < n
    ensures forall i, j :: 0 <= i < j < |r| ==> r[j] < r[i]
    decreases n
  {
    if n in parent then [parent[n]] + Ancestors(parent, parent[n]) else []
  }

  /** The last class along a chain of ancestors: the outermost one. */
  function OutermostClass(chain: seq<nat>, classes: set<nat>): (r: Option<nat>)
    ensures r.Some? ==> r.value in classes && exists i :: 0 <= i < |chain| && chain[i] == r.value
                                                          && forall j :: i < j < |chain| ==> chain[j] !in classes
    ensures r.None? <==> forall i :: 0 <= i < |chain| ==> chain[i] !in classes
  {
    if chain == [] then None
    else
      var rest := OutermostClass(chain[1..], classes);
      assert forall i :: 1 <= i < |chain| ==> chain[i] == chain[1..][i - 1];
      if rest.Some? then rest
      else if chain[0] in classes then Some(chain[0])
      else None
  }

  /** On a strictly decreasing chain, the last class met is the smallest class on it. */
  lemma OutermostOfDecreasing(chain: seq<nat>, classes: set<nat>)
    requires forall i, j :: 0 <= i < j < |chain| ==> chain[j] < chain[i]
    ensures var r := OutermostClass(chain, classes);
            r.Some? ==> forall i :: 0 <= i < |chain| && chain[i] in classes ==> r.value <= chain[i]
  {
    var r := OutermostClass(chain, classes);
    if r.Some? {
      var i :| 0 <= i < |chain| && chain[i] == r.value && forall j :: i < j < |chain| ==> chain[j] !in classes;
      forall j | 0 <= j < |chain| && chain[j] in classes ensures r.value <= chain[j] {
        if j < i {
          assert chain[i] < chain[j];
        } else if i < j {
          assert false;
        }
      }
    }
  }

  /** The outermost enclosing class is the class ancestor nearest the module: the one with the smallest number. */
  lemma OutermostIsSmallest(parent: map<nat, nat>, classes: set<nat>, n: nat)
    requires ParentsPrecede(parent)
    ensures var chain := Ancestors(parent, n);
            var r := OutermostClass(chain, classes);
            r.Some? ==> forall i :: 0 <= i < |chain| && chain[i] in classes ==> r.value <= chain[i]
  {
    OutermostOfDecreasing(Ancestors(parent, n), classes);
  }

  /** `_get_top_parent_class(node)`: climb the parent map, remembering the last class met. */
  method GetTopParentClass(parent: map<nat, nat>, classes: set<nat>, node: nat) returns (r: Option<nat>)
    requires ParentsPrecede(parent)
    ensures r == OutermostClass(Ancestors(parent, node), classes)
  {
    var current := node;
    var lastClass: Option<nat> := None;
    while current in parent
      invariant OutermostClass(Ancestors(parent, node), classes) ==
                (var rest := OutermostClass(Ancestors(parent, current), classes); if rest.Some? then rest else lastClass)
      decreases current
    {
      var p := parent[current];
      var chain := Ancestors(parent, current);
      assert chain == [p] + Ancestors(parent, p);
      assert chain[1..] == Ancestors(parent, p);
      if p in classes {
        lastClass := Some(p);
      }
      current := p;
    }
    return lastClass;
  }

  // ---------------------------------------------------------------------
  // The rewrite of annotations
  // ---------------------------------------------------------------------

  predicate ArgBinds(a: Arg) {
    a.annotation.Some? && BindModelOf(a.annotation.value).Some?
  }

  /** A parameter whose annotation binds a model gets the model's hint name as its annotation. */
  function RewriteArg(models: ModelsMap, top: Option<Stmt>, a: Arg): Arg {
    if ArgBinds(a) then a.(annotation := Some(Name(Hint(models, top, BindModelOf(a.annotation.value).value))))
    else a
  }

  function RewriteArgs(models: ModelsMap, top: Option<Stmt>, args: seq<Arg>): (r: seq<Arg>)
    ensures |r| == |args|
  {
    if args == [] then [] else RewriteArgs(models, top, args[..|args| - 1]) + [RewriteArg(models, top, args[|args| - 1])]
  }

  /** Whether some parameter binds a model. */
  predicate AnyArgBinds(args: seq<Arg>) {
    |args| > 0 && (AnyArgBinds(args[..|args| - 1]) || ArgBinds(args[|args| - 1]))
  }

  lemma {:induction false} RewriteArgsAt(models: ModelsMap, top: Option<Stmt>, args: seq<Arg>)
    ensures forall k :: 0 <= k < |args| ==> RewriteArgs(models, top, args)[k] == RewriteArg(models, top, args[k])
  {
    if args != [] {
      var init := args[..|args| - 1];
      RewriteArgsAt(models, top, init);
      assert forall k :: 0 <= k < |init| ==> init[k] == args[k];
    }
  }

  lemma {:induction false} AnyArgBindsIff(args: seq<Arg>)
    ensures AnyArgBinds(args) <==> exists k :: 0 <= k < |args| && ArgBinds(args[k])
  {
    if args != [] {
      var init := args[..|args| - 1];
      AnyArgBindsIff(init);
      if exists k :: 0 <= k < |init| && ArgBinds(init[k]) {
        var k :| 0 <= k < |init| && ArgBinds(init[k]);
        assert args[k] == init[k];
      }
      if k :| 0 <= k < |args| - 1 && ArgBinds(args[k]) {
        assert init[k] == args[k];
      }
    }
  }

  predicate ReturnBinds(ret: Option<Expr>) {
    ret.Some? && BindModelOf(ret.value).Some?
  }

  function RewriteReturn(models: ModelsMap, top: Option<Stmt>, ret: Option<Expr>): Option<Expr> {
    if ReturnBinds(ret) then Some(Name(Hint(models, top, BindModelOf(ret.value).value))) else ret
  }

  /** The parameters `_process_annotated_param_bind` looks at: positional ones, then keyword-only ones. */
  function AllParams(f: Stmt): seq<Arg>
    requires f.FunctionDef?
  {
    f.params.args + f.params.kwonly
  }

  predicate ParamsBind(f: Stmt)
    requires f.FunctionDef?
  {
    AnyArgBinds(AllParams(f))
  }

  function RewriteParams(models: ModelsMap, top: Option<Stmt>, f: Stmt): Stmt
    requires f.FunctionDef?
  {
    f.(params := f.params.(args := RewriteArgs(models, top, f.params.args),
                           kwonly := RewriteArgs(models, top, f.params.kwonly)))
  }

  /**
   * `_process_node_recursive` on a statement: a function has its parameter
   * and return annotations rewritten (its body is not entered); a class
   * has its body processed with its outermost enclosing class, `top`.
   */
  function RewriteStmt(models: ModelsMap, top: Option<Stmt>, s: Stmt): Stmt
    decreases s
  {
    match s
    case FunctionDef(_, _, _, _, _, _) =>
      var g := RewriteParams(models, top, s);
      g.(returnType := RewriteReturn(models, top, s.returnType))
    case ClassDef(name, bases, typeParams, body) =>
      var outer := if top.Some? then top else Some(s);
      ClassDef(name, bases, typeParams, seq(|body|, k requires 0 <= k < |body| => RewriteStmt(models, outer, body[k])))
    case _ => s
  }

  /** Whether processing a statement rewrites anything (and so sets `modified`). */
  predicate HasBind(s: Stmt) {
    match s
    case FunctionDef(_, _, _, _, _, _) => ParamsBind(s) || ReturnBinds(s.returnType)
    case ClassDef(_, _, _, body) => exists k :: 0 <= k < |body| && HasBind(body[k])
    case _ => false
  }

  function RewriteModule(models: ModelsMap, tree: Module): Module {
    seq(|tree|, k requires 0 <= k < |tree| => RewriteStmt(models, None, tree[k]))
  }

  predicate ModuleHasBind(tree: Module) {
    exists k :: 0 <= k < |tree| && HasBind(tree[k])
  }

  lemma RewrittenArgBindsNothing(models: ModelsMap, top: Option<Stmt>, a: Arg)
    ensures !ArgBinds(RewriteArg(models, top, a))
  {
    if ArgBinds(a) {
      NameBindsNothing(Hint(models, top, BindModelOf(a.annotation.value).value));
    }
  }

  lemma RewriteArgsAppend(models: ModelsMap, top: Option<Stmt>, a: seq<Arg>, b: seq<Arg>)
    ensures RewriteArgs(models, top, a + b) == RewriteArgs(models, top, a) + RewriteArgs(models, top, b)
  {
    var l := RewriteArgs(models, top, a + b);
    var r := RewriteArgs(models, top, a) + RewriteArgs(models, top, b);
    RewriteArgsAt(models, top, a + b);
    RewriteArgsAt(models, top, a);
    RewriteArgsAt(models, top, b);
    forall k | 0 <= k < |l| ensures l[k] == r[k] {
      if k < |a| {
        assert (a + b)[k] == a[k];
      } else {
        assert (a + b)[k] == b[k - |a|];
      }
    }
  }

  /** A rewritten function's parameters and return value bind no model. */
  lemma FunctionLeavesNoBinds(models: ModelsMap, top: Option<Stmt>, f: Stmt)
    requires f.FunctionDef?
    ensures !HasBind(RewriteStmt(models, top, f))
  {
    var g := RewriteStmt(models, top, f);
    RewriteArgsAppend(models, top, f.params.args, f.params.kwonly);
    assert AllParams(g) == RewriteArgs(models, top, AllParams(f));
    RewriteArgsAt(models, top, AllParams(f));
    forall k | 0 <= k < |AllParams(g)| ensures !ArgBinds(AllParams(g)[k]) {
      RewrittenArgBindsNothing(models, top, AllParams(f)[k]);
    }
    AnyArgBindsIff(AllParams(g));
    if ReturnBinds(f.returnType) {
      NameBindsNothing(Hint(models, top, BindModelOf(f.returnType.value).value));
    }
  }

  /** After the rewrite no annotation binds a model any more. */
  lemma {:induction false} RewriteLeavesNoBinds(models: ModelsMap, top: Option<Stmt>, s: Stmt)
    ensures !HasBind(RewriteStmt(models, top, s))
    decreases s
  {
    match s
    case FunctionDef(_, _, _, _, _, _) =>
      FunctionLeavesNoBinds(models, top, s);
    case ClassDef(name, bases, typeParams, body) =>
      var outer := if top.Some? then top else Some(s);
      var g := RewriteStmt(models, top, s);
      forall k | 0 <= k < |body| ensures !HasBind(g.body[k]) {
        RewriteLeavesNoBinds(models, outer, body[k]);
      }
    case _ =>
  }

  /** A function with no binding annotation is left as it is. */
  lemma FunctionWithoutBinds(models: ModelsMap, top: Option<Stmt>, f: Stmt)
    requires f.FunctionDef? && !HasBind(f)
    ensures RewriteStmt(models, top, f) == f
  {
    AnyArgBindsIff(AllParams(f));
    forall k | 0 <= k < |f.params.args| ensures !ArgBinds(f.params.args[k]) {
      assert AllParams(f)[k] == f.params.args[k];
    }
    forall k | 0 <= k < |f.params.kwonly| ensures !ArgBinds(f.params.kwonly[k]) {
      assert AllParams(f)[|f.params.args| + k] == f.params.kwonly[k];
    }
    RewriteArgsAt(models, top, f.params.args);
    RewriteArgsAt(models, top, f.params.kwonly);
    assert RewriteArgs(models, top, f.params.args) == f.params.args;
    assert RewriteArgs(models, top, f.params.kwonly) == f.params.kwonly;
  }

  /** A statement with nothing to rewrite is left as it is, whatever the map and the top class. */
  lemma {:induction false} RewriteWithoutBinds(models: ModelsMap, top: Option<Stmt>, s: Stmt)
    requires !HasBind(s)
    ensures RewriteStmt(models, top, s) == s
    decreases s
  {
    match s
    case FunctionDef(_, _, _, _, _, _) =>
      FunctionWithoutBinds(models, top, s);
    case ClassDef(name, bases, typeParams, body) =>
      var outer := if top.Some? then top else Some(s);
      forall k | 0 <= k < |body| ensures RewriteStmt(models, outer, body[k]) == body[k] {
        RewriteWithoutBinds(models, outer, body[k]);
      }
      assert seq(|body|, k requires 0 <= k < |body| => RewriteStmt(models, outer, body[k])) == body;
    case _ =>
  }

  /** Rewriting a rewritten module changes nothing and finds nothing to rewrite. */
  lemma RewriteModuleIdempotent(models: ModelsMap, tree: Module)
    ensures !ModuleHasBind(RewriteModule(models, tree))
    ensures RewriteModule(models, RewriteModule(models, tree)) == RewriteModule(models, tree)
  {
    var once := RewriteModule(models, tree);
    forall k | 0 <= k < |once| ensures !HasBind(once[k]) && RewriteStmt(models, None, once[k]) == once[k] {
      RewriteLeavesNoBinds(models, None, tree[k]);
      RewriteWithoutBinds(models, None, once[k]);
    }
  }

  // ---------------------------------------------------------------------
  // Import insertion
  // ---------------------------------------------------------------------

  function Values(models: ModelsMap): seq<(string, string)> {
    seq(|models|, k requires 0 <= k < |models| => models[k].value)
  }

  /** `set.add` on a set kept in insertion order. */
  function AddName(names: seq<string>, name: string): seq<string> {
    if name in names then names else names + [name]
  }

  function GroupOf(groups: Dict<seq<string>>, modulePath: string): seq<string> {
    match Get(groups, modulePath) case Some(ns) => ns case None => []
  }

  /** `used_typed_dicts`: module path to the TypedDict names found in the content, in first-seen order. */
  function UsedTypedDicts(values: seq<(string, string)>, content: string): Dict<seq<string>> {
    if values == [] then []
    else
      var groups := UsedTypedDicts(values[..|values| - 1], content);
      var v := values[|values| - 1];
      if Contains(content, v.0) then Put(groups, v.1, AddName(GroupOf(groups, v.1), v.0)) else groups
  }

  /** A module's group holds exactly the TypedDicts of that module whose names occur in the content. */
  lemma {:induction false} UsedTypedDictsGroups(values: seq<(string, string)>, content: string, modulePath: string,
                                                name: string)
    ensures name in GroupOf(UsedTypedDicts(values, content), modulePath) <==>
              exists k :: 0 <= k < |values| && values[k] == (name, modulePath) && Contains(content, name)
  {
    if values != [] {
      var init := values[..|values| - 1];
      var v := values[|values| - 1];
      var groups := UsedTypedDicts(init, content);
      UsedTypedDictsGroups(init, content, modulePath, name);
      if Contains(content, v.0) {
        PutGet(groups, v.1, AddName(GroupOf(groups, v.1), v.0), modulePath);
      }
      if exists k :: 0 <= k < |init| && init[k] == (name, modulePath) && Contains(content, name) {
        var k :| 0 <= k < |init| && init[k] == (name, modulePath) && Contains(content, name);
        assert values[k] == init[k];
      }
      if k :| 0 <= k < |values| - 1 && values[k] == (name, modulePath) && Contains(content, name) {
        assert init[k] == values[k];
      }
    }
  }

  /** Groups are made only for TypedDict names that occur in the content, under their own module paths. */
  lemma {:induction false} UsedTypedDictsKeys(values: seq<(string, string)>, content: string, modulePath: string)
    requires modulePath in Keys(UsedTypedDicts(values, content))
    ensures exists k :: 0 <= k < |values| && values[k].1 == modulePath && Contains(content, values[k].0)
  {
    var init := values[..|values| - 1];
    var v := values[|values| - 1];
    if Contains(content, v.0) && v.1 == modulePath {
    } else {
      UsedTypedDictsKeys(init, content, modulePath);
      var k :| 0 <= k < |init| && init[k].1 == modulePath && Contains(content, init[k].0);
      assert values[k] == init[k];
    }
  }

  predicate IsImportLine(line: string) {
    StartsWith(line, "import") || StartsWith(line, "from")
  }

  /** The index after the last import line, or 0. */
  function ImportEnd(lines: seq<string>): (pos: nat)
    ensures pos <= |lines|
    ensures pos > 0 ==> IsImportLine(lines[pos - 1])
    ensures forall j :: pos <= j < |lines| ==> !IsImportLine(lines[j])
  {
    if lines == [] then 0
    else if IsImportLine(lines[|lines| - 1]) then |lines|
    else
      var pos := ImportEnd(lines[..|lines| - 1]);
      assert forall j :: pos <= j < |lines| - 1 ==> lines[j] == lines[..|lines| - 1][j];
      pos
  }

  function ImportLine(modulePath: string, names: seq<string>): string {
    "from " + modulePath + " import " + Join(Sort(names), ", ")
  }

  /** One `from <module> import <names>` line per group, names sorted; groups without a module are skipped. */
  function ImportLines(groups: Dict<seq<string>>): (r: seq<string>)
    ensures forall i :: 0 <= i < |r| ==>
              exists k :: 0 <= k < |groups| && groups[k].key != "" && r[i] == ImportLine(groups[k].key, groups[k].value)
  {
    if groups == [] then []
    else
      var init := groups[..|groups| - 1];
      var g := groups[|groups| - 1];
      var r := ImportLines(init);
      assert forall k :: 0 <= k < |init| ==> init[k] == groups[k];
      if g.key == "" then r else r + [ImportLine(g.key, g.value)]
  }

  /** `_insert_imports(content)` with the map's values in insertion order. */
  function WithImports(content: string, values: seq<(string, string)>): string {
    var groups := UsedTypedDicts(values, content);
    if groups == [] then content
    else
      var imports := ImportLines(groups);
      if imports == [] then content
      else
        var lines := SplitLines(content);
        var pos := ImportEnd(lines);
        Join(lines[..pos] + imports + [""] + lines[pos..], "\n")
  }

  lemma {:induction false} NoUsedTypedDicts(values: seq<(string, string)>, content: string)
    requires forall k :: 0 <= k < |values| ==> !Contains(content, values[k].0)
    ensures UsedTypedDicts(values, content) == []
  {
    if values != [] {
      var init := values[..|values| - 1];
      assert forall k :: 0 <= k < |init| ==> init[k] == values[k];
      NoUsedTypedDicts(init, content);
    }
  }

  lemma {:induction false} NoImportLines(groups: Dict<seq<string>>)
    requires forall k :: 0 <= k < |groups| ==> groups[k].key == ""
    ensures ImportLines(groups) == []
  {
    if groups != [] {
      var init := groups[..|groups| - 1];
      assert forall k :: 0 <= k < |init| ==> init[k] == groups[k];
      NoImportLines(init);
    }
  }

  /**
   * The content is returned unchanged when no TypedDict name occurs in it,
   * and when every TypedDict that occurs has no module to import from.
   */
  lemma WithImportsUnchanged(content: string, values: seq<(string, string)>)
    requires forall k :: 0 <= k < |values| ==> !Contains(content, values[k].0) || values[k].1 == ""
    ensures WithImports(content, values) == content
  {
    var groups := UsedTypedDicts(values, content);
    forall k | 0 <= k < |groups| ensures groups[k].key == "" {
      KeysAt(groups, groups[k].key);
      UsedTypedDictsKeys(values, content, groups[k].key);
    }
    NoImportLines(groups);
  }

  lemma NoNewlineJoin(parts: seq<string>, sep: string)
    requires '\n' !in sep && forall k :: 0 <= k < |parts| ==> '\n' !in parts[k]
    ensures '\n' !in Join(parts, sep)
  {
    if |parts| > 1 {
      NoNewlineJoin(parts[1..], sep);
    }
  }

  /** A map whose TypedDict names and module paths are single-line. */
  predicate SingleLineValues(values: seq<(string, string)>) {
    forall k :: 0 <= k < |values| ==> '\n' !in values[k].0 && '\n' !in values[k].1
  }

  lemma {:induction false} UsedTypedDictsUnique(values: seq<(string, string)>, content: string)
    ensures UniqueKeys(UsedTypedDicts(values, content))
  {
    if values != [] {
      var init := values[..|values| - 1];
      var v := values[|values| - 1];
      UsedTypedDictsUnique(init, content);
      if Contains(content, v.0) {
        var groups := UsedTypedDicts(init, content);
        PutUnique(groups, v.1, AddName(GroupOf(groups, v.1), v.0));
      }
    }
  }

  /** Every name in a group, and the group's module path, comes from the map's values. */
  lemma GroupSingleLine(values: seq<(string, string)>, content: string, k: nat)
    requires SingleLineValues(values)
    requires k < |UsedTypedDicts(values, content)|
    ensures var g := UsedTypedDicts(values, content)[k];
            '\n' !in g.key && forall j :: 0 <= j < |g.value| ==> '\n' !in g.value[j]
  {
    var groups := UsedTypedDicts(values, content);
    var g := groups[k];
    KeysAt(groups, g.key);
    UsedTypedDictsKeys(values, content, g.key);
    UsedTypedDictsUnique(values, content);
    GetAt(groups, k);
    assert GroupOf(groups, g.key) == g.value;
    forall j | 0 <= j < |g.value| ensures '\n' !in g.value[j] {
      UsedTypedDictsGroups(values, content, g.key, g.value[j]);
    }
  }

  lemma ImportLineSingleLine(modulePath: string, names: seq<string>)
    requires '\n' !in modulePath && forall j :: 0 <= j < |names| ==> '\n' !in names[j]
    ensures '\n' !in ImportLine(modulePath, names)
  {
    var sorted := Sort(names);
    forall j | 0 <= j < |sorted| ensures '\n' !in sorted[j] {
      assert sorted[j] in multiset(names);
    }
    NoNewlineJoin(sorted, ", ");
  }

  lemma ImportLinesSingleLine(values: seq<(string, string)>, content: string)
    requires SingleLineValues(values)
    ensures var imports := ImportLines(UsedTypedDicts(values, content));
            forall i :: 0 <= i < |imports| ==> '\n' !in imports[i]
  {
    var groups := UsedTypedDicts(values, content);
    var imports := ImportLines(groups);
    forall i | 0 <= i < |imports| ensures '\n' !in imports[i] {
      var k :| 0 <= k < |groups| && groups[k].key != "" && imports[i] == ImportLine(groups[k].key, groups[k].value);
      GroupSingleLine(values, content, k);
      ImportLineSingleLine(groups[k].key, groups[k].value);
    }
  }

  lemma LinesHaveNoNewline(lines: seq<string>)
    requires forall k :: 0 <= k < |lines| ==> NoLineBreak(lines[k])
    ensures forall k :: 0 <= k < |lines| ==> '\n' !in lines[k]
  {
    forall k | 0 <= k < |lines| ensures '\n' !in lines[k] {
      assert NoLineBreak(lines[k]);
      assert IsLineBreak('\n');
    }
  }

  lemma NoNewlineConcat(a: seq<string>, b: seq<string>)
    requires forall k :: 0 <= k < |a| ==> '\n' !in a[k]
    requires forall k :: 0 <= k < |b| ==> '\n' !in b[k]
    ensures forall k :: 0 <= k < |a + b| ==> '\n' !in (a + b)[k]
  {
    forall k | 0 <= k < |a + b| ensures '\n' !in (a + b)[k] {
      if k < |a| {
        assert (a + b)[k] == a[k];
      } else {
        assert (a + b)[k] == b[k - |a|];
      }
    }
  }

  /** When `_insert_imports` changes the content, it joins the lines with the import block inserted. */
  lemma WithImportsShape(content: string, values: seq<(string, string)>)
    requires WithImports(content, values) != content
    ensures var lines := SplitLines(content);
            var pos := ImportEnd(lines);
            var imports := ImportLines(UsedTypedDicts(values, content));
            imports != [] && WithImports(content, values) == Join(lines[..pos] + imports + [""] + lines[pos..], "\n")
  {
  }

  /**
   * When imports are added, the result read back line by line is the
   * original lines with the import lines inserted after the last
   * `import`/`from` line (at the top when there is none), followed by one
   * empty line.
   */
  lemma WithImportsLayout(content: string, values: seq<(string, string)>)
    requires SingleLineValues(values)
    requires WithImports(content, values) != content
    ensures var lines := SplitLines(content);
            var pos := ImportEnd(lines);
            var imports := ImportLines(UsedTypedDicts(values, content));
            imports != []
            && Split(WithImports(content, values), '\n') == lines[..pos] + imports + [""] + lines[pos..]
  {
    var lines := SplitLines(content);
    var pos := ImportEnd(lines);
    var imports := ImportLines(UsedTypedDicts(values, content));
    WithImportsShape(content, values);
    LinesHaveNoNewline(lines);
    LinesHaveNoNewline(lines[..pos]);
    LinesHaveNoNewline(lines[pos..]);
    ImportLinesSingleLine(values, content);
    NoNewlineConcat(lines[..pos], imports);
    NoNewlineConcat(lines[..pos] + imports, [""]);
    NoNewlineConcat(lines[..pos] + imports + [""], lines[pos..]);
    SplitJoin(lines[..pos] + imports + [""] + lines[pos..], '\n');
  }

  // ---------------------------------------------------------------------
  // The transformer
  // ---------------------------------------------------------------------

  /** One entry of `stubs_tree`: its POSIX path, whether it is a file, its text and its parse. */
  datatype StubSource = StubSource(path: string, isFile: bool, content: string, tree: Option<Module>)

  /** What `run_rewrites` does to each stub, in order: the files written and whether a parse error stopped it. */
  function RunOutcome(models: ModelsMap, unparse: Module -> string, stubs: seq<StubSource>, modified: bool)
    : (seq<(string, string)>, bool, bool)
  {
    if stubs == [] then ([], false, modified)
    else
      var prev := RunOutcome(models, unparse, stubs[..|stubs| - 1], modified);
      var st := stubs[|stubs| - 1];
      if prev.1 then prev
      else if !st.isFile || Contains(st.path, "/api/controller") then prev
      else if st.tree.None? then (prev.0, true, prev.2)
      else if ModuleHasBind(st.tree.value) then
        (prev.0 + [(st.path, WithImports(unparse(RewriteModule(models, st.tree.value)), Values(models)))], false, true)
      else (prev.0, false, false)
  }

  /** A write that stub `k` accounts for: a file, not the API controller, with a bind, rewritten. */
  predicate WrittenFrom(models: ModelsMap, unparse: Module -> string, st: StubSource, w: (string, string)) {
    st.path == w.0 && st.isFile && !Contains(st.path, "/api/controller")
    && st.tree.Some? && ModuleHasBind(st.tree.value)
    && w.1 == WithImports(unparse(RewriteModule(models, st.tree.value)), Values(models))
  }

  /** One stub adds at most one write, and only one it accounts for. */
  lemma RunOutcomeStep(models: ModelsMap, unparse: Module -> string, stubs: seq<StubSource>, modified: bool)
    requires stubs != []
    ensures var prev := RunOutcome(models, unparse, stubs[..|stubs| - 1], modified).0;
            var writes := RunOutcome(models, unparse, stubs, modified).0;
            writes == prev
            || (|writes| == |prev| + 1 && writes[..|prev|] == prev
                && WrittenFrom(models, unparse, stubs[|stubs| - 1], writes[|prev|]))
  {
  }

  /** Only files with something to rewrite are written, and never the API controller's stub. */
  lemma {:induction false} RunWritesOnlyBound(models: ModelsMap, unparse: Module -> string, stubs: seq<StubSource>,
                                              modified: bool)
    ensures var writes := RunOutcome(models, unparse, stubs, modified).0;
            forall i :: 0 <= i < |writes| ==>
              exists k :: 0 <= k < |stubs| && WrittenFrom(models, unparse, stubs[k], writes[i])
  {
    if stubs != [] {
      var init := stubs[..|stubs| - 1];
      RunWritesOnlyBound(models, unparse, init, modified);
      var prevWrites := RunOutcome(models, unparse, init, modified).0;
      var writes := RunOutcome(models, unparse, stubs, modified).0;
      RunOutcomeStep(models, unparse, stubs, modified);
      forall i | 0 <= i < |writes|
        ensures exists k :: 0 <= k < |stubs| && WrittenFrom(models, unparse, stubs[k], writes[i])
      {
        if i < |prevWrites| {
          assert writes[i] == writes[..|prevWrites|][i];
          var k :| 0 <= k < |init| && WrittenFrom(models, unparse, init[k], prevWrites[i]);
          assert stubs[k] == init[k];
        } else {
          assert WrittenFrom(models, unparse, stubs[|stubs| - 1], writes[i]);
        }
      }
    }
  }

  /**
   * The transformer's state: the models map (a class variable the run
   * sets) and the `modified` flag; `ast.unparse` is a given function.
   */
  class BindModelTypeTransformer {
    var modelsMap: ModelsMap
    var modified: bool
    const unparse: Module -> string

    constructor (unparse: Module -> string)
      ensures modelsMap == [] && !modified && this.unparse == unparse
    {
      this.unparse := unparse;
      modelsMap := [];
      modified := false;
    }

    /** `_find_base_model_from_parent_class(node, model_name)`, given the node's top parent class. */
    method FindBaseModelFromParentClass(top: Option<Stmt>, modelName: string) returns (r: Option<string>)
      ensures r == BaseModelOf(top, modelName)
    {
      if top.None? || !top.value.ClassDef? {
        return None;
      }
      var body := top.value.body;
      var target := TargetAttribute(modelName);
      var i := 0;
      while i < |body|
        invariant 0 <= i <= |body|
        invariant BaseModelInBody(body, target) == BaseModelInBody(body[i..], target)
      {
        var stmt := body[i];
        assert body[i..][0] == stmt && body[i..][1..] == body[i + 1..];
        assert BaseModelInBody(body[i..], target) ==
               if Assigns(stmt, target) then ExtractModelName(AssignedExpr(stmt)) else BaseModelInBody(body[i + 1..], target);
        if stmt.AnnAssign? && stmt.target.Name? && stmt.target.id == target {
          return ExtractModelName(stmt.annotation);
        }
        if stmt.Assign? && |stmt.targets| == 1 && stmt.targets[0].Name? && stmt.targets[0].id == target {
          return ExtractModelName(stmt.value);
        }
        i := i + 1;
      }
      return None;
    }

    /** `_resolve_hint_name_from_model_ref(node, model_name)` */
    method ResolveHintName(top: Option<Stmt>, modelName: string) returns (hint: string)
      ensures hint == Hint(modelsMap, top, modelName)
    {
      if modelName in EndpointTypeNames {
        var baseModel := FindBaseModelFromParentClass(top, modelName);
        if baseModel.Some? && baseModel.value != "" {
          var entry := Get(modelsMap, baseModel.value);
          return if entry.Some? then entry.value.0 else baseModel.value + "Data";
        }
        return modelName;
      }
      var entry := Get(modelsMap, modelName);
      return if entry.Some? then entry.value.0 else modelName;
    }

    /** The loop of `_process_annotated_param_bind` over `args.args + args.kwonlyargs`. */
    method ProcessArgs(all: seq<Arg>, top: Option<Stmt>) returns (out: seq<Arg>)
      modifies this`modified
      ensures out == RewriteArgs(modelsMap, top, all)
      ensures modified == (old(modified) || AnyArgBinds(all))
    {
      out := [];
      var i := 0;
      while i < |all|
        invariant 0 <= i <= |all|
        invariant out == RewriteArgs(modelsMap, top, all[..i])
        invariant modified == (old(modified) || AnyArgBinds(all[..i]))
      {
        ghost var next := all[..i + 1];
        assert next[..|next| - 1] == all[..i] && next[|next| - 1] == all[i];
        assert RewriteArgs(modelsMap, top, next) == RewriteArgs(modelsMap, top, all[..i]) + [RewriteArg(modelsMap, top, all[i])];
        assert AnyArgBinds(next) == (AnyArgBinds(all[..i]) || ArgBinds(all[i]));
        var arg, binds := ProcessArg(all[i], top);
        if binds {
          modified := true;
        }
        out := out + [arg];
        i := i + 1;
      }
      assert all[..i] == all;
    }

    /** One parameter: its annotation is replaced by the hint name when it binds a model. */
    method ProcessArg(a: Arg, top: Option<Stmt>) returns (r: Arg, binds: bool)
      ensures r == RewriteArg(modelsMap, top, a) && binds == ArgBinds(a)
    {
      r, binds := a, false;
      if a.annotation.Some? {
        var modelName := FindBindModelInAnnotation(a.annotation.value);
        if modelName.Some? {
          var hint := ResolveHintName(top, modelName.value);
          r, binds := a.(annotation := Some(Name(hint))), true;
        }
      }
    }

    /** `_process_annotated_param_bind(node)` */
    method ProcessAnnotatedParamBind(f: Stmt, top: Option<Stmt>) returns (g: Stmt)
      requires f.FunctionDef?
      modifies this`modified
      ensures g == RewriteParams(modelsMap, top, f)
      ensures modified == (old(modified) || ParamsBind(f))
    {
      var out := ProcessArgs(AllParams(f), top);
      RewriteArgsAppend(modelsMap, top, f.params.args, f.params.kwonly);
      var n := |f.params.args|;
      assert out[..n] == RewriteArgs(modelsMap, top, f.params.args);
      assert out[n..] == RewriteArgs(modelsMap, top, f.params.kwonly);
      g := f.(params := f.params.(args := out[..n], kwonly := out[n..]));
    }

    /** `_process_annotated_return_bind(node)` */
    method ProcessAnnotatedReturnBind(f: Stmt, top: Option<Stmt>) returns (g: Stmt)
      requires f.FunctionDef?
      modifies this`modified
      ensures g == f.(returnType := RewriteReturn(modelsMap, top, f.returnType))
      ensures modified == (old(modified) || ReturnBinds(f.returnType))
    {
      g := f;
      if f.returnType.None? {
        return;
      }
      var modelName := FindBindModelInAnnotation(f.returnType.value);
      if modelName.None? {
        return;
      }
      var hint := ResolveHintName(top, modelName.value);
      g := f.(returnType := Some(Name(hint)));
      modified := true;
    }

    /** `_process_node_recursive(node)` on a statement whose top parent class is `top`. */
    method ProcessNodeRecursive(node: Stmt, top: Option<Stmt>) returns (r: Stmt)
      modifies this`modified
      ensures r == RewriteStmt(modelsMap, top, node)
      ensures modified == (old(modified) || HasBind(node))
      decreases StmtSize(node), 0
    {
      if node.FunctionDef? {
        var g := ProcessAnnotatedParamBind(node, top);
        r := ProcessAnnotatedReturnBind(g, top);
      } else if node.ClassDef? {
        var outer := if top.Some? then top else Some(node);
        var body := ProcessBody(node.body, outer);
        r := ClassDef(node.name, node.bases, node.typeParams, body);
      } else {
        r := node;
      }
    }

    /** `_process_node_recursive` over each statement of a body. */
    method ProcessBody(body: seq<Stmt>, top: Option<Stmt>) returns (out: seq<Stmt>)
      modifies this`modified
      ensures |out| == |body| && forall k :: 0 <= k < |body| ==> out[k] == RewriteStmt(modelsMap, top, body[k])
      ensures modified == (old(modified) || exists k :: 0 <= k < |body| && HasBind(body[k]))
      decreases BodySize(body), 1
    {
      out := [];
      var i := 0;
      while i < |body|
        invariant 0 <= i <= |body|
        invariant |out| == i && forall k :: 0 <= k < i ==> out[k] == RewriteStmt(modelsMap, top, body[k])
        invariant modified == (old(modified) || exists k :: 0 <= k < i && HasBind(body[k]))
      {
        BodyMeasuresBound(body, i);
        var child := ProcessNodeRecursive(body[i], top);
        out := out + [child];
        i := i + 1;
      }
    }

    /** `_process_node_recursive(tree)` on the module. */
    method ProcessModule(tree: Module) returns (r: Module)
      modifies this`modified
      ensures r == RewriteModule(modelsMap, tree)
      ensures modified == (old(modified) || ModuleHasBind(tree))
    {
      r := ProcessBody(tree, None);
    }

    /** `_insert_imports(content)` */
    method InsertImports(content: string) returns (r: string)
      ensures r == WithImports(content, Values(modelsMap))
    {
      var values := Values(modelsMap);
      var used: Dict<seq<string>> := [];
      var i := 0;
      while i < |values|
        invariant 0 <= i <= |values|
        invariant used == UsedTypedDicts(values[..i], content)
      {
        assert values[..i + 1][..i] == values[..i];
        var typedDictName := values[i].0;
        var modulePath := values[i].1;
        if Contains(content, typedDictName) {
          used := Put(used, modulePath, AddName(GroupOf(used, modulePath), typedDictName));
        }
        i := i + 1;
      }
      assert values[..i] == values;
      if used == [] {
        return content;
      }
      var lines := SplitLines(content);
      var insertPos := 0;
      var j := 0;
      while j < |lines|
        invariant 0 <= j <= |lines|
        invariant insertPos == ImportEnd(lines[..j])
      {
        assert lines[..j + 1][..j] == lines[..j];
        if StartsWith(lines[j], "import") || StartsWith(lines[j], "from") {
          insertPos := j + 1;
        }
        j := j + 1;
      }
      assert lines[..j] == lines;
      var importLines: seq<string> := [];
      var g := 0;
      while g < |used|
        invariant 0 <= g <= |used|
        invariant importLines == ImportLines(used[..g])
      {
        assert used[..g + 1][..g] == used[..g];
        if used[g].key != "" {
          importLines := importLines + [ImportLine(used[g].key, used[g].value)];
        }
        g := g + 1;
      }
      assert used[..g] == used;
      if importLines == [] {
        return content;
      }
      return Join(lines[..insertPos] + importLines + [""] + lines[insertPos..], "\n");
    }

    /**
     * `run_rewrites(stubs_tree=..., models=...)`: nothing happens without
     * stubs or without a non-empty map; otherwise each stub is processed in
     * order and the files written are returned. A stub that does not parse
     * stops the run (`failed`).
     */
    method RunRewrites(stubsTree: seq<StubSource>, models: Option<ModelsMap>)
      returns (writes: seq<(string, string)>, failed: bool)
      modifies this`modelsMap, this`modified
      ensures stubsTree == [] || models.None? || models.value == [] ==>
                writes == [] && !failed && modelsMap == old(modelsMap) && modified == old(modified)
      ensures stubsTree != [] && models.Some? && models.value != [] ==>
                modelsMap == models.value && (writes, failed, modified) == RunOutcome(models.value, unparse, stubsTree, old(modified))
    {
      writes := [];
      failed := false;
      if stubsTree == [] || models.None? || models.value == [] {
        return;
      }
      modelsMap := models.value;
      var i := 0;
      while i < |stubsTree|
        invariant 0 <= i <= |stubsTree| && modelsMap == models.value
        invariant (writes, false, modified) == RunOutcome(modelsMap, unparse, stubsTree[..i], old(modified))
      {
        var stub := stubsTree[i];
        assert stubsTree[..i + 1][..i] == stubsTree[..i];
        if stub.isFile && !Contains(stub.path, "/api/controller") {
          if stub.tree.None? {
            failed := true;
            RunFailureSticks(modelsMap, unparse, stubsTree, i + 1, old(modified));
            return;
          }
          var tree := stub.tree.value;
          modified := false;
          var rewritten := ProcessModule(tree);
          if modified {
            var newContent := InsertImports(unparse(rewritten));
            writes := writes + [(stub.path, newContent)];
          }
        }
        i := i + 1;
      }
      assert stubsTree[..i] == stubsTree;
    }
  }

  /** A parse error ends the run: later stubs are not looked at. */
  lemma {:induction false} RunFailureSticks(models: ModelsMap, unparse: Module -> string, stubs: seq<StubSource>,
                                            n: nat, modified: bool)
    requires n <= |stubs| && RunOutcome(models, unparse, stubs[..n], modified).1
    ensures RunOutcome(models, unparse, stubs, modified) == RunOutcome(models, unparse, stubs[..n], modified)
    decreases |stubs| - n
  {
    if n < |stubs| {
      assert stubs[..n + 1][..n] == stubs[..n];
      RunFailureSticks(models, unparse, stubs, n + 1, modified);
    } else {
      assert stubs[..n] == stubs;
    }
  }
}
