/**
 * The shared base of the stub transformers: docstring re-indentation for
 * synthesized method bodies, and the per-class singleton behind `apply`.
 */
module StubTransformerBase {
  import opened Wrappers
  import opened Text

  function IndentLines(lines: seq<string>, indent: nat): seq<string> {
    seq(|lines|, k requires 0 <= k < |lines| => Spaces(indent) + lines[k])
  }

  /**
   * `StubTransformer._indent_docstring(docstring, indent)`: keep the first
   * line, prefix every later line with `indent` blanks. `None` is a missing
   * `__doc__`.
   */
  function IndentDocstring(doc: Option<string>, indent: nat): (r: string)
    ensures doc.None? || doc == Some("") ==> r == ""
  {
    if doc.None? || doc.value == "" then ""
    else
      var lines := SplitLines(doc.value);
      Join([lines[0]] + IndentLines(lines[1..], indent), "\n")
  }

  /**
   * Read back line by line, the result has one line per input line: the
   * first unchanged, every later one behind exactly `indent` blanks.
   */
  lemma IndentDocstringLines(doc: string, indent: nat)
    requires doc != ""
    ensures var lines := SplitLines(doc);
            var out := Split(IndentDocstring(Some(doc), indent), '\n');
            |out| == |lines| && out[0] == lines[0]
            && forall k :: 1 <= k < |lines| ==> out[k] == Spaces(indent) + lines[k]
  {
    var lines := SplitLines(doc);
    var parts := [lines[0]] + IndentLines(lines[1..], indent);
    forall k | 0 <= k < |parts| ensures '\n' !in parts[k] {
      if k == 0 {
        assert NoLineBreak(lines[0]);
      } else {
        assert parts[k] == Spaces(indent) + lines[k];
        assert NoLineBreak(lines[k]);
        forall j | 0 <= j < |parts[k]| ensures parts[k][j] != '\n' {
          if j >= indent {
            assert parts[k][j] == lines[k][j - indent];
          }
        }
      }
    }
    SplitJoin(parts, '\n');
  }

  /**
   * The older helper with the indentation fixed at twelve blanks, written
   * out as it is in the earlier rewriter.
   */
  function LegacyIndentDocstring(doc: Option<string>): (r: string)
    ensures r == IndentDocstring(doc, 12)
  {
    if doc.None? || doc.value == "" then ""
    else
      var lines := SplitLines(doc.value);
      var later := seq(|lines| - 1, k requires 0 <= k < |lines| - 1 => Spaces(12) + lines[k + 1]);
      assert later == IndentLines(lines[1..], 12);
      Join([lines[0]] + later, "\n")
  }

  /** One transformer object; `kind` is its class. */
  class TransformerInstance {
    const kind: string

    constructor (kind: string)
      ensures this.kind == kind
    {
      this.kind := kind;
    }
  }

  /** The `_instance` class variables of every `StubTransformer` subclass, keyed by class. */
  class InstanceRegistry {
    var instances: map<string, TransformerInstance>

    ghost predicate Valid()
      reads this
    {
      forall k :: k in instances ==> instances[k].kind == k
    }

    constructor ()
      ensures Valid() && instances == map[]
    {
      instances := map[];
    }

    /** `cls.apply(...)`: build the instance on first use and hand back the same one ever after. */
    method Apply(kind: string) returns (t: TransformerInstance)
      requires Valid()
      modifies this
      ensures Valid() && t.kind == kind
      ensures kind in old(instances) ==> t == old(instances)[kind] && instances == old(instances)
      ensures kind !in old(instances) ==> fresh(t) && instances == old(instances)[kind := t]
    {
      if kind in instances {
        t := instances[kind];
      } else {
        t := new TransformerInstance(kind);
        instances := instances[kind := t];
      }
    }
  }

  /** Two calls for the same class yield one object; a call for another class does not disturb it. */
  method ApplyReusesInstances()
  {
    var registry := new InstanceRegistry();
    var first := registry.Apply("RequestMakerRewriter");
    var other := registry.Apply("BindModelTypeTransformer");
    var second := registry.Apply("RequestMakerRewriter");
    assert first == second && other != first;
  }
}
