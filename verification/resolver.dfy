/** `Context.resolve` (stencil.py:95-109): an expression is a dotted path
    followed by `|`-separated filter names. The path is looked up in the scope
    stack, then each filter is applied in turn, left to right. */
module Resolver {
  import opened Results
  import opened Text
  import opened Values
  import opened Scope

  /** What stops a render. */
  datatype EvalError =
    | UnknownFilter(name: string, expr: string)  // the SyntaxError of stencil.py:106
    | NotIterable(expr: string)                  // `enumerate` of a non-iterable
    | MissingCondition(cond: string)             // `{% if not %}`: nothing after `not`

  /** The scope stack and the filter functions a render runs against. */
  datatype Context = Context(stack: Stack, filters: map<string, Value -> Value>)

  /** `Context(data, filters)`: one frame holding the data. */
  function NewContext(data: Frame, filters: map<string, Value -> Value>): (ctx: Context)
    ensures ctx.stack == [data] && ctx.filters == filters
  {
    Context(Push([], data), filters)
  }

  /** `digattr(context, path)`: the first step reads the scope stack, the rest
      are ordinary steps; any miss gives None. */
  function LookupPath(st: Stack, path: string): Value {
    var steps := Split(path, '.');
    match Lookup(st, steps[0])
    case None => NoneVal
    case Some(v) => Walk(Invoke(v), steps[1..]).GetOr(NoneVal)
  }

  /** The stack seen as one mapping: `LookupPath` is `digattr` on an object
      whose keys are the flattened frames and which has no attributes. */
  lemma LookupPathIsDigAttr(st: Stack, path: string)
    ensures LookupPath(st, path) == DigAttr(ObjVal(map[], Merge(st)), path, NoneVal)
  {
    var steps := Split(path, '.');
    var root := ObjVal(map[], Merge(st));
    LookupMerge(st, steps[0]);
    assert steps == [steps[0]] + steps[1..];
    WalkAppend(root, [steps[0]], steps[1..]);
    match Step(root, steps[0])
    case None =>
    case Some(v) => assert Walk(root, [steps[0]]) == Walk(v, []);
  }

  /** The filters named in `names`, applied one after another to `v`; the
      first name that is not a known filter stops everything. */
  function ApplyFilters(fs: map<string, Value -> Value>, v: Value, names: seq<string>, expr: string): (r: Result<Value, EvalError>)
    ensures r.Err? <==> exists i :: 0 <= i < |names| && names[i] !in fs
    ensures r.Err? ==> exists i :: 0 <= i < |names| && r.error == UnknownFilter(names[i], expr)
                                    && names[i] !in fs && forall j :: 0 <= j < i ==> names[j] in fs
    decreases |names|
  {
    if |names| == 0 then Ok(v)
    else if names[0] !in fs then
      Err(UnknownFilter(names[0], expr))
    else
      var r := ApplyFilters(fs, fs[names[0]](v), names[1..], expr);
      assert forall i :: 1 <= i < |names| ==> names[i] == names[1..][i - 1];
      if r.Err? then
        var i :| 0 <= i < |names[1..]| && r.error == UnknownFilter(names[1..][i], expr)
                 && names[1..][i] !in fs && forall j :: 0 <= j < i ==> names[1..][j] in fs;
        assert forall j :: 0 <= j < i + 1 ==> names[j] in fs;
        r
      else r
  }

  /** The composition of the filters, built from the last one inwards:
      `g(f(v))` for the names `f, g`. */
  function Compose(fs: map<string, Value -> Value>, v: Value, names: seq<string>): Value
    requires forall i :: 0 <= i < |names| ==> names[i] in fs
    decreases |names|
  {
    if |names| == 0 then v else fs[names[|names| - 1]](Compose(fs, v, names[..|names| - 1]))
  }

  /** Applying filters left to right is composing them: the first name is
      innermost. */
  lemma {:induction false} ApplyFiltersComposes(fs: map<string, Value -> Value>, v: Value, names: seq<string>, expr: string)
    requires forall i :: 0 <= i < |names| ==> names[i] in fs
    ensures ApplyFilters(fs, v, names, expr) == Ok(Compose(fs, v, names))
    decreases |names|
  {
    if |names| > 0 {
      var w := fs[names[0]](v);
      ApplyFiltersComposes(fs, w, names[1..], expr);
      ComposeFirst(fs, v, names);
    }
  }

  /** Peeling the first filter off a composition. */
  lemma {:induction false} ComposeFirst(fs: map<string, Value -> Value>, v: Value, names: seq<string>)
    requires |names| > 0 && forall i :: 0 <= i < |names| ==> names[i] in fs
    ensures Compose(fs, v, names) == Compose(fs, fs[names[0]](v), names[1..])
    decreases |names|
  {
    if |names| > 1 {
      var init := names[..|names| - 1];
      ComposeFirst(fs, v, init);
      assert init[1..] == names[1..][..|names[1..]| - 1];
      assert init[0] == names[0];
    } else {
      assert names[..0] == [];
    }
  }

  /** `context.resolve(expr)`: split at `|` (the parts are not stripped), look
      the first part up, then apply the filters. */
  function Resolve(ctx: Context, expr: string): Result<Value, EvalError> {
    var parts := Split(expr, '|');
    ApplyFilters(ctx.filters, LookupPath(ctx.stack, parts[0]), parts[1..], expr)
  }

  /** `a|f|g` resolves to `g(f(a))` when both filters exist, and to the
      unknown-filter error naming `f` when `f` does not. */
  lemma FilterOrder(ctx: Context, path: string, f: string, g: string)
    requires '|' !in path && '|' !in f && '|' !in g
    ensures f in ctx.filters && g in ctx.filters ==>
              Resolve(ctx, path + "|" + f + "|" + g) == Ok(ctx.filters[g](ctx.filters[f](LookupPath(ctx.stack, path))))
    ensures f !in ctx.filters ==>
              Resolve(ctx, path + "|" + f + "|" + g) == Err(UnknownFilter(f, path + "|" + f + "|" + g))
  {
    var expr := path + "|" + f + "|" + g;
    var names := [f, g];
    assert names[1..] == [g] && names[1..][1..] == [];
    assert Join([g], '|') == g;
    assert Join(names, '|') == f + "|" + g;
    assert Join([path, f, g], '|') == path + "|" + Join(names, '|') by {
      assert [path, f, g][1..] == names;
    }
    assert expr == path + "|" + (f + "|" + g);
    SplitJoin([path, f, g], '|');
    assert Split(expr, '|')[1..] == names;
    var v := LookupPath(ctx.stack, path);
    if f in ctx.filters {
      assert ApplyFilters(ctx.filters, v, names, expr) == ApplyFilters(ctx.filters, ctx.filters[f](v), [g], expr);
    }
  }

  /** An expression without filters is a plain lookup. */
  lemma NoFilters(ctx: Context, path: string)
    requires '|' !in path
    ensures Resolve(ctx, path) == Ok(LookupPath(ctx.stack, path))
  {
    SplitNoSeparator(path, '|');
  }
}
