/** Rendering the nodes of a template (stencil.py:148-251): text is copied,
    a variable is resolved and turned into text, a `for` renders its body
    once per item in a frame of its own, and an `if` renders its body when
    its condition holds. The output of a body goes to the output in order,
    so a render is the concatenation of the renders of its nodes. */
module Renderer {
  import opened Results
  import opened Text
  import opened Values
  import opened Scope
  import opened Resolver
  import opened Parser

  /** The text a render produced and the scope stack it left behind. */
  datatype Rendered = Rendered(out: string, stack: Stack)

  type Filters = map<string, Value -> Value>

  /** How many nodes a node holds, itself included: what shrinks as the
      render goes down into bodies. */
  function Size(n: Node): nat {
    match n
    case ForNode(_, _, body) => 1 + SizeAll(body)
    case IfNode(_, body) => 1 + SizeAll(body)
    case _ => 1
  }

  function SizeAll(ns: seq<Node>): nat {
    if |ns| == 0 then 0 else Size(ns[0]) + SizeAll(ns[1..])
  }

  /** Every node of a list is no bigger than the list. */
  lemma {:induction false} SizeAllBound(ns: seq<Node>, k: nat)
    requires k < |ns|
    ensures Size(ns[k]) <= SizeAll(ns)
    decreases k
  {
    if k > 0 {
      SizeAllBound(ns[1..], k - 1);
    }
  }

  /** The name a `for` binds to the index of the current item. */
  const LoopCounter: string := "loopcounter"

  /** `IfTag.test_condition`: a first word `not` (up to the first space,
      stripped) inverts the test and is removed, with the remainder stripped;
      the rest is resolved and its truth taken. `not` with nothing after a
      space is Python's IndexError. */
  function TestCondition(ctx: Context, cond: string): (r: Result<bool, EvalError>)
    ensures r.Err? && r.error.MissingCondition? ==> r.error.cond == cond && Strip(cond) == "not"
  {
    var (first, rest) := SplitFirst(cond, ' ');
    if Strip(first) == "not" then
      match rest
      case None => Err(MissingCondition(cond))
      case Some(e) =>
        (match Resolve(ctx, Strip(e))
         case Err(err) => Err(err)
         case Ok(v) => Ok(!Truthy(v)))
    else
      match Resolve(ctx, cond)
      case Err(err) => Err(err)
      case Ok(v) => Ok(Truthy(v))
  }

  /** `node.render(context)`, with the output it writes. */
  function RenderNode(fs: Filters, st: Stack, n: Node): (r: Result<Rendered, EvalError>)
    requires |st| > 0
    ensures r.Ok? ==> r.value.stack == st
    decreases Size(n), 0, 0
  {
    match n
    case TextNode(text) => Ok(Rendered(text, st))
    case VarNode(expr) =>
      (match Resolve(Context(st, fs), expr)
       case Err(e) => Err(e)
       case Ok(v) => Ok(Rendered(ToString(v), st)))
    case ForNode(arg, iterable, body) => RenderFor(fs, st, arg, iterable, body)
    case IfNode(cond, body) => RenderIf(fs, st, cond, body)
    case EndForNode(_) => Ok(Rendered("", st))
    case EndIfNode(_) => Ok(Rendered("", st))
  }

  /** `ForTag.render`: resolve the iterable, push a frame, run the loop in
      it, pop the frame. */
  function RenderFor(fs: Filters, st: Stack, arg: string, iterable: string, body: seq<Node>): (r: Result<Rendered, EvalError>)
    requires |st| > 0
    ensures r.Ok? ==> r.value.stack == st
    decreases SizeAll(body), 4, 0
  {
    match Resolve(Context(st, fs), iterable)
    case Err(e) => Err(e)
    case Ok(v) =>
      match Iterate(v)
      case None => Err(NotIterable(iterable))
      case Some(items) =>
        match RenderLoop(fs, Push(st, map[]), arg, body, items, 0)
        case Err(e) => Err(e)
        case Ok(res) => Ok(Rendered(res.out, Pop(res.stack)))
  }

  /** `IfTag.render`: the body when the condition tests true, else nothing. */
  function RenderIf(fs: Filters, st: Stack, cond: string, body: seq<Node>): (r: Result<Rendered, EvalError>)
    requires |st| > 0
    ensures r.Ok? ==> r.value.stack == st
    decreases SizeAll(body), 4, 0
  {
    match TestCondition(Context(st, fs), cond)
    case Err(e) => Err(e)
    case Ok(b) => if b then RenderNodes(fs, st, body) else Ok(Rendered("", st))
  }

  /** `Nodelist.render`: the nodes in order, the first failure stopping
      everything. */
  function RenderNodes(fs: Filters, st: Stack, ns: seq<Node>): (r: Result<Rendered, EvalError>)
    requires |st| > 0
    ensures r.Ok? ==> r.value.stack == st
    decreases SizeAll(ns), 2, 0
  {
    RenderFrom(fs, st, ns, 0)
  }

  /** The nodes of `ns` from index `k` on. */
  function RenderFrom(fs: Filters, st: Stack, ns: seq<Node>, k: nat): (r: Result<Rendered, EvalError>)
    requires |st| > 0 && k <= |ns|
    ensures r.Ok? ==> r.value.stack == st
    decreases SizeAll(ns), 1, |ns| - k
  {
    if k == |ns| then Ok(Rendered("", st))
    else
      SizeAllBound(ns, k);
      match RenderNode(fs, st, ns[k])
      case Err(e) => Err(e)
      case Ok(first) =>
        match RenderFrom(fs, st, ns, k + 1)
        case Err(e) => Err(e)
        case Ok(rest) => Ok(Rendered(first.out + rest.out, st))
  }

  /** The loop of `ForTag.render` from item `i` on, in the frame the loop
      pushed: each item assigns the counter and then the loop variable into
      that frame, and the body renders against it. The frame may hold the
      bindings of the item before; the outer frames never change. */
  function RenderLoop(fs: Filters, st: Stack, arg: string, body: seq<Node>, items: seq<Value>, i: nat): (r: Result<Rendered, EvalError>)
    requires |st| > 0 && i <= |items|
    ensures r.Ok? ==> |r.value.stack| == |st| && r.value.stack[1..] == st[1..]
    ensures r.Ok? && LoopFrameKeys(st[0], arg) ==> LoopFrameKeys(r.value.stack[0], arg)
    decreases SizeAll(body), 3, |items| - i
  {
    if i == |items| then Ok(Rendered("", st))
    else
      var bound := Assign(Assign(st, LoopCounter, IntVal(i)), arg, items[i]);
      match RenderNodes(fs, bound, body)
      case Err(e) => Err(e)
      case Ok(first) =>
        match RenderLoop(fs, first.stack, arg, body, items, i + 1)
        case Err(e) => Err(e)
        case Ok(rest) => Ok(Rendered(first.out + rest.out, rest.stack))
  }

  /** A frame binding at most the loop counter and the loop variable. */
  predicate LoopFrameKeys(frame: Frame, arg: string) {
    forall k :: k in frame ==> k == LoopCounter || k == arg
  }

  /** The frame iteration `i` sees: the counter, then the loop variable
      (which wins when it is itself called `loopcounter`). */
  function LoopFrame(arg: string, i: nat, item: Value): Frame {
    map[LoopCounter := IntVal(i)][arg := item]
  }

  /** A reference reading of the loop: every item renders the body in a
      fresh frame of its own pushed on the stack before the loop. */
  function EachItem(fs: Filters, st: Stack, arg: string, body: seq<Node>, items: seq<Value>, i: nat): Result<string, EvalError>
    requires |st| > 0 && i <= |items|
    decreases |items| - i
  {
    if i == |items| then Ok("")
    else
      match RenderNodes(fs, Push(st, LoopFrame(arg, i, items[i])), body)
      case Err(e) => Err(e)
      case Ok(first) =>
        match EachItem(fs, st, arg, body, items, i + 1)
        case Err(e) => Err(e)
        case Ok(rest) => Ok(first.out + rest)
  }

  /** Assigning the counter and the loop variable into a frame that binds
      nothing else gives the fresh frame of that iteration. */
  lemma AssignLoopFrame(st: Stack, arg: string, i: nat, item: Value)
    requires |st| > 0 && LoopFrameKeys(st[0], arg)
    ensures Assign(Assign(st, LoopCounter, IntVal(i)), arg, item) == Push(st[1..], LoopFrame(arg, i, item))
  {
    var bound := Assign(Assign(st, LoopCounter, IntVal(i)), arg, item);
    assert bound[0] == LoopFrame(arg, i, item);
    assert bound == [bound[0]] + bound[1..];
  }

  /** Reusing the loop's frame across items renders the same as giving every
      item a fresh frame. */
  lemma {:induction false} RenderLoopIsEachItem(fs: Filters, st: Stack, arg: string, body: seq<Node>, items: seq<Value>, i: nat)
    requires |st| > 1 && i <= |items| && LoopFrameKeys(st[0], arg)
    ensures RenderLoop(fs, st, arg, body, items, i).Ok? <==> EachItem(fs, st[1..], arg, body, items, i).Ok?
    ensures RenderLoop(fs, st, arg, body, items, i).Ok? ==>
              RenderLoop(fs, st, arg, body, items, i).value.out == EachItem(fs, st[1..], arg, body, items, i).value
    ensures RenderLoop(fs, st, arg, body, items, i).Err? ==>
              RenderLoop(fs, st, arg, body, items, i).error == EachItem(fs, st[1..], arg, body, items, i).error
    decreases |items| - i
  {
    if i < |items| {
      AssignLoopFrame(st, arg, i, items[i]);
      var bound := Push(st[1..], LoopFrame(arg, i, items[i]));
      assert bound[1..] == st[1..];
      match RenderNodes(fs, bound, body) {
        case Err(e) =>
        case Ok(first) =>
          assert LoopFrameKeys(first.stack[0], arg);
          RenderLoopIsEachItem(fs, first.stack, arg, body, items, i + 1);
      }
    }
  }

  /** `ForTag.render` is the body rendered once per item, item `i` in a
      frame binding `loopcounter` to `i` and the loop variable to the item,
      pushed on the stack as it was before the loop; afterwards the stack is
      as before, so the loop variable and counter are gone and an outer
      variable of the same name reads as it did. */
  lemma ForRendersEachItem(fs: Filters, st: Stack, arg: string, iterable: string, body: seq<Node>)
    requires |st| > 0
    ensures var r := RenderNode(fs, st, ForNode(arg, iterable, body));
            match Resolve(Context(st, fs), iterable)
            case Err(e) => r == Err(e)
            case Ok(v) =>
              match Iterate(v)
              case None => r == Err(NotIterable(iterable))
              case Some(items) =>
                match EachItem(fs, st, arg, body, items, 0)
                case Err(e) => r == Err(e)
                case Ok(out) => r == Ok(Rendered(out, st))
  {
    var pushed := Push(st, map[]);
    assert pushed[1..] == st;
    assert RenderNode(fs, st, ForNode(arg, iterable, body)) == RenderFor(fs, st, arg, iterable, body);
    match Resolve(Context(st, fs), iterable) {
      case Err(e) =>
      case Ok(v) =>
        match Iterate(v) {
          case None =>
          case Some(items) =>
            RenderLoopIsEachItem(fs, pushed, arg, body, items, 0);
            match RenderLoop(fs, pushed, arg, body, items, 0) {
              case Err(e) =>
              case Ok(res) => assert Pop(res.stack) == st;
            }
        }
    }
  }

  /** A `for` over an empty iterable renders nothing and leaves the stack
      alone. */
  lemma EmptyLoopRendersNothing(fs: Filters, st: Stack, arg: string, iterable: string, body: seq<Node>)
    requires |st| > 0
    requires Resolve(Context(st, fs), iterable).Ok?
    requires Iterate(Resolve(Context(st, fs), iterable).value) == Some([])
    ensures RenderNode(fs, st, ForNode(arg, iterable, body)) == Ok(Rendered("", st))
  {
    ForRendersEachItem(fs, st, arg, iterable, body);
  }

  /** Rendering from an index of a concatenation past its first part is
      rendering the second part from the matching index. */
  lemma {:induction false} RenderFromShift(fs: Filters, st: Stack, a: seq<Node>, b: seq<Node>, j: nat)
    requires |st| > 0 && j <= |b|
    ensures RenderFrom(fs, st, a + b, |a| + j) == RenderFrom(fs, st, b, j)
    decreases |b| - j
  {
    if j < |b| {
      assert (a + b)[|a| + j] == b[j];
      RenderFromShift(fs, st, a, b, j + 1);
    }
  }

  /** Rendering a concatenation from an index in its first part renders the
      rest of the first part, then the second part. */
  lemma {:induction false} RenderFromAppend(fs: Filters, st: Stack, a: seq<Node>, b: seq<Node>, k: nat)
    requires |st| > 0 && k <= |a|
    ensures RenderFrom(fs, st, a, k).Err? ==> RenderFrom(fs, st, a + b, k) == RenderFrom(fs, st, a, k)
    ensures RenderFrom(fs, st, a, k).Ok? ==>
              RenderFrom(fs, st, a + b, k) ==
                match RenderNodes(fs, st, b)
                case Err(e) => Err(e)
                case Ok(rb) => Ok(Rendered(RenderFrom(fs, st, a, k).value.out + rb.out, st))
    decreases |a| - k
  {
    if k == |a| {
      RenderFromShift(fs, st, a, b, 0);
      match RenderNodes(fs, st, b) {
        case Err(e) =>
        case Ok(rb) => assert "" + rb.out == rb.out;
      }
    } else {
      assert (a + b)[k] == a[k];
      RenderFromAppend(fs, st, a, b, k + 1);
      match RenderNode(fs, st, a[k]) {
        case Err(e) =>
        case Ok(first) =>
          match RenderFrom(fs, st, a, k + 1) {
            case Err(e) =>
            case Ok(ra) =>
              match RenderNodes(fs, st, b) {
                case Err(e) =>
                case Ok(rb) =>
                  assert first.out + (ra.out + rb.out) == (first.out + ra.out) + rb.out;
              }
          }
      }
    }
  }

  /** A list of nodes renders as its two halves, one after the other; a
      failure in the first half stops the render before the second. */
  lemma RenderNodesAppend(fs: Filters, st: Stack, a: seq<Node>, b: seq<Node>)
    requires |st| > 0
    ensures RenderNodes(fs, st, a).Err? ==> RenderNodes(fs, st, a + b) == RenderNodes(fs, st, a)
    ensures RenderNodes(fs, st, a).Ok? ==>
              RenderNodes(fs, st, a + b) ==
                match RenderNodes(fs, st, b)
                case Err(e) => Err(e)
                case Ok(rb) => Ok(Rendered(RenderNodes(fs, st, a).value.out + rb.out, st))
  {
    RenderFromAppend(fs, st, a, b, 0);
  }

  /** An `if` renders its body exactly when its condition tests true, and
      nothing when it tests false. */
  lemma IfRendersBodyIff(fs: Filters, st: Stack, cond: string, body: seq<Node>, holds: bool)
    requires |st| > 0
    requires TestCondition(Context(st, fs), cond) == Ok(holds)
    ensures RenderNode(fs, st, IfNode(cond, body)) == if holds then RenderNodes(fs, st, body) else Ok(Rendered("", st))
  {
    assert RenderNode(fs, st, IfNode(cond, body)) == RenderIf(fs, st, cond, body);
  }

  /** A condition that cannot be evaluated stops the render with its error. */
  lemma IfConditionFails(fs: Filters, st: Stack, cond: string, body: seq<Node>)
    requires |st| > 0
    requires TestCondition(Context(st, fs), cond).Err?
    ensures RenderNode(fs, st, IfNode(cond, body)) == Err(TestCondition(Context(st, fs), cond).error)
  {
    assert RenderNode(fs, st, IfNode(cond, body)) == RenderIf(fs, st, cond, body);
  }

  /** Without a leading `not`, the condition is the truth of the resolved
      expression. */
  lemma PlainCondition(ctx: Context, cond: string)
    requires ' ' !in cond && Strip(cond) != "not"
    ensures TestCondition(ctx, cond) ==
              match Resolve(ctx, cond)
              case Err(e) => Err(e)
              case Ok(v) => Ok(Truthy(v))
  {
    SplitFirstAbsent(cond, ' ');
  }

  /** A leading `not` and a space invert the truth of what follows,
      stripped. */
  lemma NotCondition(ctx: Context, e: string)
    ensures TestCondition(ctx, "not " + e) ==
              match Resolve(ctx, Strip(e))
              case Err(err) => Err(err)
              case Ok(v) => Ok(!Truthy(v))
  {
    assert "not " + e == "not" + [' '] + e;
    SplitFirstAt("not", e, ' ');
    assert Strip("not") == "not" by { StripUnchanged("not"); }
  }

  /** `not e` tests the opposite of `e`. */
  lemma NotInverts(ctx: Context, e: string)
    requires ' ' !in e && Strip(e) == e && e != "not"
    ensures TestCondition(ctx, "not " + e).Ok? <==> TestCondition(ctx, e).Ok?
    ensures TestCondition(ctx, "not " + e).Ok? ==> TestCondition(ctx, "not " + e).value == !TestCondition(ctx, e).value
    ensures TestCondition(ctx, "not " + e).Err? ==> TestCondition(ctx, "not " + e) == TestCondition(ctx, e)
  {
    NotCondition(ctx, e);
    PlainCondition(ctx, e);
  }

  /** A bare `not` has nothing to test. */
  lemma BareNotFails(ctx: Context)
    ensures TestCondition(ctx, "not") == Err(MissingCondition("not"))
  {
    assert SplitFirst("not", ' ') == ("not", None);
  }

  /** A name without dots or filters resolves to what the scope stack binds
      it to, invoked when callable, and to None when nothing binds it. */
  lemma PlainName(ctx: Context, name: string)
    requires '|' !in name && '.' !in name
    ensures Resolve(ctx, name) == Ok(match Lookup(ctx.stack, name) case None => NoneVal case Some(v) => Invoke(v))
  {
    NoFilters(ctx, name);
    SplitNoSeparator(name, '.');
    match Lookup(ctx.stack, name) {
      case None =>
      case Some(v) => assert Walk(Invoke(v), []) == Some(Invoke(v));
    }
  }

  /** Inside iteration `i` the loop variable reads as the item and, unless
      it shadows it, `loopcounter` reads as `i`. */
  lemma LoopFrameLookup(st: Stack, arg: string, i: nat, item: Value)
    ensures Lookup(Push(st, LoopFrame(arg, i, item)), arg) == Some(item)
    ensures arg != LoopCounter ==> Lookup(Push(st, LoopFrame(arg, i, item)), LoopCounter) == Some(IntVal(i))
  {
    LookupPush(st, LoopFrame(arg, i, item), arg);
    LookupPush(st, LoopFrame(arg, i, item), LoopCounter);
  }

  /** A variable naming a bound value renders as that value's text. */
  lemma VarRenders(fs: Filters, st: Stack, name: string, v: Value)
    requires |st| > 0 && '|' !in name && '.' !in name && Lookup(st, name) == Some(v)
    ensures RenderNode(fs, st, VarNode(name)) == Ok(Rendered(ToString(Invoke(v)), st))
  {
    PlainName(Context(st, fs), name);
  }

  /** One step of a list: the node at `k`, then the nodes after it. */
  lemma RenderFromStep(fs: Filters, st: Stack, ns: seq<Node>, k: nat, first: string, rest: string)
    requires |st| > 0 && k < |ns|
    requires RenderNode(fs, st, ns[k]) == Ok(Rendered(first, st))
    requires RenderFrom(fs, st, ns, k + 1) == Ok(Rendered(rest, st))
    ensures RenderFrom(fs, st, ns, k) == Ok(Rendered(first + rest, st))
  {
  }

  /** After a `for`, the loop variable and the counter read as they did
      before it: unbound when they were, and the outer value otherwise. */
  lemma ForLeavesScope(fs: Filters, st: Stack, arg: string, iterable: string, body: seq<Node>, key: string)
    requires |st| > 0 && RenderNode(fs, st, ForNode(arg, iterable, body)).Ok?
    ensures Lookup(RenderNode(fs, st, ForNode(arg, iterable, body)).value.stack, key) == Lookup(st, key)
  {
  }
}
