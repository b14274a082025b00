/** The scope stack of `Context` (stencil.py:74-93): a sequence of frames,
    innermost first. `push` adds a frame in front, `pop` removes it, reading a
    name looks through the frames from the innermost out, and assigning a name
    writes the innermost frame only. */
module Scope {
  import opened Results
  import opened Values

  type Frame = map<string, Value>

  /** Frames innermost first, as `Context._stack` keeps them. */
  type Stack = seq<Frame>

  /** `push(**kwargs)`: the new frame becomes the innermost. */
  function Push(st: Stack, frame: Frame): (r: Stack)
    ensures |r| == |st| + 1 && r[0] == frame && r[1..] == st
  {
    [frame] + st
  }

  /** `pop()`: the innermost frame goes. Python raises IndexError on an empty
      stack; a context always holds the frame it was built with. */
  function Pop(st: Stack): (r: Stack)
    requires |st| > 0
    ensures |r| == |st| - 1
    ensures forall i :: 0 <= i < |r| ==> r[i] == st[i + 1]
  {
    st[1..]
  }

  /** `context[key]`: the value in the innermost frame that has `key`, or
      nothing (the KeyError case) when no frame has it. */
  function Lookup(st: Stack, key: string): (r: Option<Value>)
    ensures r.None? <==> forall i :: 0 <= i < |st| ==> key !in st[i]
    ensures forall i :: 0 <= i < |st| && key in st[i] && (forall j :: 0 <= j < i ==> key !in st[j]) ==>
              r == Some(st[i][key])
    decreases |st|
  {
    if |st| == 0 then None
    else if key in st[0] then Some(st[0][key])
    else
      assert forall i :: 1 <= i < |st| ==> st[i] == st[1..][i - 1];
      Lookup(st[1..], key)
  }

  /** `context[key] = value`: written into the innermost frame only. */
  function Assign(st: Stack, key: string, value: Value): (r: Stack)
    requires |st| > 0
    ensures |r| == |st| && r[1..] == st[1..]
    ensures key in r[0] && r[0][key] == value
    ensures forall k :: k != key ==> (k in r[0] <==> k in st[0]) && (k in st[0] ==> r[0][k] == st[0][k])
  {
    st[0 := st[0][key := value]]
  }

  /** The frames flattened into one mapping, the innermost binding of each
      name winning: what the stack looks like from a template. */
  function Merge(st: Stack): Frame
    decreases |st|
  {
    if |st| == 0 then map[] else Merge(st[1..]) + st[0]
  }

  /** Looking a name up through the frames agrees with looking it up in the
      flattened mapping. */
  lemma {:induction false} LookupMerge(st: Stack, key: string)
    ensures Lookup(st, key) == if key in Merge(st) then Some(Merge(st)[key]) else None
    decreases |st|
  {
    if |st| > 0 && key !in st[0] {
      LookupMerge(st[1..], key);
    }
  }

  /** Popping what was pushed gives the stack back. */
  lemma PushPop(st: Stack, frame: Frame)
    ensures Pop(Push(st, frame)) == st
  {
  }

  /** A pushed frame shadows the outer frames for the names it binds and is
      transparent for the others. */
  lemma LookupPush(st: Stack, frame: Frame, key: string)
    ensures Lookup(Push(st, frame), key) == if key in frame then Some(frame[key]) else Lookup(st, key)
  {
    assert Push(st, frame)[1..] == st;
  }

  /** After an assignment the name reads back as the assigned value, and
      every other name reads as before. */
  lemma LookupAssign(st: Stack, key: string, value: Value, other: string)
    requires |st| > 0
    ensures Lookup(Assign(st, key, value), key) == Some(value)
    ensures other != key ==> Lookup(Assign(st, key, value), other) == Lookup(st, other)
  {
    var r := Assign(st, key, value);
    if other != key && other !in st[0] {
      assert Lookup(r, other) == Lookup(r[1..], other);
    }
  }

  /** An assignment inside a pushed frame is gone once the frame is popped:
      the outer binding of the same name, if any, reads as before. */
  lemma AssignInPushedFrame(st: Stack, frame: Frame, key: string, value: Value)
    ensures Pop(Assign(Push(st, frame), key, value)) == st
  {
  }
}
