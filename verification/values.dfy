/** The values a template sees and the dotted lookup `digattr`
    (stencil.py:23-38): each step of `a.b.c` tries a mapping key, then an
    attribute, then an integer index; a callable result is called with no
    arguments; the first step that finds nothing makes the whole lookup return
    the default. */
module Values {
  import opened Results
  import opened Text
  import opened Numerals

  /** The Python values a template is rendered against. A dictionary keeps its
      entries in iteration order, with string keys. An object has named
      attributes and may also answer `obj[key]` for some string keys. A
      callable is the value it returns when called with no arguments. */
  datatype Value =
    | NoneVal
    | BoolVal(b: bool)
    | IntVal(i: int)
    | StrVal(s: string)
    | ListVal(items: seq<Value>)
    | DictVal(entries: seq<(string, Value)>)
    | ObjVal(attrs: map<string, Value>, keyed: map<string, Value>)
    | ThunkVal(result: Value)

  /** The index of the first dictionary entry with key `key`. */
  function EntryIndex(entries: seq<(string, Value)>, key: string): (r: Option<nat>)
    ensures r.Some? ==> r.value < |entries| && entries[r.value].0 == key
    ensures r.Some? ==> forall j :: 0 <= j < r.value ==> entries[j].0 != key
    ensures r.None? ==> forall j :: 0 <= j < |entries| ==> entries[j].0 != key
  {
    if |entries| == 0 then None
    else if entries[0].0 == key then Some(0)
    else match EntryIndex(entries[1..], key)
      case Some(j) => Some(j + 1)
      case None => None
  }

  /** `obj[key]` with a string key: a dictionary entry or an object's keyed
      item. Lists and strings reject a string index, the other values are not
      subscriptable. */
  function ItemLookup(obj: Value, key: string): (r: Option<Value>)
    ensures obj.DictVal? ==> (r.Some? <==> exists j :: 0 <= j < |obj.entries| && obj.entries[j].0 == key)
    ensures obj.DictVal? && r.Some? ==>
              EntryIndex(obj.entries, key).Some? && r.value == obj.entries[EntryIndex(obj.entries, key).value].1
    ensures obj.ObjVal? ==> (r.Some? <==> key in obj.keyed) && (r.Some? ==> r.value == obj.keyed[key])
    ensures !obj.DictVal? && !obj.ObjVal? ==> r.None?
  {
    match obj
    case DictVal(entries) =>
      (match EntryIndex(entries, key)
       case Some(j) => Some(entries[j].1)
       case None => None)
    case ObjVal(_, keyed) => if key in keyed then Some(keyed[key]) else None
    case _ => None
  }

  /** `getattr(obj, name)`: only objects carry attributes in this model.
      A name that is not ASCII is a miss here; Python 2 raises
      UnicodeEncodeError for it instead. */
  function AttrLookup(obj: Value, name: string): (r: Option<Value>)
    ensures r.Some? <==> obj.ObjVal? && name in obj.attrs
    ensures r.Some? ==> r.value == obj.attrs[name]
  {
    if obj.ObjVal? && name in obj.attrs then Some(obj.attrs[name]) else None
  }

  /** Python's `seq[i]` for a sequence of length `n`: a negative index counts
      from the end; out of range is the IndexError case. */
  function PyIndex(n: nat, i: int): (r: Option<nat>)
    ensures r.Some? <==> -(n as int) <= i < n
    ensures r.Some? ==> r.value < n && (r.value as int == i || r.value as int == i + n)
  {
    if 0 <= i < n then Some(i) else if -(n as int) <= i < 0 then Some(i + n) else None
  }

  /** `obj[int(step)]`: the step must read as an integer, and `obj` must be a
      list or a string with that index in range. Dictionaries and objects of
      this model have only string keys, so an integer finds nothing there. */
  function IndexLookup(obj: Value, step: string): (r: Option<Value>)
    ensures r.Some? ==> ParseInt(step).Some? && (obj.ListVal? || obj.StrVal?)
    ensures obj.ListVal? && ParseInt(step).Some? ==>
              (r.Some? <==> PyIndex(|obj.items|, ParseInt(step).value).Some?)
    ensures obj.ListVal? && r.Some? ==> r.value == obj.items[PyIndex(|obj.items|, ParseInt(step).value).value]
    ensures obj.StrVal? && ParseInt(step).Some? ==>
              (r.Some? <==> PyIndex(|obj.s|, ParseInt(step).value).Some?)
    ensures obj.StrVal? && r.Some? ==> r.value == StrVal([obj.s[PyIndex(|obj.s|, ParseInt(step).value).value]])
  {
    match ParseInt(step)
    case None => None
    case Some(i) =>
      match obj
      case ListVal(items) =>
        (match PyIndex(|items|, i)
         case Some(j) => Some(items[j])
         case None => None)
      case StrVal(s) =>
        (match PyIndex(|s|, i)
         case Some(j) => Some(StrVal([s[j]]))
         case None => None)
      case _ => None
  }

  /** `if callable(obj): obj = obj()`: a callable is called once. */
  function Invoke(v: Value): (r: Value)
    ensures v.ThunkVal? ==> r == v.result
    ensures !v.ThunkVal? ==> r == v
  {
    if v.ThunkVal? then v.result else v
  }

  /** One step of `digattr`: the three access modes in order, the first that
      finds something wins, and its result is called if it is callable. */
  function Step(obj: Value, step: string): (r: Option<Value>)
    ensures r.Some? <==> ItemLookup(obj, step).Some? || AttrLookup(obj, step).Some? || IndexLookup(obj, step).Some?
    ensures ItemLookup(obj, step).Some? ==> r == Some(Invoke(ItemLookup(obj, step).value))
    ensures ItemLookup(obj, step).None? && AttrLookup(obj, step).Some? ==> r == Some(Invoke(AttrLookup(obj, step).value))
    ensures ItemLookup(obj, step).None? && AttrLookup(obj, step).None? && IndexLookup(obj, step).Some? ==>
              r == Some(Invoke(IndexLookup(obj, step).value))
  {
    var found :=
      match ItemLookup(obj, step)
      case Some(v) => Some(v)
      case None =>
        match AttrLookup(obj, step)
        case Some(v) => Some(v)
        case None => IndexLookup(obj, step);
    match found
    case Some(v) => Some(Invoke(v))
    case None => None
  }

  /** The steps of a dotted path applied in turn; nothing when one fails. */
  function Walk(obj: Value, steps: seq<string>): Option<Value>
    decreases |steps|
  {
    if |steps| == 0 then Some(obj)
    else
      match Step(obj, steps[0])
      case None => None
      case Some(v) => Walk(v, steps[1..])
  }

  /** `digattr(obj, attr, default)`. */
  function DigAttr(obj: Value, attr: string, default: Value): Value {
    Walk(obj, Split(attr, '.')).GetOr(default)
  }

  /** Walking a path in two halves is walking the whole path: the second half
      starts from the value the first half reached, and a miss in the first
      half is a miss of the whole. */
  lemma {:induction false} WalkAppend(obj: Value, a: seq<string>, b: seq<string>)
    ensures Walk(obj, a + b) == match Walk(obj, a) case None => None case Some(v) => Walk(v, b)
    decreases |a|
  {
    if |a| == 0 {
      assert a + b == b;
    } else {
      assert (a + b)[0] == a[0] && (a + b)[1..] == a[1..] + b;
      match Step(obj, a[0])
      case None =>
      case Some(v) => WalkAppend(v, a[1..], b);
    }
  }

  /** `digattr(obj, "a.b", d)`: the lookup of `b` continues from whatever `a`
      reached; when `a` already misses, the result is `d` with no partial
      value. */
  lemma DottedLookup(obj: Value, a: string, b: string, default: Value)
    ensures DigAttr(obj, a + "." + b, default) ==
              match Walk(obj, Split(a, '.'))
              case None => default
              case Some(v) => DigAttr(v, b, default)
  {
    SplitAround(a, b, '.');
    WalkAppend(obj, Split(a, '.'), Split(b, '.'));
  }

  /** A path without dots is a single step. */
  lemma SingleStep(obj: Value, step: string, default: Value)
    requires '.' !in step
    ensures DigAttr(obj, step, default) == Step(obj, step).GetOr(default)
  {
    SplitNoSeparator(step, '.');
    match Step(obj, step)
    case None =>
    case Some(v) => assert Walk(obj, [step]) == Walk(v, []);
  }

  /** Reaching `v` under key `a` of a dictionary whose first entry is `a`. */
  lemma FirstKey(a: string, v: Value, rest: seq<(string, Value)>)
    requires '.' !in a
    ensures Walk(DictVal([(a, v)] + rest), Split(a, '.')) == Some(Invoke(v))
  {
    SplitNoSeparator(a, '.');
    assert Walk(Invoke(v), []) == Some(Invoke(v));
  }

  /** `a.b` with `a` a mapping that has key `b`. */
  lemma KeyLookupExample()
    ensures DigAttr(DictVal([("a", DictVal([("b", IntVal(1))]))]), "a.b", NoneVal) == IntVal(1)
  {
    FirstKey("a", DictVal([("b", IntVal(1))]), []);
    DottedLookup(DictVal([("a", DictVal([("b", IntVal(1))]))]), "a", "b", NoneVal);
    SingleStep(DictVal([("b", IntVal(1))]), "b", NoneVal);
  }

  /** `a.b` with `a` an object that has attribute `b` and no keys. */
  lemma AttrLookupExample()
    ensures DigAttr(DictVal([("a", ObjVal(map["b" := IntVal(2)], map[]))]), "a.b", NoneVal) == IntVal(2)
  {
    var o := ObjVal(map["b" := IntVal(2)], map[]);
    FirstKey("a", o, []);
    DottedLookup(DictVal([("a", o)]), "a", "b", NoneVal);
    SingleStep(o, "b", NoneVal);
  }

  /** A key wins over an attribute of the same name. */
  lemma KeyBeforeAttrExample()
    ensures DigAttr(DictVal([("a", ObjVal(map["b" := IntVal(3)], map["b" := IntVal(4)]))]), "a.b", NoneVal) == IntVal(4)
  {
    var o := ObjVal(map["b" := IntVal(3)], map["b" := IntVal(4)]);
    FirstKey("a", o, []);
    DottedLookup(DictVal([("a", o)]), "a", "b", NoneVal);
    SingleStep(o, "b", NoneVal);
  }

  /** Indexing a list with the text of an integer within range: Python's
      `items[i]`, counting from the end when `i` is negative. */
  lemma ListIndexStep(items: seq<Value>, i: int, default: Value)
    requires -|items| <= i < |items|
    ensures DigAttr(ListVal(items), IntToString(i), default) == Invoke(items[if i < 0 then i + |items| else i])
  {
    ParseIntToString(i);
    var s := IntToString(i);
    assert '.' !in s by {
      var d := NatToString(if i < 0 then -i else i);
      assert forall k :: 0 <= k < |d| ==> d[k] != '.';
      assert s == d || s == "-" + d;
    }
    SingleStep(ListVal(items), s, default);
  }

  /** `a.1` with `a` a list of two: the second item. */
  lemma IndexLookupExample()
    ensures DigAttr(DictVal([("a", ListVal([IntVal(5), IntVal(6)]))]), "a.1", NoneVal) == IntVal(6)
  {
    var l := ListVal([IntVal(5), IntVal(6)]);
    FirstKey("a", l, []);
    DottedLookup(DictVal([("a", l)]), "a", "1", NoneVal);
    assert IntToString(1) == "1";
    ListIndexStep(l.items, 1, NoneVal);
  }

  /** `a.-2` with `a` a list of two: counted from the end, the first item. */
  lemma NegativeIndexExample()
    ensures DigAttr(DictVal([("a", ListVal([IntVal(5), IntVal(6)]))]), "a.-2", NoneVal) == IntVal(5)
  {
    var l := ListVal([IntVal(5), IntVal(6)]);
    FirstKey("a", l, []);
    assert [("a", l)] + [] == [("a", l)];
    assert "a" + "." + "-2" == "a.-2";
    DottedLookup(DictVal([("a", l)]), "a", "-2", NoneVal);
    assert Invoke(l) == l;
    assert DigAttr(DictVal([("a", l)]), "a.-2", NoneVal) == DigAttr(l, "-2", NoneVal);
    assert IntToString(-2) == "-2";
    ListIndexStep(l.items, -2, NoneVal);
    assert DigAttr(l, "-2", NoneVal) == Invoke(IntVal(5));
  }

  /** `a.b` with `a` an integer: nothing applies and the default comes back. */
  lemma MissExample()
    ensures DigAttr(DictVal([("a", IntVal(7))]), "a.b", NoneVal) == NoneVal
  {
    FirstKey("a", IntVal(7), []);
    DottedLookup(DictVal([("a", IntVal(7))]), "a", "b", NoneVal);
    SingleStep(IntVal(7), "b", NoneVal);
  }

  /** Python truthiness: `bool(value)`. Objects and callables are true. */
  predicate Truthy(v: Value) {
    match v
    case NoneVal => false
    case BoolVal(b) => b
    case IntVal(i) => i != 0
    case StrVal(s) => |s| > 0
    case ListVal(items) => |items| > 0
    case DictVal(entries) => |entries| > 0
    case ObjVal(_, _) => true
    case ThunkVal(_) => true
  }

  /** `unicode(value)` as a variable tag writes it: `None`, `True`, `False`,
      decimal integers and strings as they are. Containers, objects and
      callables are written as a fixed placeholder. An integer's text reads
      back as the integer. */
  function ToString(v: Value): (r: string)
    ensures v.IntVal? ==> ParseInt(r) == Some(v.i)
  {
    match v
    case NoneVal => "None"
    case BoolVal(b) => if b then "True" else "False"
    case IntVal(i) => ParseIntToString(i); IntToString(i)
    case StrVal(s) => s
    case _ => "<object>"
  }

  /** What `enumerate(value)` walks through: a list's items, a string's
      characters, a dictionary's keys. Anything else is not iterable. */
  function Iterate(v: Value): (r: Option<seq<Value>>)
    ensures r.Some? <==> v.ListVal? || v.StrVal? || v.DictVal?
    ensures v.ListVal? ==> r == Some(v.items)
    ensures v.StrVal? ==> |r.value| == |v.s| && forall i :: 0 <= i < |v.s| ==> r.value[i] == StrVal([v.s[i]])
    ensures v.DictVal? ==> |r.value| == |v.entries| && forall i :: 0 <= i < |v.entries| ==> r.value[i] == StrVal(v.entries[i].0)
  {
    match v
    case ListVal(items) => Some(items)
    case StrVal(s) => Some(seq(|s|, i requires 0 <= i < |s| => StrVal([s[i]])))
    case DictVal(entries) => Some(seq(|entries|, i requires 0 <= i < |entries| => StrVal(entries[i].0)))
    case _ => None
  }
}
