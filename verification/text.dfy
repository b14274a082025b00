/** The parts of Python's `str` and `re` that the template engine leans on:
    the `\s` and `\w` character classes (ASCII, as in a pattern compiled
    without the UNICODE flag), `strip`, `split(sep)`, `split(sep, 1)` and
    substring search. */
module Text {
  import opened Results

  /** `\s`: space, tab, line feed, vertical tab, form feed, carriage return. */
  predicate IsSpace(c: char) {
    c == ' ' || '\t' <= c <= '\r'
  }

  predicate AllSpace(s: string) {
    forall i :: 0 <= i < |s| ==> IsSpace(s[i])
  }

  /** `\w`: letters, digits and the underscore. */
  predicate IsWordChar(c: char) {
    'a' <= c <= 'z' || 'A' <= c <= 'Z' || '0' <= c <= '9' || c == '_'
  }

  /** True when `pat` occurs in `s` starting at index `i`. */
  predicate OccursAt(s: string, i: int, pat: string) {
    0 <= i && i + |pat| <= |s| && s[i..i + |pat|] == pat
  }

  /** Where `lstrip()` cuts: the first index at or after `lo` that does not
      hold whitespace, or the end of `s`. */
  function SkipSpace(s: string, lo: nat): (a: nat)
    requires lo <= |s|
    ensures lo <= a <= |s|
    ensures forall i :: lo <= i < a ==> IsSpace(s[i])
    ensures a == |s| || !IsSpace(s[a])
    decreases |s| - lo
  {
    if lo < |s| && IsSpace(s[lo]) then SkipSpace(s, lo + 1) else lo
  }

  /** Where `rstrip()` cuts: the last index at or before `hi`, and no lower
      than `lo`, that does not follow whitespace. */
  function BackSpace(s: string, lo: nat, hi: nat): (b: nat)
    requires lo <= hi <= |s|
    ensures lo <= b <= hi
    ensures forall i :: b <= i < hi ==> IsSpace(s[i])
    ensures b == lo || !IsSpace(s[b - 1])
    decreases hi
  {
    if lo < hi && IsSpace(s[hi - 1]) then BackSpace(s, lo, hi - 1) else hi
  }

  /** `strip()`: `s` with leading and trailing whitespace removed. */
  function Strip(s: string): (r: string)
    ensures |r| <= |s|
    ensures r == [] || (!IsSpace(r[0]) && !IsSpace(r[|r| - 1]))
  {
    var a := SkipSpace(s, 0);
    s[a..BackSpace(s, a, |s|)]
  }

  /** What `strip()` removes is whitespace only, from the two ends. */
  lemma StripRemovesOnlyEndSpace(s: string)
    ensures exists i :: 0 <= i <= |s| - |Strip(s)| && Strip(s) == s[i..i + |Strip(s)|]
                      && AllSpace(s[..i]) && AllSpace(s[i + |Strip(s)|..])
  {
    var a := SkipSpace(s, 0);
    var b := BackSpace(s, a, |s|);
    assert Strip(s) == s[a..b];
    assert AllSpace(s[..a]);
    assert AllSpace(s[b..]);
  }

  /** Text that neither starts nor ends with whitespace is its own `strip()`. */
  lemma StripUnchanged(s: string)
    requires s == [] || (!IsSpace(s[0]) && !IsSpace(s[|s| - 1]))
    ensures Strip(s) == s
  {
  }

  /** `strip()` is idempotent. */
  lemma StripIdempotent(s: string)
    ensures Strip(Strip(s)) == Strip(s)
  {
    StripUnchanged(Strip(s));
  }

  /** The longest prefix of `s` made of word characters: what `\w+` matches at
      the start of `s`, or the empty string when it does not match. */
  function LeadingWord(s: string): (r: string)
    ensures |r| <= |s|
  {
    if |s| > 0 && IsWordChar(s[0]) then [s[0]] + LeadingWord(s[1..]) else []
  }

  /** `LeadingWord` is a prefix made of word characters that stops at the
      first character that is not one. */
  lemma {:induction false} LeadingWordIsLongest(s: string)
    ensures LeadingWord(s) == s[..|LeadingWord(s)|]
    ensures forall i :: 0 <= i < |LeadingWord(s)| ==> IsWordChar(s[i])
    ensures |LeadingWord(s)| == |s| || !IsWordChar(s[|LeadingWord(s)|])
    decreases |s|
  {
    if |s| > 0 && IsWordChar(s[0]) {
      LeadingWordIsLongest(s[1..]);
      assert forall i :: 1 <= i < |s| ==> s[i] == s[1..][i - 1];
    }
  }

  /** The first index at or after `from` where `pat` occurs in `s`. */
  function Find(s: string, pat: string, from: nat): (r: Option<nat>)
    ensures r.Some? ==> from <= r.value && OccursAt(s, r.value, pat)
    ensures r.Some? ==> forall k :: from <= k < r.value ==> !OccursAt(s, k, pat)
    ensures r.None? ==> forall k :: from <= k ==> !OccursAt(s, k, pat)
    decreases |s| - from
  {
    if from + |pat| > |s| then None
    else if OccursAt(s, from, pat) then Some(from)
    else Find(s, pat, from + 1)
  }

  /** `s.split(c)`: the pieces of `s` between occurrences of `c`, in order;
      there is always at least one piece and none contains `c`. */
  function Split(s: string, c: char): (r: seq<string>)
    ensures |r| >= 1
    ensures forall i :: 0 <= i < |r| ==> c !in r[i]
  {
    if |s| == 0 then [""]
    else if s[0] == c then [""] + Split(s[1..], c)
    else
      var rest := Split(s[1..], c);
      [[s[0]] + rest[0]] + rest[1..]
  }

  /** `c.join(pieces)`. */
  function Join(pieces: seq<string>, c: char): string {
    if |pieces| == 0 then ""
    else if |pieces| == 1 then pieces[0]
    else pieces[0] + [c] + Join(pieces[1..], c)
  }

  /** Joining the pieces of a split restores the original text. */
  lemma {:induction false} JoinSplit(s: string, c: char)
    ensures Join(Split(s, c), c) == s
    decreases |s|
  {
    if |s| == 0 {
    } else if s[0] == c {
      JoinSplit(s[1..], c);
      assert s == [c] + s[1..];
    } else {
      var rest := Split(s[1..], c);
      JoinSplit(s[1..], c);
      if |rest| == 1 {
        assert s == [s[0]] + s[1..];
      } else {
        assert Join(rest, c) == rest[0] + [c] + Join(rest[1..], c);
        assert s == [s[0]] + s[1..];
      }
    }
  }

  /** Splitting a join of separator-free pieces gives the pieces back. */
  lemma {:induction false} SplitJoin(pieces: seq<string>, c: char)
    requires |pieces| >= 1
    requires forall i :: 0 <= i < |pieces| ==> c !in pieces[i]
    ensures Split(Join(pieces, c), c) == pieces
    decreases |pieces|, |pieces[0]|
  {
    var p := pieces[0];
    if |p| == 0 {
      if |pieces| == 1 {
      } else {
        assert Join(pieces, c) == [c] + Join(pieces[1..], c);
        SplitJoin(pieces[1..], c);
        assert ([c] + Join(pieces[1..], c))[1..] == Join(pieces[1..], c);
      }
    } else {
      var shorter := [p[1..]] + pieces[1..];
      assert c !in p[1..] by {
        forall k | 0 <= k < |p[1..]| ensures p[1..][k] != c {
          assert p[1..][k] == p[k + 1];
        }
      }
      SplitJoin(shorter, c);
      assert shorter[1..] == pieces[1..];
      var j := Join(pieces, c);
      assert j == [p[0]] + Join(shorter, c) by {
        if |pieces| == 1 {
          assert p == [p[0]] + p[1..];
        } else {
          assert p == [p[0]] + p[1..];
          assert j == p + [c] + Join(pieces[1..], c);
          assert Join(shorter, c) == p[1..] + [c] + Join(pieces[1..], c);
        }
      }
      assert j[0] == p[0] && j[1..] == Join(shorter, c);
      assert p[0] != c by { assert p[0] == pieces[0][0]; }
      assert p == [p[0]] + p[1..];
      assert pieces == [p] + pieces[1..];
    }
  }

  /** Splitting at one more separator splits the two sides independently. */
  lemma SplitAround(a: string, b: string, c: char)
    ensures Split(a + [c] + b, c) == Split(a, c) + Split(b, c)
  {
    var pieces := Split(a, c) + Split(b, c);
    JoinSplit(a, c);
    JoinSplit(b, c);
    JoinAppend(Split(a, c), Split(b, c), c);
    SplitJoin(pieces, c);
  }

  /** Joining two non-empty piece lists puts one separator between their
      joins. */
  lemma {:induction false} JoinAppend(x: seq<string>, y: seq<string>, c: char)
    requires |x| >= 1 && |y| >= 1
    ensures Join(x + y, c) == Join(x, c) + [c] + Join(y, c)
    decreases |x|
  {
    if |x| == 1 {
      assert (x + y)[1..] == y;
    } else {
      JoinAppend(x[1..], y, c);
      assert (x + y)[1..] == x[1..] + y;
    }
  }

  /** Text without the separator splits into one piece. */
  lemma SplitNoSeparator(s: string, c: char)
    requires c !in s
    ensures Split(s, c) == [s]
  {
    SplitJoin([s], c);
  }

  /** `s.split(c, 1)`: the text before the first `c`, and the text after it
      when there is one. */
  function SplitFirst(s: string, c: char): (r: (string, Option<string>))
    ensures c !in r.0
    ensures r.1.None? ==> r.0 == s
    ensures r.1.Some? ==> s == r.0 + [c] + r.1.value
  {
    if |s| == 0 then ("", None)
    else if s[0] == c then ("", Some(s[1..]))
    else
      var rest := SplitFirst(s[1..], c);
      ([s[0]] + rest.0, rest.1)
  }

  /** Splitting once at the first separator finds the text before it and
      keeps the rest whole. */
  lemma {:induction false} SplitFirstAt(a: string, b: string, c: char)
    requires c !in a
    ensures SplitFirst(a + [c] + b, c) == (a, Some(b))
    decreases |a|
  {
    if |a| == 0 {
      assert a + [c] + b == [c] + b;
    } else {
      SplitFirstAt(a[1..], b, c);
      assert (a + [c] + b)[0] == a[0] && a[0] != c;
      assert (a + [c] + b)[1..] == a[1..] + [c] + b;
      assert a == [a[0]] + a[1..];
    }
  }

  /** Without the separator there is nothing to split. */
  lemma SplitFirstAbsent(s: string, c: char)
    requires c !in s
    ensures SplitFirst(s, c) == (s, None)
  {
  }

  /** `s.split(sep, 1)` unpacked into two parts: the text before the first
      occurrence of `sep` and the text after it, or nothing when `sep` does
      not occur (where Python's unpacking raises ValueError). */
  function SplitOnce(s: string, sep: string): (r: Option<(string, string)>)
    requires |sep| > 0
    ensures r.Some? ==> s == r.value.0 + sep + r.value.1
    ensures r.Some? ==> forall k :: 0 <= k < |r.value.0| ==> !OccursAt(s, k, sep)
    ensures r.None? ==> forall k :: !OccursAt(s, k, sep)
  {
    match Find(s, sep, 0)
    case None => None
    case Some(k) =>
      assert s == s[..k] + s[k..k + |sep|] + s[k + |sep|..];
      Some((s[..k], s[k + |sep|..]))
  }

  /** A non-empty string with no white space at either end, which `strip()`
      leaves as it is. */
  predicate Trimmed(c: string) {
    |c| > 0 && !IsSpace(c[0]) && !IsSpace(c[|c| - 1])
  }

  /** The leading word of a word followed by a non-word character. */
  lemma {:induction false} LeadingWordOf(w: string, rest: string)
    requires forall i :: 0 <= i < |w| ==> IsWordChar(w[i])
    requires rest == [] || !IsWordChar(rest[0])
    ensures LeadingWord(w + rest) == w
    decreases |w|
  {
    if |w| > 0 {
      assert (w + rest)[1..] == w[1..] + rest;
      LeadingWordOf(w[1..], rest);
    } else {
      assert w + rest == rest;
    }
  }

  /** One space in front of a trimmed string is stripped off. */
  lemma StripLead(arg: string)
    requires |arg| > 0 && !IsSpace(arg[0]) && !IsSpace(arg[|arg| - 1])
    ensures Strip(" " + arg) == arg
  {
    var s := " " + arg;
    assert s[1] == arg[0];
    assert SkipSpace(s, 0) == 1;
    assert s[|s| - 1] == arg[|arg| - 1];
    assert BackSpace(s, 1, |s|) == |s|;
    assert s[1..] == arg;
  }

  /** The content of a block tag with a name and an argument. */
  lemma TagWords(name: string, arg: string)
    requires forall i :: 0 <= i < |name| ==> IsWordChar(name[i])
    requires |arg| > 0 && !IsSpace(arg[0]) && !IsSpace(arg[|arg| - 1])
    ensures LeadingWord(name + " " + arg) == name
    ensures Strip((name + " " + arg)[|name|..]) == arg
  {
    assert name + " " + arg == name + (" " + arg);
    LeadingWordOf(name, " " + arg);
    assert (name + " " + arg)[|name|..] == " " + arg;
    StripLead(arg);
  }

  /** The content of a block tag that is its name alone. */
  lemma BareTag(name: string)
    requires forall i :: 0 <= i < |name| ==> IsWordChar(name[i])
    ensures LeadingWord(name) == name
    ensures Strip(name[|name|..]) == ""
  {
    LeadingWordOf(name, "");
    assert name + "" == name;
    assert name[|name|..] == "";
  }

  /** Splitting at the first occurrence of a separator that does not start
      inside `a`. */
  lemma SplitOnceAt(a: string, sep: string, b: string)
    requires |sep| > 0
    requires forall k :: 0 <= k < |a| ==> !OccursAt(a + sep + b, k, sep)
    ensures SplitOnce(a + sep + b, sep) == Some((a, b))
  {
    var s := a + sep + b;
    assert OccursAt(s, |a|, sep) by {
      assert s[|a|..|a| + |sep|] == sep;
    }
    assert Find(s, sep, 0) == Some(|a|);
    assert s[..|a|] == a;
    assert s[|a| + |sep|..] == b;
  }
}
