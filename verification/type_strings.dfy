/**
 The type-string grammar of request schemas (src/utils/params.js):
 `string`, `string!`, `array[a.b]`, `array[a]!`. A type is required when it
 ends in `!` and an array type when it starts with `array[`; an array type's
 bracket contents, split on `.`, is the element path each item is written
 under.
 */
module TypeStrings {
  import opened Wrappers
  import opened DecimalText

  predicate IsRequired(t: string) {
    |t| > 0 && t[|t| - 1] == '!'
  }

  const ArrayPrefix := "array["

  predicate IsArrayType(t: string) {
    |t| >= |ArrayPrefix| && t[..|ArrayPrefix|] == ArrayPrefix
  }

  /** Every type that is not an array type takes a text value. */
  predicate IsScalarType(t: string) {
    !IsArrayType(t)
  }

  /** The two text types the resource tables use take text values. */
  lemma TextTypesScalar()
    ensures IsScalarType("string") && IsScalarType("string!")
  {
    assert "string"[..|ArrayPrefix|][0] != ArrayPrefix[0];
    assert "string!"[..|ArrayPrefix|][0] != ArrayPrefix[0];
  }

  /** The characters a regular expression's `.` does not match. */
  predicate IsLineTerminator(c: char) {
    c == '\n' || c == '\r' || c == '\U{2028}' || c == '\U{2029}'
  }

  /** Index of the first line terminator at or after `from`, or `|s|`. */
  function LineEnd(s: string, from: nat): (e: nat)
    requires from <= |s|
    ensures from <= e <= |s|
    ensures forall j | from <= j < e :: !IsLineTerminator(s[j])
    ensures e < |s| ==> IsLineTerminator(s[e])
    decreases |s| - from
  {
    if from == |s| || IsLineTerminator(s[from]) then from else LineEnd(s, from + 1)
  }

  /** The largest index in `[lo, hi)` holding `c`, if any. */
  function LastIndexIn(s: string, c: char, lo: nat, hi: nat): (r: Option<nat>)
    requires hi <= |s|
    ensures r.Some? ==> lo <= r.value < hi && s[r.value] == c
    ensures r.Some? ==> forall j | r.value < j < hi :: s[j] != c
    ensures r.None? ==> forall j | lo <= j < hi :: s[j] != c
    decreases hi
  {
    if hi <= lo then None
    else if s[hi - 1] == c then Some(hi - 1)
    else LastIndexIn(s, c, lo, hi - 1)
  }

  /**
   The bracket contents an array type's path is read from: what the
   expression `^array\[(.+)\]` captures. The capture is greedy, so it runs
   to the last `]` before the first line break; None when nothing matches.
   */
  function ArrayPath(t: string): Option<string> {
    if !IsArrayType(t) then None
    else
      var start := |ArrayPrefix|;
      match LastIndexIn(t, ']', start + 1, LineEnd(t, start))
      case None => None
      case Some(j) => Some(t[start..j])
  }

  /** `String.prototype.split` on a single character. */
  function Split(s: string, d: char): (parts: seq<string>)
    ensures |parts| >= 1
    decreases |s|
  {
    var i := IndexOf(s, d);
    if i == |s| then [s] else [s[..i]] + Split(s[i + 1..], d)
  }

  /** `Array.prototype.join` with a single-character separator. */
  function Join(parts: seq<string>, d: char): string
    requires |parts| >= 1
  {
    if |parts| == 1 then parts[0] else parts[0] + [d] + Join(parts[1..], d)
  }

  /** The element path of an array type, or None when the type does not match. */
  function ArrayKeys(t: string): Option<seq<string>> {
    match ArrayPath(t)
    case None => None
    case Some(p) => Some(Split(p, '.'))
  }

  /** Joining the parts of a split gives the text back. */
  lemma {:induction false} JoinSplit(s: string, d: char)
    ensures Join(Split(s, d), d) == s
    decreases |s|
  {
    var i := IndexOf(s, d);
    if i < |s| {
      var rest := s[i + 1..];
      var ps := Split(s, d);
      assert ps == [s[..i]] + Split(rest, d);
      assert ps[0] == s[..i] && ps[1..] == Split(rest, d);
      JoinSplit(rest, d);
      assert Join(ps, d) == s[..i] + [d] + Join(Split(rest, d), d);
      assert s == s[..i] + [d] + rest;
    } else {
      assert Split(s, d) == [s];
    }
  }

  /** No part of a split holds the separator. */
  lemma {:induction false} SplitParts(s: string, d: char)
    ensures forall k | 0 <= k < |Split(s, d)| :: d !in Split(s, d)[k]
    decreases |s|
  {
    var i := IndexOf(s, d);
    if i < |s| {
      SplitParts(s[i + 1..], d);
    }
  }

  /** A text without the separator, then the separator, splits there first. */
  lemma SplitAt(a: string, rest: string, d: char)
    requires d !in a
    ensures Split(a + [d] + rest, d) == [a] + Split(rest, d)
  {
    var s := a + [d] + rest;
    assert s == a + ([d] + rest);
    IndexOfAt(a, [d] + rest, d);
    assert s[..|a|] == a && s[|a| + 1..] == rest;
  }

  /** Splitting parts free of the separator, once joined, gives the parts back. */
  lemma {:induction false} SplitJoin(parts: seq<string>, d: char)
    requires |parts| >= 1
    requires forall k | 0 <= k < |parts| :: d !in parts[k]
    ensures Split(Join(parts, d), d) == parts
  {
    if |parts| == 1 {
      IndexOfAbsent(parts[0], d);
    } else {
      var rest := Join(parts[1..], d);
      assert d !in parts[0];
      SplitAt(parts[0], rest, d);
      assert forall k | 0 <= k < |parts[1..]| :: d !in parts[1..][k] by {
        forall k | 0 <= k < |parts[1..]| ensures d !in parts[1..][k] {
          assert parts[1..][k] == parts[k + 1];
        }
      }
      SplitJoin(parts[1..], d);
      assert parts == [parts[0]] + parts[1..];
    }
  }

  /** The separator is not found in a text that lacks it. */
  lemma IndexOfAbsent(s: string, d: char)
    requires d !in s
    ensures IndexOf(s, d) == |s|
  {
  }

  /** A text without the separator, followed by one, splits at its end. */
  lemma {:induction false} IndexOfAt(a: string, b: string, d: char)
    requires d !in a
    requires |b| > 0 && b[0] == d
    ensures IndexOf(a + b, d) == |a|
  {
    if |a| > 0 {
      assert a[0] in a;
      assert (a + b)[1..] == a[1..] + b;
      assert forall c | c in a[1..] :: c in a;
      IndexOfAt(a[1..], b, d);
    }
  }

  /** The last `c` in a range is found when everything after it differs. */
  lemma {:induction false} LastIndexAt(s: string, c: char, lo: nat, k: nat, hi: nat)
    requires lo <= k < hi <= |s|
    requires s[k] == c
    requires forall j | k < j < hi :: s[j] != c
    ensures LastIndexIn(s, c, lo, hi) == Some(k)
    decreases hi
  {
    if hi - 1 != k {
      LastIndexAt(s, c, lo, k, hi - 1);
    }
  }

  /**
   An array type with no line break after `array[` captures up to its last
   `]`, when that `]` comes after at least one character of path.
   */
  lemma ArrayPathAt(t: string, close: nat)
    requires IsArrayType(t)
    requires |ArrayPrefix| < close < |t| && t[close] == ']'
    requires forall j | |ArrayPrefix| <= j < |t| :: !IsLineTerminator(t[j])
    requires forall j | close < j < |t| :: t[j] != ']'
    ensures ArrayPath(t) == Some(t[|ArrayPrefix|..close])
  {
    var start := |ArrayPrefix|;
    assert LineEnd(t, start) == |t|;
    LastIndexAt(t, ']', start + 1, close, |t|);
  }

  /** The characters of `array[` path `]` followed by a run of `!`. */
  lemma ArrayTypeChars(p: string, tail: string)
    requires forall j | 0 <= j < |p| :: !IsLineTerminator(p[j])
    requires forall j | 0 <= j < |tail| :: tail[j] == '!'
    ensures var t := ArrayPrefix + p + "]" + tail;
      && t[..|ArrayPrefix|] == ArrayPrefix
      && t[|ArrayPrefix| + |p|] == ']'
      && t[|ArrayPrefix|..|ArrayPrefix| + |p|] == p
      && forall j | |ArrayPrefix| <= j < |t| ::
           !IsLineTerminator(t[j]) && (|ArrayPrefix| + |p| < j ==> t[j] != ']')
  {
    var start, close := |ArrayPrefix|, |ArrayPrefix| + |p|;
    var u := ArrayPrefix + p;
    var v := u + "]";
    var t := v + tail;
    assert t[..start] == u[..start] == ArrayPrefix;
    assert t[close] == v[close] == ']';
    assert t[start..close] == u[start..] == p;
    forall j | start <= j < |t|
      ensures !IsLineTerminator(t[j]) && (close < j ==> t[j] != ']')
    {
      if j < close {
        assert t[j] == p[j - start];
      } else if close < j {
        assert t[j] == tail[j - close - 1];
      }
    }
  }

  /** `array[` path `]` followed by a run of `!` captures the path. */
  lemma ArrayPathOfParts(p: string, tail: string)
    requires |p| >= 1
    requires forall j | 0 <= j < |p| :: !IsLineTerminator(p[j])
    requires forall j | 0 <= j < |tail| :: tail[j] == '!'
    ensures ArrayPath(ArrayPrefix + p + "]" + tail) == Some(p)
  {
    ArrayTypeChars(p, tail);
    ArrayPathAt(ArrayPrefix + p + "]" + tail, |ArrayPrefix| + |p|);
  }

  /**
   A well-formed array type, `array[` path `]` with an optional `!`, yields
   its path split on `.`.
   */
  lemma WellFormedArrayType(p: string, required: bool)
    requires |p| >= 1
    requires forall j | 0 <= j < |p| :: !IsLineTerminator(p[j])
    ensures ArrayPath(ArrayPrefix + p + "]" + (if required then "!" else "")) == Some(p)
    ensures ArrayKeys(ArrayPrefix + p + "]" + (if required then "!" else "")) == Some(Split(p, '.'))
  {
    ArrayPathOfParts(p, if required then "!" else "");
  }

  /** Required marking (src/Endpoint.js): append `!` unless the type already ends in one. */
  function MarkRequired(t: string): (r: string)
    ensures IsRequired(r)
  {
    if IsRequired(t) then t else t + "!"
  }

  /** Marking is idempotent, changes a type only if it was optional, and
      keeps the array-ness of the type. */
  lemma MarkRequiredProps(t: string)
    ensures MarkRequired(MarkRequired(t)) == MarkRequired(t)
    ensures MarkRequired(t) == t <==> IsRequired(t)
    ensures IsArrayType(MarkRequired(t)) <==> IsArrayType(t)
    ensures !IsRequired(t) ==> MarkRequired(t)[..|t|] == t && |MarkRequired(t)| == |t| + 1
  {
    if !IsRequired(t) {
      if |t| >= |ArrayPrefix| {
        assert (t + "!")[..|ArrayPrefix|] == t[..|ArrayPrefix|];
      } else if |t| == |ArrayPrefix| - 1 {
        assert (t + "!")[|t|] == '!' && ArrayPrefix[|t|] == '[';
      }
    }
  }

  /** A two-step path `array[a.b]` gives the path `[a, b]`. */
  lemma TwoStepPath(a: string, b: string, required: bool)
    requires |a| >= 1 && '.' !in a && '.' !in b
    requires forall j | 0 <= j < |a| :: !IsLineTerminator(a[j])
    requires forall j | 0 <= j < |b| :: !IsLineTerminator(b[j])
    ensures ArrayKeys(ArrayPrefix + a + "." + b + "]" + (if required then "!" else "")) == Some([a, b])
  {
    var p := a + "." + b;
    assert forall j | 0 <= j < |p| :: !IsLineTerminator(p[j]) by {
      forall j | 0 <= j < |p| ensures !IsLineTerminator(p[j]) {
        if j < |a| { assert p[j] == a[j]; }
        else if j > |a| { assert p[j] == b[j - |a| - 1]; }
      }
    }
    WellFormedArrayType(p, required);
    assert Join([a, b], '.') == p;
    SplitJoin([a, b], '.');
    assert ArrayPrefix + p + "]" == ArrayPrefix + a + "." + b + "]";
  }
}
