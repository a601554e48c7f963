/** The few operations on Python `str` values that the core relies on: `isspace`, `strip()`,
    `sep in s`, `s.split(sep)` and `sep.join(parts)`, with the facts about them that the
    other modules use. */
module Text {
  import opened Wrappers

  /** Python's `str.isspace`. In a `str` pattern, `\s` matches exactly these characters. */
  predicate IsSpace(c: char) {
    || c == ' '
    || ('\t' <= c <= '\r')
    || ('\U{1C}' <= c <= '\U{1F}')
    || c == '\U{85}' || c == '\U{A0}' || c == '\U{1680}'
    || ('\U{2000}' <= c <= '\U{200A}')
    || c == '\U{2028}' || c == '\U{2029}' || c == '\U{202F}' || c == '\U{205F}' || c == '\U{3000}'
  }

  /** `\w` over ASCII: letters, digits and the underscore. */
  predicate IsWordChar(c: char) {
    ('a' <= c <= 'z') || ('A' <= c <= 'Z') || ('0' <= c <= '9') || c == '_'
  }

  predicate AllSpace(s: string) {
    forall i | 0 <= i < |s| :: IsSpace(s[i])
  }

  lemma AllSpaceAppend(a: string, b: string)
    requires AllSpace(a) && AllSpace(b)
    ensures AllSpace(a + b)
  {
    forall i | 0 <= i < |a + b| ensures IsSpace((a + b)[i]) {
      if i < |a| { assert (a + b)[i] == a[i]; } else { assert (a + b)[i] == b[i - |a|]; }
    }
  }

  /** How many whitespace characters `s` starts with. */
  function LeadingSpace(s: string): (n: nat)
    ensures n <= |s|
  {
    if |s| > 0 && IsSpace(s[0]) then 1 + LeadingSpace(s[1..]) else 0
  }

  /** How many whitespace characters `s` ends with. */
  function TrailingSpace(s: string): (n: nat)
    ensures n <= |s|
  {
    if |s| > 0 && IsSpace(s[|s| - 1]) then 1 + TrailingSpace(s[..|s| - 1]) else 0
  }

  /** Python's `s.lstrip()`. */
  function TrimStart(s: string): string {
    s[LeadingSpace(s)..]
  }

  /** Python's `s.rstrip()`. */
  function TrimEnd(s: string): string {
    s[..|s| - TrailingSpace(s)]
  }

  /** Python's `s.strip()`. */
  function Strip(s: string): string {
    TrimEnd(TrimStart(s))
  }

  /** The leading run is whitespace and is the longest such run. */
  lemma {:induction false} LeadingSpaceSpec(s: string)
    ensures AllSpace(s[..LeadingSpace(s)])
    ensures LeadingSpace(s) < |s| ==> !IsSpace(s[LeadingSpace(s)])
  {
    if |s| > 0 && IsSpace(s[0]) {
      LeadingSpaceSpec(s[1..]);
      var n := LeadingSpace(s[1..]);
      assert s[..n + 1] == [s[0]] + s[1..][..n];
    }
  }

  /** The trailing run is whitespace and is the longest such run. */
  lemma {:induction false} TrailingSpaceSpec(s: string)
    ensures AllSpace(s[|s| - TrailingSpace(s)..])
    ensures TrailingSpace(s) < |s| ==> !IsSpace(s[|s| - 1 - TrailingSpace(s)])
  {
    if |s| > 0 && IsSpace(s[|s| - 1]) {
      var t := s[..|s| - 1];
      TrailingSpaceSpec(t);
      var n := TrailingSpace(t);
      assert s[|s| - 1 - n..] == t[|t| - n..] + [s[|s| - 1]];
    }
  }

  /** Whitespace, then text that does not start with whitespace: the leading run is exactly
      the whitespace. */
  lemma {:induction false} LeadingSpacePadded(p: string, x: string)
    requires AllSpace(p)
    requires x == [] || !IsSpace(x[0])
    ensures LeadingSpace(p + x) == |p|
  {
    if |p| > 0 {
      assert (p + x)[0] == p[0];
      assert (p + x)[1..] == p[1..] + x;
      LeadingSpacePadded(p[1..], x);
    } else {
      assert p + x == x;
    }
  }

  /** Text that does not end with whitespace, then whitespace: the trailing run is exactly
      the whitespace. */
  lemma {:induction false} TrailingSpacePadded(x: string, q: string)
    requires AllSpace(q)
    requires x == [] || !IsSpace(x[|x| - 1])
    ensures TrailingSpace(x + q) == |q|
  {
    if |q| > 0 {
      assert (x + q)[|x + q| - 1] == q[|q| - 1];
      assert (x + q)[..|x + q| - 1] == x + q[..|q| - 1];
      TrailingSpacePadded(x, q[..|q| - 1]);
    } else {
      assert x + q == x;
    }
  }

  lemma {:induction false} LeadingSpaceAll(s: string)
    requires AllSpace(s)
    ensures LeadingSpace(s) == |s|
  {
    if |s| > 0 {
      LeadingSpaceAll(s[1..]);
    }
  }

  /** Text that does not start with whitespace, appended, stops the leading run. */
  lemma {:induction false} LeadingSpaceAppend(x: string, y: string)
    requires |y| > 0 && !IsSpace(y[0])
    ensures LeadingSpace(x + y) == LeadingSpace(x)
  {
    if |x| == 0 {
      assert x + y == y;
    } else {
      assert (x + y)[0] == x[0];
      if IsSpace(x[0]) {
        assert (x + y)[1..] == x[1..] + y;
        LeadingSpaceAppend(x[1..], y);
      }
    }
  }

  /** What `strip` returns neither starts nor ends with whitespace. */
  lemma StripShape(s: string)
    ensures var r := Strip(s); r == [] || (!IsSpace(r[0]) && !IsSpace(r[|r| - 1]))
  {
    var u := TrimStart(s);
    LeadingSpaceSpec(s);
    TrailingSpaceSpec(u);
    var r := Strip(s);
    if r != [] {
      assert r[0] == u[0] == s[LeadingSpace(s)];
      assert r[|r| - 1] == u[|u| - 1 - TrailingSpace(u)];
    }
  }

  /** Every text is whitespace, then what `strip` returns, then whitespace. */
  lemma StripParts(c: string) returns (front: string, back: string)
    ensures c == front + Strip(c) + back
    ensures AllSpace(front) && AllSpace(back)
  {
    LeadingSpaceSpec(c);
    var t := TrimStart(c);
    TrailingSpaceSpec(t);
    var r := Strip(c);
    front, back := c[..LeadingSpace(c)], t[|t| - TrailingSpace(t)..];
    assert c == front + t;
    assert t == r + back;
  }

  /** Strip finds the one way of writing a text as whitespace, then a part that neither
      starts nor ends with whitespace, then whitespace. */
  lemma StripUnique(p: string, r: string, q: string)
    requires AllSpace(p) && AllSpace(q)
    requires r == [] || (!IsSpace(r[0]) && !IsSpace(r[|r| - 1]))
    ensures Strip(p + r + q) == r
  {
    if r == [] {
      assert p + r + q == p + q;
      AllSpaceAppend(p, q);
      LeadingSpaceAll(p + q);
      assert TrimStart(p + q) == [];
    } else {
      assert p + r + q == p + (r + q);
      assert (r + q)[0] == r[0];
      LeadingSpacePadded(p, r + q);
      assert TrimStart(p + r + q) == r + q;
      TrailingSpacePadded(r, q);
      assert (r + q)[..|r|] == r;
    }
  }

  /** Whitespace around a text does not change what `strip` returns. */
  lemma StripPadded(a: string, c: string, b: string)
    requires AllSpace(a) && AllSpace(b)
    ensures Strip(a + c + b) == Strip(c)
  {
    var front, back := StripParts(c);
    var r := Strip(c);
    StripShape(c);
    assert a + c + b == (a + front) + r + (back + b);
    AllSpaceAppend(a, front);
    AllSpaceAppend(back, b);
    StripUnique(a + front, r, back + b);
  }

  /** Stripping after `lstrip` is stripping. */
  lemma StripTrimStart(x: string)
    ensures Strip(TrimStart(x)) == Strip(x)
  {
    var u := TrimStart(x);
    LeadingSpaceSpec(x);
    LeadingSpacePadded([], u);
    assert [] + u == u;
  }

  /** `s` occurs in `text` at index `i`. */
  predicate OccursAt(text: string, s: string, i: int) {
    0 <= i <= |text| - |s| && text[i..i + |s|] == s
  }

  /** Python's `text.find(s, k)`, with `None` for -1: the first index from `k` on at which `s`
      occurs. */
  function IndexFrom(text: string, s: string, k: nat): (r: Option<nat>)
    ensures r.Some? ==> k <= r.value && OccursAt(text, s, r.value)
    ensures r.Some? ==> forall j | k <= j < r.value :: !OccursAt(text, s, j)
    ensures r.None? ==> forall j | k <= j :: !OccursAt(text, s, j)
    decreases |text| - k
  {
    if k + |s| > |text| then None
    else if OccursAt(text, s, k) then Some(k)
    else IndexFrom(text, s, k + 1)
  }

  /** Python's `text.find(s)`, with `None` for -1: the first index at which `s` occurs. */
  function IndexOf(text: string, s: string): (r: Option<nat>)
    ensures r.Some? ==> OccursAt(text, s, r.value)
    ensures r.Some? ==> forall j | 0 <= j < r.value :: !OccursAt(text, s, j)
    ensures r.None? ==> forall j :: !OccursAt(text, s, j)
  {
    IndexFrom(text, s, 0)
  }

  /** Python's `s in text`. */
  predicate Contains(text: string, s: string) {
    IndexOf(text, s).Some?
  }

  /** Python's `sep.join(parts)`. */
  function Join(sep: string, parts: seq<string>): string {
    if |parts| == 0 then ""
    else if |parts| == 1 then parts[0]
    else parts[0] + sep + Join(sep, parts[1..])
  }

  /** Python's `[p.strip() for p in parts]`. */
  function StripAll(parts: seq<string>): (r: seq<string>)
    ensures |r| == |parts|
    ensures forall i | 0 <= i < |r| :: r[i] == Strip(parts[i])
  {
    seq(|parts|, i requires 0 <= i < |parts| => Strip(parts[i]))
  }

  /** Python's `text.split(sep)` for a non-empty separator: the pieces between the
      non-overlapping occurrences of `sep`, scanning from the left. */
  function Split(text: string, sep: string): (r: seq<string>)
    requires |sep| > 0
    ensures |r| >= 1
    decreases |text|
  {
    match IndexOf(text, sep)
    case None => [text]
    case Some(i) => [text[..i]] + Split(text[i + |sep|..], sep)
  }

  /** Splitting and joining again with the same separator gives back the text. */
  lemma {:induction false} SplitJoin(text: string, sep: string)
    requires |sep| > 0
    ensures Join(sep, Split(text, sep)) == text
    decreases |text|
  {
    var r := IndexOf(text, sep);
    if r.Some? {
      var i := r.value;
      var rest := text[i + |sep|..];
      SplitAt(text, sep, i);
      SplitJoin(rest, sep);
      JoinCons(sep, text[..i], Split(rest, sep));
    }
  }

  /** The first separator splits off the first piece. */
  lemma SplitAt(text: string, sep: string, i: nat)
    requires |sep| > 0 && IndexOf(text, sep) == Some(i)
    ensures Split(text, sep) == [text[..i]] + Split(text[i + |sep|..], sep)
    ensures text == text[..i] + sep + text[i + |sep|..]
  {
    assert text[i..i + |sep|] == sep;
  }

  lemma JoinCons(sep: string, a: string, xs: seq<string>)
    requires |xs| > 0
    ensures Join(sep, [a] + xs) == a + sep + Join(sep, xs)
  {
    assert ([a] + xs)[1..] == xs;
  }

  /** What precedes part `k` of a join ... */
  function JoinBefore(sep: string, parts: seq<string>, k: nat): string
    requires k <= |parts|
  {
    if k == 0 then "" else Join(sep, parts[..k]) + sep
  }

  /** ... and what follows it. */
  function JoinAfter(sep: string, parts: seq<string>, k: nat): string
    requires k < |parts|
  {
    if k == |parts| - 1 then "" else sep + Join(sep, parts[k + 1..])
  }

  /** A join is, around each of its parts, what precedes that part and what follows it. */
  lemma {:induction false} JoinAt(sep: string, parts: seq<string>, k: nat)
    requires k < |parts|
    ensures Join(sep, parts) == JoinBefore(sep, parts, k) + parts[k] + JoinAfter(sep, parts, k)
    decreases k
  {
    if k > 0 {
      var tail := parts[1..];
      JoinAt(sep, tail, k - 1);
      assert tail[k - 1] == parts[k];
      assert tail[k..] == parts[k + 1..];
      if k == 1 {
        assert parts[..1] == [parts[0]];
      } else {
        assert parts[..k][1..] == tail[..k - 1];
      }
    }
  }

  /** The first piece of a split is the text up to the first separator, or all of it. */
  lemma SplitFirst(text: string, sep: string)
    requires |sep| > 0
    ensures var p := Split(text, sep)[0];
            |p| <= |text| && text[..|p|] == p && (|p| == |text| || OccursAt(text, sep, |p|))
  {
    if IndexOf(text, sep).Some? {
      SplitAt(text, sep, IndexOf(text, sep).value);
    }
  }

  /** A character that is not in `s` does not occur in it. */
  lemma CharFree(s: string, c: char)
    requires c !in s
    ensures IndexOf(s, [c]).None?
  {
    if IndexOf(s, [c]).Some? {
      OccursChar(s, c, IndexOf(s, [c]).value);
    }
  }

  /** After a part free of `c`, the first `c` is the separator that follows the part. */
  lemma FirstOccurrence(p: string, c: char, t: string)
    requires c !in p
    ensures IndexOf(p + [c] + t, [c]) == Some(|p|)
  {
    var x := p + [c] + t;
    OccursChar(x, c, |p|);
    var j := IndexOf(x, [c]).value;
    OccursChar(x, c, j);
  }

  /** Splitting a join on a character that no part contains gives the parts back. */
  lemma {:induction false} JoinSplit(parts: seq<string>, c: char)
    requires |parts| > 0
    requires forall i | 0 <= i < |parts| :: c !in parts[i]
    ensures Split(Join([c], parts), [c]) == parts
    decreases |parts|
  {
    if |parts| == 1 {
      CharFree(parts[0], c);
    } else {
      var p, rest := parts[0], parts[1..];
      var t := Join([c], rest);
      JoinCons([c], p, rest);
      assert [p] + rest == parts;
      FirstOccurrence(p, c, t);
      SplitAt(p + [c] + t, [c], |p|);
      assert (p + [c] + t)[..|p|] == p;
      assert (p + [c] + t)[|p| + 1..] == t;
      JoinSplit(rest, c);
    }
  }

  /** No piece of a split contains the separator. */
  lemma {:induction false} SplitPiecesFree(text: string, sep: string)
    requires |sep| > 0
    ensures forall k | 0 <= k < |Split(text, sep)| :: !Contains(Split(text, sep)[k], sep)
    decreases |text|
  {
    match IndexOf(text, sep)
    case None =>
    case Some(i) =>
      SplitPiecesFree(text[i + |sep|..], sep);
      var head := text[..i];
      if Contains(head, sep) {
        var j := IndexOf(head, sep).value;
        assert head[j..j + |sep|] == text[j..j + |sep|];
        assert OccursAt(text, sep, j);
      }
  }

  /** How often `c` occurs in `s`. */
  function Count(s: string, c: char): nat {
    if |s| == 0 then 0 else (if s[0] == c then 1 else 0) + Count(s[1..], c)
  }

  lemma {:induction false} CountAppend(a: string, b: string, c: char)
    ensures Count(a + b, c) == Count(a, c) + Count(b, c)
  {
    if |a| > 0 {
      assert (a + b)[0] == a[0];
      assert (a + b)[1..] == a[1..] + b;
      CountAppend(a[1..], b, c);
    } else {
      assert a + b == b;
    }
  }

  lemma {:induction false} CountAbsent(s: string, c: char)
    requires c !in s
    ensures Count(s, c) == 0
  {
    if |s| > 0 {
      assert forall x | x in s[1..] :: x in s;
      CountAbsent(s[1..], c);
    }
  }

  /** Joining parts that each hold `c` once, with a separator that lacks it, holds it once per part. */
  lemma {:induction false} JoinCount(sep: string, parts: seq<string>, c: char)
    requires Count(sep, c) == 0
    requires forall i | 0 <= i < |parts| :: Count(parts[i], c) == 1
    ensures Count(Join(sep, parts), c) == |parts|
    decreases |parts|
  {
    if |parts| > 1 {
      JoinCount(sep, parts[1..], c);
      CountAppend(parts[0], sep, c);
      CountAppend(parts[0] + sep, Join(sep, parts[1..]), c);
    }
  }

  /** A text with one `c` between two texts that lack it holds `c` once. */
  lemma CountOnce(a: string, b: string, c: char)
    requires c !in a && c !in b
    ensures Count(a + [c] + b, c) == 1
  {
    CountAbsent(a, c);
    CountAbsent(b, c);
    CountAppend(a, [c], c);
    CountAppend(a + [c], b, c);
    assert [c][1..] == [];
  }

  /** A one-character text occurs where that character is. */
  lemma OccursChar(s: string, c: char, j: nat)
    requires j < |s|
    ensures OccursAt(s, [c], j) <==> s[j] == c
  {
    assert s[j..j + 1] == [s[j]];
  }

  /** Splitting on one character gives one more piece than there are occurrences of it. */
  lemma {:induction false} SplitCount(text: string, c: char)
    ensures |Split(text, [c])| == Count(text, c) + 1
    decreases |text|
  {
    var r := IndexOf(text, [c]);
    if r.None? {
      forall j | 0 <= j < |text| ensures text[j] != c {
        OccursChar(text, c, j);
      }
      CountAbsent(text, c);
    } else {
      var i := r.value;
      var rest := text[i + 1..];
      SplitAt(text, [c], i);
      SplitCount(rest, c);
      forall j | 0 <= j < i ensures text[..i][j] != c {
        OccursChar(text, c, j);
      }
      CountAbsent(text[..i], c);
      assert text == text[..i] + ([c] + rest);
      CountAppend(text[..i], [c] + rest, c);
      assert ([c] + rest)[1..] == rest;
      assert Count([c] + rest, c) == 1 + Count(rest, c);
    }
  }
}
