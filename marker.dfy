/** The marker enum, its sentinel table, and `parse_marked_blocks`, which every reply of the
    language model goes through. The regular expression
        START (?:\w+\s+)? (.*?) END        (DOTALL, findall)
    is modelled as a scanner: find the start sentinel, find the first end sentinel after it,
    drop a `\w+\s+` tag that directly follows the start sentinel, and go on after the end
    sentinel. */
module Markers {
  import opened Wrappers
  import opened Text

  /** The sections a reply can carry. */
  datatype Marker =
    | Implementation | Dependencies | Tests | Arguments | ArgumentTypes
    | Usage | Match | Summary | EnvVariables | Output

  /** The enum value, which is also the member's name. */
  function Value(m: Marker): string {
    match m
    case Implementation => "IMPLEMENTATION"
    case Dependencies => "DEPENDENCIES"
    case Tests => "TESTS"
    case Arguments => "ARGUMENTS"
    case ArgumentTypes => "ARGUMENT_TYPES"
    case Usage => "USAGE"
    case Match => "MATCH"
    case Summary => "SUMMARY"
    case EnvVariables => "ENV_VARIABLES"
    case Output => "OUTPUT"
  }

  /** `for m in Marker` visits the members in declaration order. */
  const AllMarkers: seq<Marker> :=
    [Implementation, Dependencies, Tests, Arguments, ArgumentTypes,
     Usage, Match, Summary, EnvVariables, Output]

  /** The `markers` table: `markers[m.name]["start"]` and `markers[m.name]["end"]`. */
  function Start(m: Marker): string { "# START_" + Value(m) }
  function End(m: Marker): string { "# END_" + Value(m) }

  /** Position of a member in declaration order. */
  function Ordinal(m: Marker): nat {
    match m
    case Implementation => 0
    case Dependencies => 1
    case Tests => 2
    case Arguments => 3
    case ArgumentTypes => 4
    case Usage => 5
    case Match => 6
    case Summary => 7
    case EnvVariables => 8
    case Output => 9
  }

  /** Every member is visited, each exactly once, by the iteration. */
  lemma AllMarkersEnumerates()
    ensures forall m: Marker :: Ordinal(m) < |AllMarkers| && AllMarkers[Ordinal(m)] == m
    ensures forall i | 0 <= i < |AllMarkers| :: Ordinal(AllMarkers[i]) == i
  {
  }

  /** Values are upper-case words; in particular none holds '#' or a line break. */
  lemma ValueAlphabet(m: Marker)
    ensures |Value(m)| > 0
    ensures forall k | 0 <= k < |Value(m)| :: ('A' <= Value(m)[k] <= 'Z') || Value(m)[k] == '_'
  {
  }

  /** No value is a prefix of another member's value. */
  lemma ValuesPrefixFree(a: Marker, b: Marker)
    requires Value(a) <= Value(b)
    ensures a == b
  {
    assert Value(a)[0] == Value(b)[0];
    if Value(a)[0] == 'A' {
      assert Value(a)[8] == Value(b)[8];
    }
  }

  /** A sentinel starts with '#' and has neither '#' nor a line break after that. */
  predicate SentinelShaped(s: string) {
    |s| > 0 && s[0] == '#' && forall k | 1 <= k < |s| :: s[k] != '#' && s[k] != '\n'
  }

  lemma SentinelsShaped(m: Marker)
    ensures SentinelShaped(Start(m)) && SentinelShaped(End(m))
  {
    ValueAlphabet(m);
    assert forall k | 8 <= k < |Start(m)| :: Start(m)[k] == Value(m)[k - 8];
    assert forall k | 6 <= k < |End(m)| :: End(m)[k] == Value(m)[k - 6];
  }

  /** A shaped sentinel can occur in another only at index 0, that is, as a prefix. */
  lemma OccursOnlyAsPrefix(x: string, y: string, i: int)
    requires SentinelShaped(x) && SentinelShaped(y) && OccursAt(y, x, i)
    ensures i == 0 && x <= y
  {
    assert y[i] == x[0];
    assert y[..|x|] == y[i..i + |x|];
  }

  /** No sentinel occurs inside any other sentinel of the table (of the same or of another
      marker): wherever one sentinel occurs in another, the two are the same sentinel of the
      same marker. */
  lemma SentinelsDisjoint(a: Marker, b: Marker, x: string, y: string)
    requires x == Start(a) || x == End(a)
    requires y == Start(b) || y == End(b)
    requires Contains(y, x)
    ensures a == b && x == y
  {
    SentinelsShaped(a);
    SentinelsShaped(b);
    OccursOnlyAsPrefix(x, y, IndexOf(y, x).value);
    KindsDiffer(a, b);
    if x == Start(a) {
      StartPrefix(a, b);
    } else {
      EndPrefix(a, b);
    }
  }

  /** A start sentinel is never a prefix of an end sentinel, nor the other way round. */
  lemma KindsDiffer(a: Marker, b: Marker)
    ensures !(Start(a) <= End(b)) && !(End(a) <= Start(b))
  {
    assert Start(a)[2] == 'S' && End(b)[2] == 'E';
    assert End(a)[2] == 'E' && Start(b)[2] == 'S';
  }

  lemma StartPrefix(a: Marker, b: Marker)
    requires Start(a) <= Start(b)
    ensures a == b
  {
    assert Value(a) == Start(a)[8..] && Value(b) == Start(b)[8..];
    ValuesPrefixFree(a, b);
  }

  lemma EndPrefix(a: Marker, b: Marker)
    requires End(a) <= End(b)
    ensures a == b
  {
    assert Value(a) == End(a)[6..] && Value(b) == End(b)[6..];
    ValuesPrefixFree(a, b);
  }

  /** Number of word characters `t` starts with. */
  function WordRun(t: string): (n: nat)
    ensures n <= |t|
    ensures forall k | 0 <= k < n :: IsWordChar(t[k])
    ensures n < |t| ==> !IsWordChar(t[n])
  {
    if |t| > 0 && IsWordChar(t[0]) then 1 + WordRun(t[1..]) else 0
  }

  /** How much of `t` the optional group `(?:\w+\s+)?` consumes: a run of word characters
      and the run of whitespace after it, or nothing when either run is empty. */
  function TagLength(t: string): (n: nat)
    ensures n <= |t|
    ensures n == 0 || IsWordChar(t[0])
  {
    var w := WordRun(t);
    var s := LeadingSpace(t[w..]);
    if w == 0 || s == 0 then 0 else w + s
  }

  /** The captured group `(.*?)`: what follows the tag. */
  function DropTag(t: string): (r: string)
    ensures |r| <= |t| && r == t[|t| - |r|..]
    ensures |r| < |t| ==> IsWordChar(t[0])
  {
    t[TagLength(t)..]
  }

  /** One match of the pattern in `text`: the text between the first start sentinel `s`
      and the first end sentinel `e` after it, and the text after that end sentinel, where
      `findall` goes on. No match when either sentinel is missing: a start sentinel with no
      end sentinel after it has no later start with one either. */
  datatype Scan = NoMatch | Found(between: string, rest: string)

  function NextMatch(s: string, e: string, text: string): (r: Scan)
    requires |e| > 0
    ensures r.Found? ==> |r.rest| < |text|
  {
    match IndexOf(text, s)
    case None => NoMatch
    case Some(i) =>
      var body := text[i + |s|..];
      match IndexOf(body, e)
      case None => NoMatch
      case Some(j) => Found(body[..j], body[j + |e|..])
  }

  /** What `findall` returns for the pattern between sentinels `s` and `e`. The tag is
      taken off the text before the end sentinel: as '#' is neither `\w` nor `\s`, the
      greedy group cannot run into the end sentinel. */
  function Blocks(s: string, e: string, text: string): (r: seq<string>)
    requires |e| > 0
    decreases |text|
  {
    match NextMatch(s, e, text)
    case NoMatch => []
    case Found(between, rest) => [DropTag(between)] + Blocks(s, e, rest)
  }

  /** The matches, stripped, joined by line breaks. */
  function ParseBetween(s: string, e: string, contents: string): (r: string)
    requires |e| > 0
    ensures !Contains(contents, s) ==> r == ""
  {
    Join("\n", StripAll(Blocks(s, e, contents)))
  }

  /** `parse_marked_blocks(marker, contents)`. */
  function ParseMarkedBlocks(m: Marker, contents: string): (r: string)
    ensures !Contains(contents, Start(m)) ==> r == ""
  {
    ParseBetween(Start(m), End(m), contents)
  }

  lemma BlocksCons(s: string, e: string, text: string, between: string, rest: string)
    requires |e| > 0 && NextMatch(s, e, text) == Found(between, rest)
    ensures Blocks(s, e, text) == [DropTag(between)] + Blocks(s, e, rest)
  {
  }

  lemma BlocksNone(s: string, e: string, text: string)
    requires |e| > 0 && NextMatch(s, e, text) == NoMatch
    ensures Blocks(s, e, text) == []
  {
  }

  /** A start sentinel followed by no end sentinel yields the empty string as well. */
  lemma NoEndAfterStart(m: Marker, contents: string, i: nat)
    requires IndexOf(contents, Start(m)) == Some(i)
    requires !Contains(contents[i + |Start(m)|..], End(m))
    ensures ParseMarkedBlocks(m, contents) == ""
  {
    NoEndBetween(Start(m), End(m), contents, i);
  }

  lemma NoEndBetween(s: string, e: string, contents: string, i: nat)
    requires |e| > 0
    requires IndexOf(contents, s) == Some(i)
    requires !Contains(contents[i + |s|..], e)
    ensures ParseBetween(s, e, contents) == ""
  {
    var body := contents[i + |s|..];
    assert IndexOf(body, e).None?;
    assert NextMatch(s, e, contents) == NoMatch;
    BlocksNone(s, e, contents);
    assert StripAll(Blocks(s, e, contents)) == [];
  }

  /** `contents` with the section `c` between sentinels `s` and `e`, as a reply lays it out. */
  function Wrap(s: string, e: string, c: string): string {
    s + "\n" + c + "\n" + e
  }

  /** The first occurrence of a given index is what IndexOf finds. */
  lemma FirstOccurrence(text: string, s: string, i: nat)
    requires OccursAt(text, s, i)
    requires forall j | 0 <= j < i :: !OccursAt(text, s, j)
    ensures IndexOf(text, s) == Some(i)
  {
  }

  /** A gap free of a sentinel, followed by that sentinel: the sentinel is found right after
      the gap (no occurrence can straddle the two, as '#' opens a sentinel only once). */
  lemma SkipGap(g: string, t: string, s: string)
    requires SentinelShaped(s) && !Contains(g, s) && OccursAt(t, s, 0)
    ensures IndexOf(g + t, s) == Some(|g|)
  {
    var text := g + t;
    assert text[|g|..|g| + |s|] == t[..|s|];
    forall j | 0 <= j < |g| ensures !OccursAt(text, s, j) {
      NotInGap(g, t, s, j);
    }
    FirstOccurrence(text, s, |g|);
  }

  lemma NotInGap(g: string, t: string, s: string, j: nat)
    requires SentinelShaped(s) && !Contains(g, s) && OccursAt(t, s, 0) && j < |g|
    ensures !OccursAt(g + t, s, j)
  {
    if j + |s| <= |g| {
      assert (g + t)[j..j + |s|] == g[j..j + |s|];
      assert !OccursAt(g, s, j);
    } else if j + |s| <= |g + t| {
      assert (g + t)[j..j + |s|][|g| - j] == t[0];
      assert s[|g| - j] != '#';
    }
  }

  /** In `pre + c + "\n" + e + rest`, with no '#' in `pre` and no `e` in `c`, the first `e` is
      the one after the line break. */
  lemma EndFound(pre: string, c: string, e: string, rest: string)
    requires SentinelShaped(e) && !Contains(c, e)
    requires forall k | 0 <= k < |pre| :: pre[k] != '#'
    ensures IndexOf(pre + c + "\n" + e + rest, e) == Some(|pre| + |c| + 1)
  {
    var body := pre + c + "\n" + e + rest;
    var k := |pre| + |c| + 1;
    assert body[k..k + |e|] == e;
    forall j | 0 <= j < k ensures !OccursAt(body, e, j) {
      NotBeforeEnd(pre, c, e, rest, j);
    }
    FirstOccurrence(body, e, k);
  }

  lemma NotBeforeEnd(pre: string, c: string, e: string, rest: string, j: nat)
    requires SentinelShaped(e) && !Contains(c, e)
    requires forall k | 0 <= k < |pre| :: pre[k] != '#'
    requires j < |pre| + |c| + 1
    ensures !OccursAt(pre + c + "\n" + e + rest, e, j)
  {
    var body := pre + c + "\n" + e + rest;
    if j + |e| <= |body| {
      if j < |pre| {
        assert body[j..j + |e|][0] == pre[j];
      } else if j + |e| <= |pre| + |c| {
        assert c[j - |pre|..j - |pre| + |e|] == body[j..j + |e|];
        assert !OccursAt(c, e, j - |pre|);
      } else {
        var d := |pre| + |c| - j;
        assert body[j..j + |e|][d] == '\n';
        assert e[d] != '\n';
      }
    }
  }

  /** Both sentinels found: the match is what lies between them. */
  lemma MatchFound(s: string, e: string, text: string, i: nat, j: nat)
    requires |e| > 0
    requires IndexOf(text, s) == Some(i)
    requires IndexOf(text[i + |s|..], e) == Some(j)
    ensures NextMatch(s, e, text) == Found(text[i + |s|..][..j], text[i + |s|..][j + |e|..])
  {
  }

  /** The start sentinel after a gap free of it is found right after the gap. */
  lemma StartAfterGap(s: string, g: string, body: string, text: string)
    requires SentinelShaped(s) && !Contains(g, s)
    requires text == g + s + body
    ensures IndexOf(text, s) == Some(|g|) && text[|g| + |s|..] == body
  {
    assert text == g + (s + body);
    SkipGap(g, s + body, s);
  }

  /** A section followed by its end sentinel: the end sentinel is found right after it. */
  lemma EndAfterSection(e: string, pre: string, c: string, rest: string, body: string)
    requires SentinelShaped(e) && !Contains(c, e)
    requires forall k | 0 <= k < |pre| :: pre[k] != '#'
    requires body == pre + c + "\n" + e + rest
    ensures IndexOf(body, e) == Some(|pre| + |c| + 1)
    ensures body[..|pre| + |c| + 1] == pre + c + "\n" && body[|pre| + |c| + 1 + |e|..] == rest
  {
    EndFound(pre, c, e, rest);
  }

  /** The start sentinel after a gap free of it, then a body whose first end sentinel is at
      `j`: the match is the body up to `j`. */
  lemma MatchAfterGap(s: string, e: string, g: string, body: string, j: nat, text: string)
    requires SentinelShaped(s) && |e| > 0 && !Contains(g, s)
    requires IndexOf(body, e) == Some(j)
    requires text == g + s + body
    ensures NextMatch(s, e, text) == Found(body[..j], body[j + |e|..])
  {
    StartAfterGap(s, g, body, text);
    MatchFound(s, e, text, |g|, j);
  }

  /** Text that does not start with a word character carries no tag. */
  lemma NoTag(t: string)
    requires |t| == 0 || !IsWordChar(t[0])
    ensures DropTag(t) == t
  {
  }

  /** One section after a gap: its match is the section between two line breaks. */
  lemma BlocksWrap(s: string, e: string, g: string, c: string, rest: string)
    requires SentinelShaped(s) && SentinelShaped(e)
    requires !Contains(g, s) && !Contains(c, e)
    ensures Blocks(s, e, g + Wrap(s, e, c) + rest) == ["\n" + c + "\n"] + Blocks(s, e, rest)
  {
    var text := g + Wrap(s, e, c) + rest;
    var between := "\n" + c + "\n";
    var body := "\n" + c + "\n" + e + rest;
    assert text == g + s + body;
    EndAfterSection(e, "\n", c, rest, body);
    MatchAfterGap(s, e, g, body, |between|, text);
    NoTag(between);
    BlocksCons(s, e, text, between, rest);
  }

  /** A reply made of gaps around sections. */
  function Document(s: string, e: string, gaps: seq<string>, sections: seq<string>): string
    requires |gaps| == |sections| + 1
    decreases |sections|
  {
    if |sections| == 0 then gaps[0]
    else gaps[0] + Wrap(s, e, sections[0]) + Document(s, e, gaps[1..], sections[1..])
  }

  lemma {:induction false} DocumentBlocks(s: string, e: string, gaps: seq<string>, sections: seq<string>)
    requires SentinelShaped(s) && SentinelShaped(e)
    requires |gaps| == |sections| + 1
    requires forall i | 0 <= i < |gaps| :: !Contains(gaps[i], s)
    requires forall i | 0 <= i < |sections| :: !Contains(sections[i], e)
    ensures |Blocks(s, e, Document(s, e, gaps, sections))| == |sections|
    ensures forall i | 0 <= i < |sections| ::
              Blocks(s, e, Document(s, e, gaps, sections))[i] == "\n" + sections[i] + "\n"
    decreases |sections|
  {
    if |sections| == 0 {
      BlocksNone(s, e, gaps[0]);
    } else {
      DocumentBlocks(s, e, gaps[1..], sections[1..]);
      BlocksWrap(s, e, gaps[0], sections[0], Document(s, e, gaps[1..], sections[1..]));
    }
  }

  /** Round trip: decoding a reply built from sections (and any gaps free of the start
      sentinel) gives back every section, stripped, in order, one per line. Each match ends
      at the first end sentinel after its start, so no two sections are merged. */
  lemma DecodeDocument(s: string, e: string, gaps: seq<string>, sections: seq<string>)
    requires SentinelShaped(s) && SentinelShaped(e)
    requires |gaps| == |sections| + 1
    requires forall i | 0 <= i < |gaps| :: !Contains(gaps[i], s)
    requires forall i | 0 <= i < |sections| :: !Contains(sections[i], e)
    ensures ParseBetween(s, e, Document(s, e, gaps, sections)) == Join("\n", StripAll(sections))
  {
    DocumentBlocks(s, e, gaps, sections);
    var blocks := Blocks(s, e, Document(s, e, gaps, sections));
    forall i | 0 <= i < |sections| ensures Strip(blocks[i]) == Strip(sections[i]) {
      StripPadded("\n", sections[i], "\n");
    }
    assert StripAll(blocks) == StripAll(sections);
  }

  lemma NoneInEmpty(s: string)
    requires |s| > 0
    ensures !Contains("", s)
  {
  }

  /** The round trip for one section: `start + "\n" + c + "\n" + end` decodes to `c.strip()`. */
  lemma RoundTrip(m: Marker, c: string)
    requires !Contains(c, End(m))
    ensures ParseMarkedBlocks(m, Wrap(Start(m), End(m), c)) == Strip(c)
  {
    SentinelsShaped(m);
    var s, e := Start(m), End(m);
    NoneInEmpty(s);
    var doc := Document(s, e, ["", ""], [c]);
    assert ["", ""][1..] == [""] && [c][1..] == [];
    assert Document(s, e, [""], []) == "";
    assert doc == Wrap(s, e, c);
    DecodeDocument(s, e, ["", ""], [c]);
  }

  /** Two sections of the same marker with anything between them that has no start
      sentinel (end sentinels included) come out as two lines, not one merged block. */
  lemma SectionsNotMerged(m: Marker, c1: string, gap: string, c2: string)
    requires !Contains(c1, End(m)) && !Contains(c2, End(m)) && !Contains(gap, Start(m))
    ensures ParseMarkedBlocks(m, Wrap(Start(m), End(m), c1) + gap + Wrap(Start(m), End(m), c2))
            == Strip(c1) + "\n" + Strip(c2)
  {
    SentinelsShaped(m);
    var s, e := Start(m), End(m);
    NoneInEmpty(s);
    var doc := Document(s, e, ["", gap, ""], [c1, c2]);
    assert Document(s, e, [gap, ""], [c2]) == gap + Wrap(s, e, c2);
    assert doc == Wrap(s, e, c1) + gap + Wrap(s, e, c2);
    DecodeDocument(s, e, ["", gap, ""], [c1, c2]);
    assert StripAll([c1, c2]) == [Strip(c1), Strip(c2)];
  }

  lemma {:induction false} WordRunIs(t: string, n: nat)
    requires n <= |t| && forall k | 0 <= k < n :: IsWordChar(t[k])
    requires n < |t| ==> !IsWordChar(t[n])
    ensures WordRun(t) == n
  {
    if n > 0 {
      assert t[0] == t[..n][0];
      WordRunIs(t[1..], n - 1);
    }
  }

  /** A tag (word characters) followed by whitespace, which `x` starts with: the tag and
      all of the whitespace are consumed. */
  lemma TagSkipped(tag: string, x: string, t: string)
    requires |tag| > 0 && forall k | 0 <= k < |tag| :: IsWordChar(tag[k])
    requires |x| > 0 && IsSpace(x[0])
    requires t == tag + x
    ensures DropTag(t) == TrimStart(x)
  {
    WordRunIs(t, |tag|);
    assert t[|tag|..] == x;
    assert LeadingSpace(x) > 0;
    assert t[|tag| + LeadingSpace(x)..] == x[LeadingSpace(x)..];
  }

  /** A tag (word characters, then whitespace) right after the start sentinel, such as
      `python` and a line break, is not part of the decoded section. */
  lemma TagDropped(m: Marker, tag: string, ws: string, c: string)
    requires |tag| > 0 && forall k | 0 <= k < |tag| :: IsWordChar(tag[k])
    requires |ws| > 0 && AllSpace(ws)
    requires !Contains(c, End(m))
    ensures ParseMarkedBlocks(m, Start(m) + tag + ws + c + "\n" + End(m)) == Strip(c)
  {
    SentinelsShaped(m);
    var s, e := Start(m), End(m);
    var text := s + tag + ws + c + "\n" + e;
    var x := ws + c + "\n";
    TagBlocks(s, e, tag, ws, c, text);
    ParseTagged(s, e, ws, c, text);
  }

  lemma ParseTagged(s: string, e: string, ws: string, c: string, text: string)
    requires |e| > 0 && AllSpace(ws)
    requires Blocks(s, e, text) == [TrimStart(ws + c + "\n")]
    ensures ParseBetween(s, e, text) == Strip(c)
  {
    var x := ws + c + "\n";
    ParseOneBlock(s, e, text, TrimStart(x));
    StripTrimStart(x);
    StripPadded(ws, c, "\n");
  }

  lemma ParseOneBlock(s: string, e: string, text: string, block: string)
    requires |e| > 0 && Blocks(s, e, text) == [block]
    ensures ParseBetween(s, e, text) == Strip(block)
  {
    assert StripAll([block]) == [Strip(block)];
  }

  lemma TagBlocks(s: string, e: string, tag: string, ws: string, c: string, text: string)
    requires SentinelShaped(s) && SentinelShaped(e)
    requires |tag| > 0 && forall k | 0 <= k < |tag| :: IsWordChar(tag[k])
    requires |ws| > 0 && AllSpace(ws)
    requires !Contains(c, e)
    requires text == s + tag + ws + c + "\n" + e
    ensures Blocks(s, e, text) == [TrimStart(ws + c + "\n")]
  {
    var between := tag + ws + c + "\n";
    TagMatch(s, e, tag, ws, c, text);
    TagSkipped(tag, ws + c + "\n", between);
    BlocksCons(s, e, text, between, "");
    BlocksNone(s, e, "");
  }

  lemma TagMatch(s: string, e: string, tag: string, ws: string, c: string, text: string)
    requires SentinelShaped(s) && SentinelShaped(e)
    requires |tag| > 0 && forall k | 0 <= k < |tag| :: IsWordChar(tag[k])
    requires |ws| > 0 && AllSpace(ws)
    requires !Contains(c, e)
    requires text == s + tag + ws + c + "\n" + e
    ensures NextMatch(s, e, text) == Found(tag + ws + c + "\n", "")
  {
    var pre := tag + ws;
    TagHasNoHash(tag, ws);
    NoneInEmpty(s);
    var body := pre + c + "\n" + e + "";
    assert text == "" + s + body;
    EndAfterSection(e, pre, c, "", body);
    MatchAfterGap(s, e, "", body, |pre| + |c| + 1, text);
  }

  lemma TagHasNoHash(tag: string, ws: string)
    requires forall k | 0 <= k < |tag| :: IsWordChar(tag[k])
    requires AllSpace(ws)
    ensures forall k | 0 <= k < |tag + ws| :: (tag + ws)[k] != '#'
  {
    forall k | 0 <= k < |tag + ws| ensures (tag + ws)[k] != '#' {
      if k < |tag| { assert (tag + ws)[k] == tag[k]; } else { assert (tag + ws)[k] == ws[k - |tag|]; }
    }
  }
}
