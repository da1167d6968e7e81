/** Which lines open and close a visual fence (app/visualization/blocks.py), on their characters, and that a fence in
    ordinary text comes out as the block it was written for. */
module Fences {
  import opened Outcomes
  import opened Text
  import opened Blocks

  function Repeat(c: char, n: nat): (r: string)
    ensures |r| == n && forall i :: 0 <= i < n ==> r[i] == c
  {
    seq(n, _ => c)
  }

  // A line that opens a fence: at most three blanks, at least three equal backticks or tildes, and then an info string
  // that contains no backtick.
  ghost predicate Opens(line: string, indent: nat, c: char, n: nat, info: string) {
    && indent <= 3 && n >= 3 && (c == '`' || c == '~')
    && line == Repeat(' ', indent) + Repeat(c, n) + info
    && '`' !in info && (info == "" || info[0] != c)
  }

  ghost predicate IsOrdinary(line: string) { forall indent, c, n, info :: !Opens(line, indent, c, n, info) }

  // A line that closes a fence of n marks: at least as many marks and nothing else, once it is stripped.
  ghost predicate ClosesFence(line: string, c: char, n: nat) {
    |Strip(line)| >= n && forall i :: 0 <= i < |Strip(line)| ==> Strip(line)[i] == c
  }

  // The first closing line from `from` on is `close`, or there is none and `close` is the number of lines.
  ghost predicate ClosesAt(lines: seq<Line>, from: nat, c: char, n: nat, close: nat) {
    && from <= close <= |lines| && (close < |lines| ==> ClosesFence(lines[close].text, c, n))
    && forall k :: from <= k < close ==> !ClosesFence(lines[k].text, c, n)
  }

  // A lower-case word and its spellings: the same letters up to case.
  predicate SameLetters(s: string, w: string) {
    |s| == |w| && forall i :: 0 <= i < |w| ==> s[i] == w[i] || s[i] as int + 32 == w[i] as int
  }

  // The first word of an info string, starting at character a, is w up to case.
  ghost predicate SaysAt(info: string, a: nat, w: string) {
    && a + |w| <= |info|
    && (forall i :: 0 <= i < a ==> IsSpace(info[i]))
    && SameLetters(info[a..a + |w|], w)
    && (a + |w| < |info| ==> IsSpace(info[a + |w|]))
  }

  ghost predicate Says(info: string, w: string) { exists a: nat :: SaysAt(info, a, w) }

  predicate IsLowerWord(w: string) { w != "" && forall i :: 0 <= i < |w| ==> 'a' <= w[i] <= 'z' }

  // ------------------------------------------------------------------ opening lines

  lemma RunOfRepeat(c: char, n: nat, rest: string)
    requires rest == "" || rest[0] != c
    ensures Run(Repeat(c, n) + rest, c) == n
  {
    var line := Repeat(c, n) + rest;
    assert forall i :: 0 <= i < n ==> line[i] == c;
    assert n < |line| ==> line[n] != c;
  }

  lemma RunIsRepeat(s: string, c: char)
    ensures s == Repeat(c, Run(s, c)) + s[Run(s, c)..]
  {
  }

  lemma OpenedIsWritten(line: string, f: Fence) returns (indent: nat)
    requires OpenFence(line) == Some(f)
    ensures Opens(line, indent, f.mark, f.length, f.info)
  {
    indent := Run(line, ' ');
    var rest := line[indent..];
    RunIsRepeat(line, ' ');
    RunIsRepeat(rest, f.mark);
    assert rest == Repeat(f.mark, f.length) + f.info;
    assert line == Repeat(' ', indent) + Repeat(f.mark, f.length) + f.info;
  }

  lemma WrittenIsOpened(line: string, indent: nat, c: char, n: nat, info: string)
    requires Opens(line, indent, c, n, info)
    ensures OpenFence(line) == Some(Fence(c, n, info))
  {
    var marks := Repeat(c, n) + info;
    assert line == Repeat(' ', indent) + marks;
    RunOfRepeat(' ', indent, marks);
    assert line[indent..] == marks;
    RunOfRepeat(c, n, info);
    assert marks[n..] == info;
  }

  /** Which lines open a fence, and which fence. */
  lemma OpensIff(line: string, f: Fence)
    ensures OpenFence(line) == Some(f) <==> exists indent :: Opens(line, indent, f.mark, f.length, f.info)
  {
    if OpenFence(line) == Some(f) {
      var indent := OpenedIsWritten(line, f);
    }
    if indent :| Opens(line, indent, f.mark, f.length, f.info) {
      WrittenIsOpened(line, indent, f.mark, f.length, f.info);
    }
  }

  lemma OrdinaryIff(line: string)
    ensures IsOrdinary(line) <==> TagOf(line).NoFence?
  {
    if OpenFence(line).Some? {
      OpensIff(line, OpenFence(line).value);
    }
    forall indent, c, n, info | Opens(line, indent, c, n, info)
      ensures OpenFence(line).Some?
    {
      OpensIff(line, Fence(c, n, info));
    }
  }

  lemma ClosesIff(line: string, f: Fence)
    ensures Closes(line, f) <==> ClosesFence(line, f.mark, f.length)
  {
  }

  // ------------------------------------------------------------------ info strings

  lemma {:induction false} FirstWordIs(s: string, w: string)
    requires w != "" && |w| <= |s| && (|w| < |s| ==> IsSpace(s[|w|]))
    requires forall i :: 0 <= i < |w| ==> s[i] == w[i] && !IsSpace(s[i])
    ensures FirstWord(s) == w
  {
    assert [w[0]] + w[1..] == w;
    if |w| == 1 {
      assert w[1..] == "";
    } else {
      FirstWordIs(s[1..], w[1..]);
    }
  }

  // The first word of a text starts it and ends at its end or before whitespace.
  lemma {:induction false} FirstWordEnds(s: string)
    ensures var w := FirstWord(s);
            && w <= s && (|w| < |s| ==> IsSpace(s[|w|])) && (forall i :: 0 <= i < |w| ==> !IsSpace(w[i]))
            && (s != "" && !IsSpace(s[0]) ==> w != "")
  {
    if s != "" && !IsSpace(s[0]) {
      FirstWordEnds(s[1..]);
    }
  }

  // Stripping leaves a run of the text from the first to the last character that is not whitespace.
  // A prefix of a suffix, with nothing but whitespace around it.
  lemma MiddleOf(s: string, t: string, m: string) returns (a: nat)
    requires IsSuffix(t, s) && forall i :: 0 <= i < |s| - |t| ==> IsSpace(s[i])
    requires m <= t && forall i :: |m| <= i < |t| ==> IsSpace(t[i])
    ensures a + |m| <= |s| && m == s[a..a + |m|]
    ensures forall i :: 0 <= i < a ==> IsSpace(s[i])
    ensures forall i :: a + |m| <= i < |s| ==> IsSpace(s[i])
  {
    a := |s| - |t|;
    assert forall i :: a <= i < |s| ==> s[i] == t[i - a];
  }

  lemma StripIsMiddle(s: string) returns (a: nat)
    ensures a + |Strip(s)| <= |s| && Strip(s) == s[a..a + |Strip(s)|]
    ensures forall i :: 0 <= i < a ==> IsSpace(s[i])
    ensures forall i :: a + |Strip(s)| <= i < |s| ==> IsSpace(s[i])
    ensures Strip(s) != "" ==> !IsSpace(Strip(s)[0])
  {
    a := MiddleOf(s, StripStart(s), Strip(s));
  }

  lemma LowerIff(s: string, w: string)
    requires IsLowerWord(w)
    ensures Lower(s) == w <==> SameLetters(s, w)
  {
    if SameLetters(s, w) {
      assert forall i :: 0 <= i < |w| ==> Lower(s)[i] == w[i];
    } else if |s| == |w| {
      var i :| 0 <= i < |w| && s[i] != w[i] && s[i] as int + 32 != w[i] as int;
      assert Lower(s)[i] != w[i];
    }
  }

  lemma WordsHaveNoSpace(s: string, w: string)
    requires IsLowerWord(w) && SameLetters(s, w)
    ensures forall i :: 0 <= i < |s| ==> !IsSpace(s[i])
  {
    forall i | 0 <= i < |s|
      ensures !IsSpace(s[i])
    {
      assert 'a' <= w[i] <= 'z';
    }
  }

  // A word that starts the text after whitespace and ends before whitespace starts what stripping leaves.
  lemma StripKeepsWord(info: string, a: nat, word: string)
    requires word != "" && a + |word| <= |info| && info[a..a + |word|] == word
    requires (forall i :: 0 <= i < |word| ==> !IsSpace(word[i])) && forall i :: 0 <= i < a ==> IsSpace(info[i])
    ensures word <= Strip(info) && Strip(info) <= info[a..]
  {
    var t := Strip(info);
    var b := StripIsMiddle(info);
    var last := a + |word| - 1;
    assert info[a] == word[0] && info[last] == word[|word| - 1];
    assert b <= a && last < b + |t|;
    assert t[0] == info[b] && !IsSpace(info[b]);
    assert a == b;
    assert t[..|word|] == word;
  }

  lemma SaidIsFirst(info: string, a: nat, w: string)
    requires IsLowerWord(w) && SaysAt(info, a, w)
    ensures Lower(FirstWord(Strip(info))) == w
  {
    var t, word := Strip(info), info[a..a + |w|];
    WordsHaveNoSpace(word, w);
    StripKeepsWord(info, a, word);
    assert |w| < |t| ==> t[|w|] == info[a..][|w|];
    FirstWordIs(t, word);
    LowerIff(word, w);
  }

  lemma FirstIsSaid(info: string, w: string) returns (a: nat)
    requires IsLowerWord(w) && Lower(FirstWord(Strip(info))) == w
    ensures SaysAt(info, a, w)
  {
    var t := Strip(info);
    a := StripIsMiddle(info);
    FirstWordEnds(t);
    LowerIff(FirstWord(t), w);
    assert info[a..a + |w|] == FirstWord(t);
    assert |w| < |t| ==> t[|w|] == info[a + |w|];
  }

  /** When the language tag of a fence is a given word. */
  lemma SaysIff(info: string, w: string)
    requires IsLowerWord(w)
    ensures Says(info, w) <==> Lower(FirstWord(Strip(info))) == w
  {
    if a: nat :| SaysAt(info, a, w) {
      SaidIsFirst(info, a, w);
    }
    if Lower(FirstWord(Strip(info))) == w {
      var a := FirstIsSaid(info, w);
    }
  }

  lemma UntaggedIff(info: string)
    ensures Lower(FirstWord(Strip(info))) == "" <==> Blank(info)
  {
    BlankIffStripped(info);
    var a := StripIsMiddle(info);
    FirstWordEnds(Strip(info));
  }

  // ------------------------------------------------------------------ what a line opens

  // The fence with this info string is for this kind: tagged so, or a Manim spec in an untagged or JSON fence.
  ghost predicate IsFor(s: Settings, lines: seq<Line>, i: nat, info: string, kind: Kind, close: nat)
    requires i < close <= |lines|
  {
    match kind
    case Mermaid => Says(info, "mermaid")
    case Manim =>
      || Says(info, "manim")
      || ((Says(info, "json") || Blank(info)) && close < |lines| && IsSpec(s.json(Source(lines, i + 1, close))))
  }

  ghost predicate OpensFor(s: Settings, lines: seq<Line>, i: nat, kind: Kind, close: nat, indent: nat, c: char, n: nat,
                           info: string)
    requires i < |lines|
  {
    && Opens(lines[i].text, indent, c, n, info) && ClosesAt(lines, i + 1, c, n, close)
    && IsFor(s, lines, i, info, kind, close)
  }

  lemma CloseFound(lines: seq<Line>, from: nat, f: Fence, closes: Line -> bool, close: nat)
    requires from <= |lines| && forall l :: closes(l) <==> Closes(l.text, f)
    ensures ClosesAt(lines, from, f.mark, f.length, close) <==> close == FindClose(lines, from, closes)
  {
    forall k | from <= k < |lines|
      ensures closes(lines[k]) <==> ClosesFence(lines[k].text, f.mark, f.length)
    {
      ClosesIff(lines[k].text, f);
    }
  }

  // What a fence is for, by its tag.
  lemma ForIff(s: Settings, lines: seq<Line>, i: nat, f: Fence, kind: Kind, close: nat)
    requires i < close <= |lines|
    ensures var lang := Lower(FirstWord(Strip(f.info)));
            IsFor(s, lines, i, f.info, kind, close)
            <==> if kind == Mermaid then lang == "mermaid"
                 else lang == "manim" || ((lang == "json" || lang == "") && SpecBetween(s, lines, i + 1, close))
  {
    SaysIff(f.info, "mermaid");
    SaysIff(f.info, "manim");
    SaysIff(f.info, "json");
    UntaggedIff(f.info);
  }

  lemma TaggedMarkIff(s: Settings, lines: seq<Line>, i: nat, tagged: Tagged, kind: Kind, close: nat)
    requires i < |lines| && tagged.TaggedFence?
    ensures TaggedMark(s, lines, i, tagged) == Opening(kind, close)
            <==> && close == FindClose(lines, i + 1, tagged.closes)
                 && if kind == Mermaid then tagged.tag == MermaidTag
                    else tagged.tag == ManimTag || (tagged.tag == JsonTag && SpecBetween(s, lines, i + 1, close))
  {
  }

  lemma TagOfFence(line: string, f: Fence)
    requires OpenFence(line) == Some(f)
    ensures var lang, tagged := Lower(FirstWord(Strip(f.info))), TagOf(line);
            && tagged.TaggedFence? && (forall l :: tagged.closes(l) <==> Closes(l.text, f))
            && (tagged.tag == MermaidTag <==> lang == "mermaid") && (tagged.tag == ManimTag <==> lang == "manim")
            && (tagged.tag == JsonTag <==> lang == "json" || lang == "")
  {
  }

  lemma MarkOfFence(s: Settings, lines: seq<Line>, i: nat, f: Fence, kind: Kind, close: nat)
    requires i < |lines| && OpenFence(lines[i].text) == Some(f)
    ensures MarkOf(s, lines, i) == Opening(kind, close)
            <==> ClosesAt(lines, i + 1, f.mark, f.length, close) && IsFor(s, lines, i, f.info, kind, close)
  {
    var tagged := TagOf(lines[i].text);
    TagOfFence(lines[i].text, f);
    TaggedMarkIff(s, lines, i, tagged, kind, close);
    CloseFound(lines, i + 1, f, tagged.closes, close);
    if ClosesAt(lines, i + 1, f.mark, f.length, close) {
      ForIff(s, lines, i, f, kind, close);
    }
  }

  /** Which lines open a visual fence of which kind, and where it closes, on the characters of the lines: at most
      three blanks, three or more equal backticks or tildes and no backtick after them, with the kind as first word
      up to case, or with `json` or nothing before a body that is a Manim spec; and it closes at the first later
      line that is at least as many marks and nothing else. Every other line is plain. */
  lemma OpeningIff(s: Settings, lines: seq<Line>, i: nat, kind: Kind, close: nat)
    requires i < |lines|
    ensures PlanOf(s, lines)[i] == Opening(kind, close)
            <==> exists indent, c, n, info :: OpensFor(s, lines, i, kind, close, indent, c, n, info)
  {
    if PlanOf(s, lines)[i] == Opening(kind, close) {
      var f := OpenFence(lines[i].text).value;
      MarkOfFence(s, lines, i, f, kind, close);
      var indent := OpenedIsWritten(lines[i].text, f);
      assert OpensFor(s, lines, i, kind, close, indent, f.mark, f.length, f.info);
    }
    forall indent, c, n, info | OpensFor(s, lines, i, kind, close, indent, c, n, info)
      ensures PlanOf(s, lines)[i] == Opening(kind, close)
    {
      WrittenIsOpened(lines[i].text, indent, c, n, info);
      MarkOfFence(s, lines, i, Fence(c, n, info), kind, close);
    }
  }

  // ------------------------------------------------------------------ round trip

  lemma {:induction false} PlainUntil(p: Plan, start: nat, i: nat, j: nat)
    requires WellFormed(p) && start <= i <= j <= |p| && forall k :: i <= k < j ==> p[k].Plain?
    ensures Segments(p, start, i) == Segments(p, start, j)
    decreases j - i
  {
    if i < j {
      PlainUntil(p, start, i + 1, j);
    }
  }

  ghost predicate AllOrdinary(lines: seq<Line>, from: nat, upto: nat)
    requires from <= upto <= |lines|
  {
    forall k :: from <= k < upto ==> IsOrdinary(lines[k].text)
  }

  // Ordinary text, one fence of this kind from line i to line close, and more ordinary text.
  ghost predicate OneFenceIn(s: Settings, lines: seq<Line>, i: nat, close: nat, kind: Kind) {
    && i < close < |lines| && AllOrdinary(lines, 0, i) && AllOrdinary(lines, close + 1, |lines|)
    && exists indent, c, n, info :: OpensFor(s, lines, i, kind, close, indent, c, n, info)
  }

  lemma OrdinaryIsPlain(s: Settings, lines: seq<Line>, k: nat)
    requires k < |lines| && IsOrdinary(lines[k].text)
    ensures PlanOf(s, lines)[k].Plain?
  {
    OrdinaryIff(lines[k].text);
  }

  lemma OneFencePlan(s: Settings, lines: seq<Line>, i: nat, close: nat, kind: Kind)
    requires OneFenceIn(s, lines, i, close, kind)
    ensures var p := PlanOf(s, lines);
            p[i] == Opening(kind, close) && forall k :: 0 <= k < i || close < k < |p| ==> p[k].Plain?
  {
    OpeningIff(s, lines, i, kind, close);
    forall k | 0 <= k < i || close < k < |lines|
      ensures PlanOf(s, lines)[k].Plain?
    {
      OrdinaryIsPlain(s, lines, k);
    }
  }

  lemma OneFenceSegments(p: Plan, i: nat, close: nat, kind: Kind)
    requires WellFormed(p) && i < close < |p| && p[i] == Opening(kind, close)
    requires forall k :: 0 <= k < i || close < k < |p| ==> p[k].Plain?
    ensures Segments(p, 0, 0) == Pending(0, i) + [Fenced(i, close + 1, kind)] + Pending(close + 1, |p|)
  {
    PlainUntil(p, 0, 0, i);
    SegmentsAtFence(p, 0, i, close + 1);
    PlainToTheEnd(p, close + 1, close + 1);
  }

  function TextParts(lines: seq<Line>, from: nat, upto: nat): seq<Part>
    requires from <= upto <= |lines|
  {
    if from < upto then [TextPart(Source(lines, from, upto))] else []
  }

  lemma PendingParts(lines: seq<Line>, from: nat, upto: nat)
    requires from <= upto <= |lines|
    ensures AllIn(Pending(from, upto), |lines|)
    ensures PartsOf(lines, Pending(from, upto)) == TextParts(lines, from, upto)
  {
  }

  lemma PartsConcat(lines: seq<Line>, a: seq<Segment>, b: seq<Segment>)
    requires AllIn(a, |lines|) && AllIn(b, |lines|)
    ensures AllIn(a + b, |lines|) && PartsOf(lines, a + b) == PartsOf(lines, a) + PartsOf(lines, b)
  {
  }

  lemma FencedParts(lines: seq<Line>, i: nat, close: nat, kind: Kind)
    requires i < close < |lines|
    ensures AllIn([Fenced(i, close + 1, kind)], |lines|)
    ensures PartsOf(lines, [Fenced(i, close + 1, kind)])
            == [FencePart(kind, Source(lines, i + 1, close), Source(lines, i, close + 1))]
  {
  }

  function OneFenceSegs(lines: seq<Line>, i: nat, close: nat, kind: Kind): seq<Segment>
    requires i < close < |lines|
  {
    Pending(0, i) + [Fenced(i, close + 1, kind)] + Pending(close + 1, |lines|)
  }

  function OneFenceParts(lines: seq<Line>, i: nat, close: nat, kind: Kind): seq<Part>
    requires i < close < |lines|
  {
    TextParts(lines, 0, i) + [FencePart(kind, Source(lines, i + 1, close), Source(lines, i, close + 1))]
    + TextParts(lines, close + 1, |lines|)
  }

  lemma OneFenceFound(s: Settings, lines: seq<Line>, i: nat, close: nat, kind: Kind)
    requires OneFenceIn(s, lines, i, close, kind)
    ensures SegmentsOf(s, lines) == OneFenceSegs(lines, i, close, kind)
  {
    OneFencePlan(s, lines, i, close, kind);
    OneFenceSegments(PlanOf(s, lines), i, close, kind);
  }

  lemma OneFenceParted(lines: seq<Line>, i: nat, close: nat, kind: Kind)
    requires i < close < |lines|
    ensures AllIn(OneFenceSegs(lines, i, close, kind), |lines|)
    ensures PartsOf(lines, OneFenceSegs(lines, i, close, kind)) == OneFenceParts(lines, i, close, kind)
  {
    var before, fence, after := Pending(0, i), [Fenced(i, close + 1, kind)], Pending(close + 1, |lines|);
    PendingParts(lines, 0, i);
    PendingParts(lines, close + 1, |lines|);
    FencedParts(lines, i, close, kind);
    PartsConcat(lines, before, fence);
    PartsConcat(lines, before + fence, after);
  }

  lemma OneFenceAssembles(s: Settings, lines: seq<Line>, i: nat, close: nat, kind: Kind)
    requires OneFenceIn(s, lines, i, close, kind)
    ensures Parse(s, lines) == Assemble(s, OneFenceParts(lines, i, close, kind))
  {
    OneFenceFound(s, lines, i, close, kind);
    OneFenceParted(lines, i, close, kind);
  }

  lemma OneMorePart(s: Settings, parts: seq<Part>, part: Part)
    ensures Assemble(s, parts + [part]) == Assemble(s, parts) + BlockOf(s, part, Assemble(s, parts))
  {
    assert (parts + [part])[..|parts|] == parts;
  }

  lemma MermaidShown(s: Settings, part: Part, before: seq<Block>)
    requires part.FencePart? && part.kind == Mermaid && Showable(s, Mermaid, part.body, VisualsIn(before))
    ensures var (title, source) := Untitled(s, part.body);
            BlockOf(s, part, before) == [MermaidBlock(Id(|before| + 1), title, StripBreaks(source))]
  {
  }

  lemma ManimShown(s: Settings, part: Part, before: seq<Block>)
    requires part.FencePart? && part.kind == Manim && Showable(s, Manim, part.body, VisualsIn(before))
    ensures BlockOf(s, part, before) == [ManimBlock(Id(|before| + 1), s.json(part.body).title, part.body)]
  {
  }

  // The text block that a text makes, unless it is blank.
  function TextOf(content: string, id: string): seq<Block> {
    if Blank(content) then [] else [TextBlock(id, content)]
  }

  lemma TextFirst(s: Settings, text: string)
    requires !Blank(text)
    ensures Assemble(s, [TextPart(text)]) == [TextBlock(Id(1), text)]
  {
    OneMorePart(s, [], TextPart(text));
    assert [] + [TextPart(text)] == [TextPart(text)];
  }

  lemma FenceSecond(s: Settings, text: string, part: Part, fence: Block)
    requires !Blank(text) && BlockOf(s, part, [TextBlock(Id(1), text)]) == [fence]
    ensures Assemble(s, [TextPart(text)] + [part]) == [TextBlock(Id(1), text), fence]
  {
    TextFirst(s, text);
    OneMorePart(s, [TextPart(text)], part);
  }

  lemma TextLast(s: Settings, parts: seq<Part>, blocks: seq<Block>, lines: seq<Line>, from: nat)
    requires Assemble(s, parts) == blocks && from <= |lines|
    ensures Assemble(s, parts + TextParts(lines, from, |lines|))
            == blocks + TextOf(Source(lines, from, |lines|), Id(|blocks| + 1))
  {
    if from < |lines| {
      OneMorePart(s, parts, TextPart(Source(lines, from, |lines|)));
    } else {
      assert lines[from..|lines|] == [] && parts + [] == parts && blocks + [] == blocks;
    }
  }

  lemma NotBlankBefore(lines: seq<Line>, i: nat)
    requires i <= |lines| && !Blank(Source(lines, 0, i))
    ensures TextParts(lines, 0, i) == [TextPart(Source(lines, 0, i))]
  {
    assert lines[0..0] == [];
  }

  lemma OneFenceBlocks(s: Settings, lines: seq<Line>, i: nat, close: nat, kind: Kind, text: string, part: Part,
                       fence: Block)
    requires i < close < |lines| && !Blank(text) && text == Source(lines, 0, i)
    requires part == FencePart(kind, Source(lines, i + 1, close), Source(lines, i, close + 1))
    requires BlockOf(s, part, [TextBlock(Id(1), text)]) == [fence]
    ensures Assemble(s, OneFenceParts(lines, i, close, kind))
            == [TextBlock(Id(1), text), fence] + TextOf(Source(lines, close + 1, |lines|), Id(3))
  {
    NotBlankBefore(lines, i);
    FenceSecond(s, text, part, fence);
    TextLast(s, [TextPart(text)] + [part], [TextBlock(Id(1), text), fence], lines, close + 1);
  }

  // The block of a fence in ordinary text that starts with text.
  ghost predicate ReadAs(s: Settings, lines: seq<Line>, i: nat, close: nat, fence: Block) {
    && i < close < |lines|
    && Parse(s, lines) == [TextBlock(Id(1), Source(lines, 0, i)), fence]
                          + TextOf(Source(lines, close + 1, |lines|), Id(3))
  }

  lemma FenceIsRead(s: Settings, lines: seq<Line>, i: nat, close: nat, kind: Kind, part: Part, fence: Block)
    requires OneFenceIn(s, lines, i, close, kind) && !Blank(Source(lines, 0, i))
    requires part == FencePart(kind, Source(lines, i + 1, close), Source(lines, i, close + 1))
    requires BlockOf(s, part, [TextBlock(Id(1), Source(lines, 0, i))]) == [fence]
    ensures ReadAs(s, lines, i, close, fence)
  {
    OneFenceAssembles(s, lines, i, close, kind);
    OneFenceBlocks(s, lines, i, close, kind, Source(lines, 0, i), part, fence);
  }

  lemma NoVisualsYet(text: string)
    ensures VisualsIn([TextBlock(Id(1), text)]) == 0
  {
    assert [TextBlock(Id(1), text)][..0] == [];
  }

  /** Round trip of a Mermaid fence in ordinary text: the text, one block with the body without the line breaks
      around it, its title line as title, and the text after it. */
  lemma MermaidIsRead(s: Settings, lines: seq<Line>, i: nat, close: nat)
    requires OneFenceIn(s, lines, i, close, Mermaid) && !Blank(Source(lines, 0, i))
    requires Showable(s, Mermaid, Source(lines, i + 1, close), 0)
    ensures var (title, source) := Untitled(s, Source(lines, i + 1, close));
            ReadAs(s, lines, i, close, MermaidBlock(Id(2), title, StripBreaks(source)))
  {
    var part := FencePart(Mermaid, Source(lines, i + 1, close), Source(lines, i, close + 1));
    var (title, source) := Untitled(s, part.body);
    NoVisualsYet(Source(lines, 0, i));
    MermaidShown(s, part, [TextBlock(Id(1), Source(lines, 0, i))]);
    FenceIsRead(s, lines, i, close, Mermaid, part, MermaidBlock(Id(2), title, StripBreaks(source)));
  }

  /** Round trip of a Manim fence in ordinary text: the text, one block with the title and the body as it was
      written, and the text after it. */
  lemma ManimIsRead(s: Settings, lines: seq<Line>, i: nat, close: nat)
    requires OneFenceIn(s, lines, i, close, Manim) && !Blank(Source(lines, 0, i))
    requires Showable(s, Manim, Source(lines, i + 1, close), 0)
    ensures var body := Source(lines, i + 1, close);
            ReadAs(s, lines, i, close, ManimBlock(Id(2), s.json(body).title, body))
  {
    var part := FencePart(Manim, Source(lines, i + 1, close), Source(lines, i, close + 1));
    NoVisualsYet(Source(lines, 0, i));
    ManimShown(s, part, [TextBlock(Id(1), Source(lines, 0, i))]);
    FenceIsRead(s, lines, i, close, Manim, part, ManimBlock(Id(2), s.json(part.body).title, part.body));
  }

  // ------------------------------------------------------------------ bodies

  lemma {:induction false} GapIsStripped(gap: string, text: string)
    requires Blank(gap) && text != "" && !IsSpace(text[0])
    ensures StripStart(gap + text) == text
  {
    if gap != "" {
      assert (gap + text)[1..] == gap[1..] + text;
      GapIsStripped(gap[1..], text);
    } else {
      assert gap + text == text;
    }
  }

  /** The first line of a Mermaid body that is not blank is taken out of it if it is a title line, with the
      whitespace before it; and a body without a title line stays as it is. */
  lemma TitleIsTaken(s: Settings, gap: string, line: string, rest: string)
    requires Blank(gap) && line != "" && !IsSpace(line[0]) && '\n' !in line
    ensures Untitled(s, gap + (line + "\n" + rest))
            == if s.title(line).Some? then (s.title(line).value, rest) else (None, gap + (line + "\n" + rest))
    ensures Untitled(s, gap + line) == if s.title(line).Some? then (s.title(line).value, "") else (None, gap + line)
  {
    GapIsStripped(gap, line + "\n" + rest);
    SplitAtSeparator(line, rest, '\n');
    JoinSplit(rest, '\n');
    GapIsStripped(gap, line);
    SplitWithout(line, '\n');
  }

  /** Why a closed fence is not shown: the first of these reasons that applies. */
  lemma WhyNotShown(s: Settings, id: string, kind: Kind, body: string, original: string, visuals: nat)
    ensures var enabled := if kind == Mermaid then s.mermaidEnabled else s.manimEnabled;
            var limit := if kind == Mermaid then s.maxMermaidChars else s.maxManimChars;
            var reasons := (if enabled then [] else [Disabled])
                           + (if visuals < s.maxVisuals then [] else [LimitExceeded])
                           + (if Blank(body) then [Reason.Empty] else [])
                           + (if |body| <= limit then [] else [TooLarge])
                           + (if kind == Mermaid && Blank(Untitled(s, body).1) then [Reason.Empty] else [])
                           + (if kind == Manim && !s.json(body).Object? then [Malformed] else []);
            var b := FenceBlock(s, id, kind, body, original, visuals);
            if reasons == [] then Visual(b) else b == InvalidBlock(id, kind, reasons[0], original)
  {
  }

  /** What is left of a text without the line breaks around it. */
  lemma {:induction false} StripBreaksIsMiddle(t: string) returns (a: nat, b: nat)
    ensures a <= b <= |t| && StripBreaks(t) == t[a..b]
    ensures forall i :: 0 <= i < a || b <= i < |t| ==> t[i] == '\n'
    ensures a < b ==> t[a] != '\n' && t[b - 1] != '\n'
  {
    if t != "" && t[0] == '\n' {
      a, b := StripBreaksIsMiddle(t[1..]);
      a, b := a + 1, b + 1;
      assert t[1..][a - 1..b - 1] == t[a..b];
      assert forall i :: 1 <= i < |t| ==> t[1..][i - 1] == t[i];
    } else if t != "" && t[|t| - 1] == '\n' {
      a, b := StripBreaksIsMiddle(t[..|t| - 1]);
      assert t[..|t| - 1][a..b] == t[a..b];
    } else {
      a, b := 0, |t|;
    }
  }
}
