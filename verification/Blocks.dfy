/** The response-block parser (app/visualization/blocks.py): Markdown lines in, typed blocks out. The opening
    fences are those of CommonMark 0.31.2, section 4.5, without backticks in any info string; a closing fence is, by the
    code's own rule, a line of at least as many marks and nothing else once it is stripped.

    `json.loads` and the title pattern of a Mermaid body are arguments. */
module Blocks {
  import opened Outcomes
  import opened Text

  datatype Kind = Mermaid | Manim

  datatype Reason = TooLarge | Malformed | Disabled | LimitExceeded | Empty

  // What `json.loads` makes of a body: nothing, something else than an object, or an object with its cleaned title,
  // which is a Manim spec when it names a known template and has params.
  datatype Json = NotJson | NotObject | Object(title: Option<string>, isSpec: bool)

  datatype Settings = Settings(
    maxVisuals: nat, mermaidEnabled: bool, manimEnabled: bool, maxMermaidChars: nat, maxManimChars: nat,
    json: string -> Json,
    title: string -> Option<Option<string>>)   // the cleaned title of a title line, None for any other line

  datatype Block =
    | TextBlock(id: string, content: string)
    | MermaidBlock(id: string, title: Option<string>, source: string)
    | ManimBlock(id: string, title: Option<string>, body: string)
    | InvalidBlock(id: string, requested: Kind, reason: Reason, original: string)

  predicate Visual(b: Block) { b.MermaidBlock? || b.ManimBlock? }

  // ------------------------------------------------------------------ lines

  datatype Line = Line(text: string)

  // `text.split("\n")` and `"\n".join(lines)`.
  function Lines(text: string): (r: seq<Line>)
    ensures |r| >= 1
  {
    var parts := Split(text, '\n');
    seq(|parts|, i requires 0 <= i < |parts| => Line(parts[i]))
  }

  function Texts(lines: seq<Line>): (r: seq<string>)
    ensures |r| == |lines| && forall i :: 0 <= i < |r| ==> r[i] == lines[i].text
  {
    seq(|lines|, i requires 0 <= i < |lines| => lines[i].text)
  }

  function Unlines(lines: seq<Line>): string { Join(Texts(lines), '\n') }

  lemma UnlinesConcat(a: seq<Line>, b: seq<Line>)
    requires a != [] && b != []
    ensures Unlines(a + b) == Unlines(a) + "\n" + Unlines(b)
  {
    assert Texts(a + b) == Texts(a) + Texts(b);
    JoinConcat(Texts(a), Texts(b), '\n');
  }

  /** Joining the lines of a text gives the text back. */
  lemma UnlinesLines(text: string)
    ensures Unlines(Lines(text)) == text
  {
    JoinSplit(text, '\n');
    assert Texts(Lines(text)) == Split(text, '\n');
  }

  // ------------------------------------------------------------------ fences

  datatype Fence = Fence(mark: char, length: nat, info: string)

  function Run(s: string, c: char): (n: nat)
    ensures n <= |s|
    ensures forall i :: 0 <= i < n ==> s[i] == c
    ensures n < |s| ==> s[n] != c
  {
    if s != "" && s[0] == c then 1 + Run(s[1..], c) else 0
  }

  // At most three blanks, at least three backticks or tildes, and no backtick after them.
  function OpenFence(line: string): (f: Option<Fence>)
    ensures f.Some? ==> f.value.length >= 3 && (f.value.mark == '`' || f.value.mark == '~')
  {
    var indent := Run(line, ' ');
    var rest := line[indent..];
    if indent > 3 || rest == "" || (rest[0] != '`' && rest[0] != '~') then None
    else
      var n := Run(rest, rest[0]);
      if n < 3 || '`' in rest[n..] then None else Some(Fence(rest[0], n, rest[n..]))
  }

  function FirstWord(s: string): string {
    if s == "" || IsSpace(s[0]) then "" else [s[0]] + FirstWord(s[1..])
  }

  function Lower(s: string): string {
    seq(|s|, i requires 0 <= i < |s| => if 'A' <= s[i] <= 'Z' then 'a' + (s[i] - 'A') else s[i])
  }

  datatype Tag = MermaidTag | ManimTag | JsonTag | OtherTag

  datatype Tagged = NoFence | TaggedFence(tag: Tag, closes: Line -> bool)

  predicate Closes(line: string, f: Fence) {
    var t := Strip(line);
    |t| >= f.length && Run(t, f.mark) == |t|
  }

  // What the language tag of the fence a line opens says, and the lines that close that fence.
  function TagOf(line: string): Tagged {
    var f := OpenFence(line);
    if f.None? then NoFence
    else
      var lang := Lower(FirstWord(Strip(f.value.info)));
      var tag := if lang == "mermaid" then MermaidTag
                 else if lang == "manim" then ManimTag
                 else if lang == "json" || lang == "" then JsonTag
                 else OtherTag;
      TaggedFence(tag, (l: Line) => Closes(l.text, f.value))
  }

  // The first closing line at or after `from`, or the number of lines.
  function FindClose(lines: seq<Line>, from: nat, closes: Line -> bool): (j: nat)
    requires from <= |lines|
    ensures from <= j <= |lines|
    ensures j < |lines| ==> closes(lines[j])
    ensures forall k :: from <= k < j ==> !closes(lines[k])
    decreases |lines| - from
  {
    if from == |lines| || closes(lines[from]) then from else FindClose(lines, from + 1, closes)
  }

  // The text of a run of lines.
  function Source(lines: seq<Line>, start: nat, end: nat): string
    requires start <= end <= |lines|
  {
    Unlines(lines[start..end])
  }

  predicate IsSpec(j: Json) { j.Object? && j.isSpec }

  // What one line means for the division into segments: nothing, or a visual fence that closes at a later line, or
  // nowhere (`close` is then the number of lines).
  datatype Mark = Plain | Opening(kind: Kind, close: nat)

  function MarkOf(s: Settings, lines: seq<Line>, i: nat): (m: Mark)
    requires i < |lines|
    ensures m.Opening? ==> i < m.close <= |lines|
  {
    TaggedMark(s, lines, i, TagOf(lines[i].text))
  }

  predicate SpecBetween(s: Settings, lines: seq<Line>, from: nat, close: nat)
    requires from <= close <= |lines|
  {
    close < |lines| && IsSpec(s.json(Source(lines, from, close)))
  }

  // An untagged or JSON fence counts as Manim when its body is a Manim spec.
  function TaggedMark(s: Settings, lines: seq<Line>, i: nat, tagged: Tagged): (m: Mark)
    requires i < |lines|
    ensures m.Opening? ==> tagged.TaggedFence? && i < m.close <= |lines|
  {
    match tagged
    case NoFence => Plain
    case TaggedFence(tag, closes) =>
      var close := FindClose(lines, i + 1, closes);
      match tag
      case MermaidTag => Opening(Mermaid, close)
      case ManimTag => Opening(Manim, close)
      case JsonTag =>
        if SpecBetween(s, lines, i + 1, close) then Opening(Manim, close) else Plain
      case OtherTag => Plain
  }

  // ------------------------------------------------------------------ segments

  type Plan = seq<Mark>

  function PlanOf(s: Settings, lines: seq<Line>): (p: Plan)
    ensures |p| == |lines| && WellFormed(p)
    ensures forall i :: 0 <= i < |p| ==> p[i] == MarkOf(s, lines, i)
  {
    seq(|lines|, i requires 0 <= i < |lines| => MarkOf(s, lines, i))
  }

  predicate WellFormed(p: Plan) {
    forall i :: 0 <= i < |p| && p[i].Opening? ==> i < p[i].close <= |p|
  }

  // A run of lines: ordinary text, or a fence from its opening to its closing line. `end` is exclusive.
  datatype Segment = TextLines(start: nat, end: nat) | Fenced(start: nat, end: nat, kind: Kind)

  function Pending(start: nat, i: nat): seq<Segment> { if start < i then [TextLines(start, i)] else [] }

  // The segments of the lines from i on, with the text lines start..i still pending.
  function Segments(p: Plan, start: nat, i: nat): seq<Segment>
    requires WellFormed(p) && start <= i <= |p|
    decreases |p| - i
  {
    if i == |p| then Pending(start, i)
    else if p[i].Plain? then Segments(p, start, i + 1)
    else if p[i].close == |p| then Pending(start, |p|)
    else Pending(start, i) + [Fenced(i, p[i].close + 1, p[i].kind)] + Segments(p, p[i].close + 1, p[i].close + 1)
  }

  // Contiguous, non-empty, from `start` to the last line.
  ghost predicate Tiles(segs: seq<Segment>, start: nat, end: nat) {
    if segs == [] then start == end
    else segs[0].start == start && start < segs[0].end <= end && Tiles(segs[1..], segs[0].end, end)
  }

  lemma {:induction false} TilesConcat(a: seq<Segment>, b: seq<Segment>, start: nat, mid: nat, end: nat)
    requires Tiles(a, start, mid) && Tiles(b, mid, end) && mid <= end
    ensures Tiles(a + b, start, end)
  {
    if a == [] {
      assert a + b == b;
    } else {
      assert (a + b)[1..] == a[1..] + b;
      TilesConcat(a[1..], b, a[0].end, mid, end);
    }
  }

  /** The segments tile the input: every line belongs to exactly one of them, in order. */
  lemma {:induction false} SegmentsTile(p: Plan, start: nat, i: nat)
    requires WellFormed(p) && start <= i <= |p|
    ensures Tiles(Segments(p, start, i), start, |p|)
    decreases |p| - i
  {
    if i < |p| {
      if p[i].Plain? {
        SegmentsTile(p, start, i + 1);
      } else if p[i].close < |p| {
        var end := p[i].close + 1;
        SegmentsTile(p, end, end);
        var fence := [Fenced(i, end, p[i].kind)];
        assert Tiles(fence, i, end);
        TilesConcat(Pending(start, i), fence, start, i, end);
        TilesConcat(Pending(start, i) + fence, Segments(p, end, end), start, end, |p|);
      }
    }
  }

  // ------------------------------------------------------------------ blocks

  function Id(n: nat): string { "b" + Digits(n) }

  function StripBreaks(t: string): string {
    if t != "" && t[0] == '\n' then StripBreaks(t[1..])
    else if t != "" && t[|t| - 1] == '\n' then StripBreaks(t[..|t| - 1])
    else t
  }

  // A Mermaid body without its leading title line.
  function Untitled(s: Settings, body: string): (Option<string>, string) {
    var parts := Split(StripStart(body), '\n');
    var title := s.title(parts[0]);
    if title.None? then (None, body) else (title.value, Join(parts[1..], '\n'))
  }

  function FenceBlock(s: Settings, id: string, kind: Kind, body: string, original: string, visuals: nat): (b: Block)
    ensures b.id == id && !b.TextBlock?
    ensures Visual(b) ==> visuals < s.maxVisuals
  {
    var enabled := if kind == Mermaid then s.mermaidEnabled else s.manimEnabled;
    var limit := if kind == Mermaid then s.maxMermaidChars else s.maxManimChars;
    if !enabled then InvalidBlock(id, kind, Disabled, original)
    else if visuals >= s.maxVisuals then InvalidBlock(id, kind, LimitExceeded, original)
    else if Blank(body) then InvalidBlock(id, kind, Empty, original)
    else if |body| > limit then InvalidBlock(id, kind, TooLarge, original)
    else if kind == Mermaid then
      var (title, source) := Untitled(s, body);
      if Blank(source) then InvalidBlock(id, kind, Empty, original)
      else MermaidBlock(id, title, StripBreaks(source))
    else
      var j := s.json(body);
      if j.Object? then ManimBlock(id, j.title, body) else InvalidBlock(id, kind, Malformed, original)
  }

  // What a closed fence must meet to be shown as a picture.
  predicate Showable(s: Settings, kind: Kind, body: string, visuals: nat) {
    && visuals < s.maxVisuals && !Blank(body)
    && match kind
       case Mermaid => s.mermaidEnabled && |body| <= s.maxMermaidChars && !Blank(Untitled(s, body).1)
       case Manim => s.manimEnabled && |body| <= s.maxManimChars && s.json(body).Object?
  }

  /** A closed fence becomes a visual block of its kind exactly when it is showable; otherwise it is kept as it was
      written, with the first reason that applies. */
  lemma FenceIsVisualIff(s: Settings, id: string, kind: Kind, body: string, original: string, visuals: nat)
    ensures var b := FenceBlock(s, id, kind, body, original, visuals);
            && (Visual(b) <==> Showable(s, kind, body, visuals))
            && (Visual(b) ==> (b.MermaidBlock? <==> kind == Mermaid))
            && (!Visual(b) ==> b.InvalidBlock? && b.requested == kind && b.original == original)
            && (!Visual(b) && (if kind == Mermaid then s.mermaidEnabled else s.manimEnabled) ==> b.reason != Disabled)
            && (!Visual(b) && visuals < s.maxVisuals ==> b.reason != LimitExceeded)
  {
  }

  predicate SegmentIn(seg: Segment, n: nat) {
    seg.start < seg.end <= n && (seg.Fenced? ==> seg.start + 1 < seg.end)
  }

  ghost predicate AllIn(segs: seq<Segment>, n: nat) { forall k :: 0 <= k < |segs| ==> SegmentIn(segs[k], n) }

  // The text of one segment.
  datatype Part = TextPart(content: string) | FencePart(kind: Kind, body: string, original: string)

  function PartOf(lines: seq<Line>, seg: Segment): Part
    requires SegmentIn(seg, |lines|)
  {
    match seg
    case TextLines(start, end) => TextPart(Source(lines, start, end))
    case Fenced(start, end, kind) => FencePart(kind, Source(lines, start + 1, end - 1), Source(lines, start, end))
  }

  function PartsOf(lines: seq<Line>, segs: seq<Segment>): (r: seq<Part>)
    requires AllIn(segs, |lines|)
    ensures |r| == |segs| && forall k :: 0 <= k < |segs| ==> r[k] == PartOf(lines, segs[k])
  {
    seq(|segs|, k requires 0 <= k < |segs| => PartOf(lines, segs[k]))
  }

  // A part as the text has it.
  function Original(part: Part): Line {
    match part
    case TextPart(content) => Line(content)
    case FencePart(_, _, original) => Line(original)
  }

  function Originals(lines: seq<Line>, segs: seq<Segment>): seq<Line>
    requires AllIn(segs, |lines|)
  {
    if segs == [] then [] else [Original(PartOf(lines, segs[0]))] + Originals(lines, segs[1..])
  }

  lemma SourceSplits(lines: seq<Line>, a: nat, b: nat, c: nat)
    requires a < b < c <= |lines|
    ensures Source(lines, a, c) == Source(lines, a, b) + "\n" + Source(lines, b, c)
  {
    assert lines[a..c] == lines[a..b] + lines[b..c];
    UnlinesConcat(lines[a..b], lines[b..c]);
  }

  lemma UnlinesOne(text: string)
    ensures Unlines([Line(text)]) == text
  {
    assert Texts([Line(text)]) == [text];
  }

  lemma {:induction false} TilesRebuild(lines: seq<Line>, segs: seq<Segment>, start: nat)
    requires AllIn(segs, |lines|) && Tiles(segs, start, |lines|) && start < |lines|
    ensures Unlines(Originals(lines, segs)) == Source(lines, start, |lines|)
  {
    var rest := segs[1..];
    var head := Source(lines, start, segs[0].end);
    assert Original(PartOf(lines, segs[0])) == Line(head);
    UnlinesOne(head);
    if segs[0].end == |lines| {
      assert Originals(lines, segs) == [Line(head)];
    } else {
      TilesRebuild(lines, rest, segs[0].end);
      SourceSplits(lines, start, segs[0].end, |lines|);
      UnlinesConcat([Line(head)], Originals(lines, rest));
    }
  }

  /** Nothing of the text is lost, repeated or reordered: the parts, joined by line breaks, are the text again. */
  lemma PartsRebuildText(s: Settings, text: string)
    ensures Unlines(Originals(Lines(text), SegmentsOf(s, Lines(text)))) == text
  {
    var lines := Lines(text);
    SegmentsTile(PlanOf(s, lines), 0, 0);
    TilesRebuild(lines, SegmentsOf(s, lines), 0);
    assert lines[0..|lines|] == lines;
    UnlinesLines(text);
  }

  // The block of one part, if it becomes one, given the blocks before it.
  function BlockOf(s: Settings, part: Part, before: seq<Block>): (r: seq<Block>)
    ensures |r| <= 1 && (r != [] ==> r[0].id == Id(|before| + 1))
    ensures r != [] && Visual(r[0]) ==> VisualsIn(before) < s.maxVisuals
    ensures r == [] || (part.TextPart? <==> r[0].TextBlock?)
  {
    var id := Id(|before| + 1);
    match part
    case TextPart(content) => if Blank(content) then [] else [TextBlock(id, content)]
    case FencePart(kind, body, original) => [FenceBlock(s, id, kind, body, original, VisualsIn(before))]
  }

  function VisualsIn(blocks: seq<Block>): nat {
    if blocks == [] then 0 else VisualsIn(blocks[..|blocks| - 1]) + if Visual(blocks[|blocks| - 1]) then 1 else 0
  }

  function Assemble(s: Settings, parts: seq<Part>): seq<Block> {
    if parts == [] then []
    else
      var before := Assemble(s, parts[..|parts| - 1]);
      before + BlockOf(s, parts[|parts| - 1], before)
  }

  lemma {:induction false} SegmentsAreIn(p: Plan, start: nat, i: nat)
    requires WellFormed(p) && start <= i <= |p|
    ensures AllIn(Segments(p, start, i), |p|)
    decreases |p| - i
  {
    if i < |p| {
      if p[i].Plain? {
        SegmentsAreIn(p, start, i + 1);
      } else if p[i].close < |p| {
        SegmentsAreIn(p, p[i].close + 1, p[i].close + 1);
      }
    }
  }

  function SegmentsOf(s: Settings, lines: seq<Line>): (segs: seq<Segment>)
    ensures AllIn(segs, |lines|)
  {
    var p := PlanOf(s, lines);
    SegmentsAreIn(p, 0, 0);
    Segments(p, 0, 0)
  }

  function Parse(s: Settings, lines: seq<Line>): seq<Block> {
    Assemble(s, PartsOf(lines, SegmentsOf(s, lines)))
  }

  lemma VisualsAppend(blocks: seq<Block>, last: seq<Block>)
    requires |last| <= 1
    ensures VisualsIn(blocks + last) == VisualsIn(blocks) + if last != [] && Visual(last[0]) then 1 else 0
  {
    if last == [] {
      assert blocks + last == blocks;
    } else {
      assert (blocks + last)[..|blocks|] == blocks;
    }
  }

  ghost predicate Numbered(blocks: seq<Block>) {
    forall k: nat :: k < |blocks| ==> blocks[k].id == Id(k + 1)
  }

  lemma NumberedAppend(before: seq<Block>, last: seq<Block>)
    requires Numbered(before) && |last| <= 1 && (last != [] ==> last[0].id == Id(|before| + 1))
    ensures Numbered(before + last)
  {
  }

  lemma NumberedApart(blocks: seq<Block>)
    requires Numbered(blocks)
    ensures forall j, k :: 0 <= j < k < |blocks| ==> blocks[j].id != blocks[k].id
  {
    forall j: nat, k: nat | j < k < |blocks|
      ensures blocks[j].id != blocks[k].id
    {
      IdsDiffer(j + 1, k + 1);
    }
  }

  lemma IdsDiffer(a: nat, b: nat)
    requires a != b
    ensures Id(a) != Id(b)
  {
    assert Id(a)[1..] == Digits(a) && Id(b)[1..] == Digits(b);
    if Id(a) == Id(b) {
      DigitsAreInjective(a, b);
    }
  }

  /** The ids are the letter b and a number, from b1 on. */
  lemma IdIs(n: nat)
    ensures Id(1) == "b1" && Id(2) == "b2" && Id(3) == "b3"
    ensures Id(n)[0] == 'b' && Id(n)[1..] == Digits(n) && Value(Digits(n)) == n
  {
    DigitsValue(n);
  }

  // Every text block shows something.
  ghost predicate TextsShow(blocks: seq<Block>) {
    forall k :: 0 <= k < |blocks| && blocks[k].TextBlock? ==> Strip(blocks[k].content) != ""
  }

  lemma TextShows(part: Part, s: Settings, before: seq<Block>)
    ensures TextsShow(BlockOf(s, part, before))
  {
    if part.TextPart? {
      BlankIffStripped(part.content);
    }
  }

  /** Ids are b1, b2, ... in order, whatever ids the text claims, never more visual blocks than allowed, and at most one
      block from each segment. */
  lemma {:induction false} BlocksAreNumbered(s: Settings, parts: seq<Part>)
    ensures var blocks := Assemble(s, parts);
            && |blocks| <= |parts|
            && Numbered(blocks)
            && VisualsIn(blocks) <= s.maxVisuals
  {
    if parts != [] {
      BlocksAreNumbered(s, parts[..|parts| - 1]);
      var before := Assemble(s, parts[..|parts| - 1]);
      var last := BlockOf(s, parts[|parts| - 1], before);
      NumberedAppend(before, last);
      VisualsAppend(before, last);
    }
  }

  /** No text block is blank. */
  lemma {:induction false} TextBlocksShow(s: Settings, parts: seq<Part>)
    ensures TextsShow(Assemble(s, parts))
  {
    if parts != [] {
      var before := Assemble(s, parts[..|parts| - 1]);
      TextBlocksShow(s, parts[..|parts| - 1]);
      TextShows(parts[|parts| - 1], s, before);
    }
  }

  /** No two blocks share an id. */
  lemma BlockIdsAreDistinct(s: Settings, parts: seq<Part>)
    ensures var blocks := Assemble(s, parts);
            forall j, k :: 0 <= j < k < |blocks| ==> blocks[j].id != blocks[k].id
  {
    BlocksAreNumbered(s, parts);
    NumberedApart(Assemble(s, parts));
  }

  // ------------------------------------------------------------------ streaming

  ghost predicate NoFences(lines: seq<Line>) {
    forall k :: 0 <= k < |lines| ==> TagOf(lines[k].text).NoFence?
  }

  // No JSON spec contains a line that opens a fence: such a line is not JSON outside a string, and a string holds
  // no raw line break.
  ghost predicate SpecsHaveNoFences(s: Settings) {
    forall ls: seq<Line> :: IsSpec(s.json(Unlines(ls))) ==> NoFences(ls)
  }

  // How many segments later lines cannot change: all but a trailing text segment.
  ghost function Settled(segs: seq<Segment>): (n: nat)
    ensures n <= |segs|
  {
    if segs != [] && segs[|segs| - 1].TextLines? then |segs| - 1 else |segs|
  }

  ghost predicate Keeps(segs: seq<Segment>, segs': seq<Segment>) {
    Settled(segs) <= |segs'| && forall k :: 0 <= k < Settled(segs) ==> segs'[k] == segs[k]
  }

  lemma {:induction false} FindCloseStable(lines: seq<Line>, more: seq<Line>, from: nat, closes: Line -> bool)
    requires from <= |lines|
    ensures var j, j' := FindClose(lines, from, closes), FindClose(lines + more, from, closes);
            if j < |lines| then j' == j else j' >= |lines|
    decreases |lines| - from
  {
    if from < |lines| && !closes(lines[from]) {
      FindCloseStable(lines, more, from + 1, closes);
    }
  }

  // How the plan of some lines can change when more lines follow: a fence that was closed stays; a plain line stays
  // plain, or becomes the opening of a fence that closes beyond the old end and swallows nothing but plain lines.
  ghost predicate Grows(p: Plan, p': Plan) {
    && WellFormed(p) && WellFormed(p') && |p| <= |p'|
    && forall i :: 0 <= i < |p| ==>
         && (p[i].Opening? && p[i].close < |p| ==> p'[i] == p[i])
         && (p[i].Plain? && p'[i].Opening? ==> forall k :: i < k < |p| ==> p[k].Plain?)
  }

  lemma {:induction false} PlainToTheEnd(p: Plan, start: nat, i: nat)
    requires WellFormed(p) && start <= i <= |p| && forall k :: i <= k < |p| ==> p[k].Plain?
    ensures Segments(p, start, i) == Pending(start, |p|)
    decreases |p| - i
  {
    if i < |p| {
      PlainToTheEnd(p, start, i + 1);
    }
  }

  lemma {:induction false} SegmentsStable(p: Plan, p': Plan, start: nat, i: nat)
    requires Grows(p, p') && start <= i <= |p|
    ensures Keeps(Segments(p, start, i), Segments(p', start, i))
    decreases |p| - i
  {
    if i < |p| && p[i].Plain? && p'[i].Plain? {
      SegmentsStable(p, p', start, i + 1);
      StillPlain(p, p', start, i);
    } else if i < |p| && p[i].Opening? && p[i].close < |p| {
      SegmentsStable(p, p', p[i].close + 1, p[i].close + 1);
      StillFenced(p, p', start, i);
    } else {
      NothingSettled(p, p', start, i);
    }
  }

  lemma StillPlain(p: Plan, p': Plan, start: nat, i: nat)
    requires Grows(p, p') && start <= i < |p| && p[i].Plain? && p'[i].Plain?
    requires Keeps(Segments(p, start, i + 1), Segments(p', start, i + 1))
    ensures Keeps(Segments(p, start, i), Segments(p', start, i))
  {
  }

  lemma StillFenced(p: Plan, p': Plan, start: nat, i: nat)
    requires Grows(p, p') && start <= i < |p| && p[i].Opening? && p[i].close < |p|
    requires var end := p[i].close + 1; Keeps(Segments(p, end, end), Segments(p', end, end))
    ensures Keeps(Segments(p, start, i), Segments(p', start, i))
  {
    var end := p[i].close + 1;
    SegmentsAtFence(p, start, i, end);
    SegmentsAtFence(p', start, i, end);
    SettledAfter(Pending(start, i) + [Fenced(i, end, p[i].kind)], Segments(p, end, end), Segments(p', end, end),
                 Segments(p, start, i), Segments(p', start, i));
  }

  lemma NothingSettled(p: Plan, p': Plan, start: nat, i: nat)
    requires Grows(p, p') && start <= i <= |p|
    requires i < |p| && p[i].Plain? ==> p'[i].Opening?
    requires i < |p| && p[i].Opening? ==> p[i].close == |p|
    ensures Settled(Segments(p, start, i)) == 0
  {
    if i < |p| && p[i].Plain? {
      PlainToTheEnd(p, start, i);
    }
  }

  lemma SettledAfter(head: seq<Segment>, tail: seq<Segment>, tail': seq<Segment>, all: seq<Segment>, all': seq<Segment>)
    requires head != [] && head[|head| - 1].Fenced? && Keeps(tail, tail')
    requires all == head + tail && all' == head + tail'
    ensures Keeps(all, all')
  {
  }

  lemma SegmentsAtFence(p: Plan, start: nat, i: nat, end: nat)
    requires WellFormed(p) && start <= i < |p| && p[i].Opening? && p[i].close < |p| && end == p[i].close + 1
    ensures Segments(p, start, i) == (Pending(start, i) + [Fenced(i, end, p[i].kind)]) + Segments(p, end, end)
  {
  }

  lemma SourceStable(lines: seq<Line>, more: seq<Line>, start: nat, end: nat)
    requires start <= end <= |lines|
    ensures Source(lines + more, start, end) == Source(lines, start, end)
  {
    assert (lines + more)[start..end] == lines[start..end];
  }

  lemma NoFencesBefore(s: Settings, lines: seq<Line>, more: seq<Line>, from: nat, upto: nat)
    requires SpecsHaveNoFences(s) && from <= |lines| <= upto <= |lines + more|
    requires IsSpec(s.json(Source(lines + more, from, upto)))
    ensures NoFences(lines[from..])
  {
    var body := (lines + more)[from..upto];
    assert NoFences(body);
    forall k | 0 <= k < |lines| - from
      ensures TagOf(lines[from..][k].text).NoFence?
    {
      assert lines[from..][k] == body[k];
    }
  }

  lemma SpecStays(s: Settings, lines: seq<Line>, more: seq<Line>, from: nat, close: nat)
    requires from <= close < |lines|
    ensures SpecBetween(s, lines + more, from, close) == SpecBetween(s, lines, from, close)
  {
    SourceStable(lines, more, from, close);
  }

  lemma ClosedFenceStays(s: Settings, lines: seq<Line>, more: seq<Line>, i: nat, tagged: Tagged)
    requires i < |lines| && tagged.TaggedFence? && FindClose(lines, i + 1, tagged.closes) < |lines|
    ensures TaggedMark(s, lines + more, i, tagged) == TaggedMark(s, lines, i, tagged)
  {
    FindCloseStable(lines, more, i + 1, tagged.closes);
    SpecStays(s, lines, more, i + 1, FindClose(lines, i + 1, tagged.closes));
  }

  lemma NewFenceSwallowsPlain(s: Settings, lines: seq<Line>, more: seq<Line>, i: nat, tagged: Tagged)
    requires i < |lines| && SpecsHaveNoFences(s)
    requires tagged.TaggedFence? && FindClose(lines, i + 1, tagged.closes) == |lines|
    requires TaggedMark(s, lines, i, tagged).Plain? && TaggedMark(s, lines + more, i, tagged).Opening?
    ensures NoFences(lines[i + 1..])
  {
    FindCloseStable(lines, more, i + 1, tagged.closes);
    NoFencesBefore(s, lines, more, i + 1, FindClose(lines + more, i + 1, tagged.closes));
  }

  lemma TaggedMarkGrows(s: Settings, lines: seq<Line>, more: seq<Line>, i: nat, tagged: Tagged)
    requires i < |lines| && SpecsHaveNoFences(s)
    ensures var m, m' := TaggedMark(s, lines, i, tagged), TaggedMark(s, lines + more, i, tagged);
            && (m.Opening? && m.close < |lines| ==> m' == m)
            && (m.Plain? && m'.Opening? ==> NoFences(lines[i + 1..]))
  {
    var m, m' := TaggedMark(s, lines, i, tagged), TaggedMark(s, lines + more, i, tagged);
    if tagged.TaggedFence? {
      if FindClose(lines, i + 1, tagged.closes) < |lines| {
        ClosedFenceStays(s, lines, more, i, tagged);
      } else if m.Plain? && m'.Opening? {
        NewFenceSwallowsPlain(s, lines, more, i, tagged);
      }
    }
  }

  lemma UnfencedIsPlain(s: Settings, lines: seq<Line>, i: nat)
    requires i < |lines| && TagOf(lines[i].text).NoFence?
    ensures MarkOf(s, lines, i).Plain?
  {
  }

  lemma PlanGrows(s: Settings, lines: seq<Line>, more: seq<Line>)
    requires SpecsHaveNoFences(s)
    ensures Grows(PlanOf(s, lines), PlanOf(s, lines + more))
  {
    var p, p' := PlanOf(s, lines), PlanOf(s, lines + more);
    forall i | 0 <= i < |p|
      ensures p[i].Opening? && p[i].close < |p| ==> p'[i] == p[i]
      ensures p[i].Plain? && p'[i].Opening? ==> forall k :: i < k < |p| ==> p[k].Plain?
    {
      TaggedMarkGrows(s, lines, more, i, TagOf(lines[i].text));
      if p[i].Plain? && p'[i].Opening? {
        forall k | i < k < |p|
          ensures p[k].Plain?
        {
          assert lines[k] == lines[i + 1..][k - i - 1];
          UnfencedIsPlain(s, lines, k);
        }
      }
    }
  }

  lemma PartsStable(lines: seq<Line>, more: seq<Line>, segs: seq<Segment>)
    requires AllIn(segs, |lines|)
    ensures AllIn(segs, |lines + more|)
    ensures PartsOf(lines + more, segs) == PartsOf(lines, segs)
  {
    forall k | 0 <= k < |segs|
      ensures PartOf(lines + more, segs[k]) == PartOf(lines, segs[k])
    {
      var seg := segs[k];
      SourceStable(lines, more, seg.start, seg.end);
      if seg.Fenced? {
        SourceStable(lines, more, seg.start + 1, seg.end - 1);
      }
    }
  }

  lemma {:induction false} AssemblePrefix(s: Settings, parts: seq<Part>, n: nat)
    requires n <= |parts|
    ensures Assemble(s, parts[..n]) <= Assemble(s, parts)
    decreases |parts|
  {
    if n == |parts| {
      assert parts[..n] == parts;
    } else {
      AssemblePrefix(s, parts[..|parts| - 1], n);
      assert parts[..|parts| - 1][..n] == parts[..n];
    }
  }

  // The blocks that later lines cannot change: all but a trailing text block.
  ghost function SettledBlocks(s: Settings, lines: seq<Line>): seq<Block> {
    var segs := SegmentsOf(s, lines);
    Assemble(s, PartsOf(lines, segs)[..Settled(segs)])
  }

  /** Streaming stability: appending whole lines leaves every block except a trailing text block unchanged, id
      included. */
  lemma StreamingIsStable(s: Settings, lines: seq<Line>, more: seq<Line>)
    requires SpecsHaveNoFences(s)
    ensures SettledBlocks(s, lines) <= Parse(s, lines + more)
  {
    PlanGrows(s, lines, more);
    SegmentsStable(PlanOf(s, lines), PlanOf(s, lines + more), 0, 0);
    var segs, segs' := SegmentsOf(s, lines), SegmentsOf(s, lines + more);
    PartsStable(lines, more, segs);
    var n := Settled(segs);
    assert PartsOf(lines + more, segs')[..n] == PartsOf(lines, segs)[..n];
    AssemblePrefix(s, PartsOf(lines + more, segs'), n);
  }

  /** Only a trailing text block is not settled. */
  lemma UnsettledIsTrailingText(s: Settings, lines: seq<Line>)
    ensures var settled, blocks := SettledBlocks(s, lines), Parse(s, lines);
            || blocks == settled
            || (|blocks| == |settled| + 1 && settled <= blocks && blocks[|settled|].TextBlock?)
  {
    var segs := SegmentsOf(s, lines);
    var parts := PartsOf(lines, segs);
    if Settled(segs) == |segs| {
      assert parts[..|parts|] == parts;
    } else {
      var before := Assemble(s, parts[..|parts| - 1]);
      assert Parse(s, lines) == before + BlockOf(s, parts[|parts| - 1], before);
    }
  }

  // ------------------------------------------------------------------ the loop

  lemma AssembleOneMore(s: Settings, lines: seq<Line>, segs: seq<Segment>, seg: Segment)
    requires SegmentIn(seg, |lines|) && AllIn(segs, |lines|)
    ensures AllIn(segs + [seg], |lines|)
    ensures var before := Assemble(s, PartsOf(lines, segs));
            var last := BlockOf(s, PartOf(lines, seg), before);
            && Assemble(s, PartsOf(lines, segs + [seg])) == before + last
            && VisualsIn(before + last) == VisualsIn(before) + if last != [] && Visual(last[0]) then 1 else 0
  {
    var parts := PartsOf(lines, segs + [seg]);
    assert parts[..|segs|] == PartsOf(lines, segs);
    var before := Assemble(s, PartsOf(lines, segs));
    VisualsAppend(before, BlockOf(s, PartOf(lines, seg), before));
  }

  // The segments, in the order the loop finds them: those done so far, with the text lines start..i pending.
  function Continue(p: Plan, segs: seq<Segment>, start: nat, i: nat): seq<Segment>
    requires WellFormed(p) && start <= i <= |p|
    decreases |p| - i
  {
    if i == |p| then segs + Pending(start, i)
    else if p[i].Plain? then Continue(p, segs, start, i + 1)
    else if p[i].close == |p| then segs + Pending(start, |p|)
    else
      var end := p[i].close + 1;
      Continue(p, segs + Pending(start, i) + [Fenced(i, end, p[i].kind)], end, end)
  }

  lemma Regroup<T>(a: seq<T>, b: seq<T>, c: seq<T>, d: seq<T>)
    ensures a + b + c + d == a + ((b + c) + d)
  {
  }

  lemma {:induction false} ContinueIsSegments(p: Plan, segs: seq<Segment>, start: nat, i: nat)
    requires WellFormed(p) && start <= i <= |p|
    ensures Continue(p, segs, start, i) == segs + Segments(p, start, i)
    decreases |p| - i
  {
    if i < |p| {
      if p[i].Plain? {
        ContinueIsSegments(p, segs, start, i + 1);
      } else if p[i].close < |p| {
        var end := p[i].close + 1;
        ContinueIsSegments(p, segs + Pending(start, i) + [Fenced(i, end, p[i].kind)], end, end);
        SegmentsAtFence(p, start, i, end);
        Regroup(segs, Pending(start, i), [Fenced(i, end, p[i].kind)], Segments(p, end, end));
      }
    }
  }

  lemma ContinueAtFence(p: Plan, segs: seq<Segment>, start: nat, i: nat, close: nat, end: nat, kind: Kind)
    requires WellFormed(p) && start <= i < close && end == close + 1 <= |p| && p[i] == Opening(kind, close)
    ensures Continue(p, segs, start, i) == Continue(p, segs + Pending(start, i) + [Fenced(i, end, kind)], end, end)
  {
  }

  // The loop state under the plan p of the lines: the segments done so far, their blocks, and the text lines start..i
  // pending.
  ghost predicate Parsing(s: Settings, lines: seq<Line>, p: Plan, segs: seq<Segment>, blocks: seq<Block>,
                          start: nat, i: nat) {
    && WellFormed(p) && |p| == |lines|
    && start <= i <= |lines| && AllIn(segs, |lines|)
    && blocks == Assemble(s, PartsOf(lines, segs))
    && Segments(p, 0, 0) == Continue(p, segs, start, i)
  }

  lemma ParsingStarts(s: Settings, lines: seq<Line>, p: Plan)
    requires WellFormed(p) && |p| == |lines|
    ensures Parsing(s, lines, p, [], [], 0, 0)
  {
    assert PartsOf(lines, []) == [];
    ContinueIsSegments(p, [], 0, 0);
  }

  lemma PlainParsed(s: Settings, lines: seq<Line>, p: Plan, segs: seq<Segment>, blocks: seq<Block>, start: nat, i: nat)
    requires Parsing(s, lines, p, segs, blocks, start, i) && i < |lines| && p[i].Plain?
    ensures Parsing(s, lines, p, segs, blocks, start, i + 1)
  {
  }

  // What is left once the fence at i does not close, or there is no line i.
  lemma RestParsed(s: Settings, lines: seq<Line>, p: Plan, segs: seq<Segment>, blocks: seq<Block>, start: nat, i: nat)
    requires Parsing(s, lines, p, segs, blocks, start, i)
    requires i == |lines| || (p[i].Opening? && p[i].close == |lines|)
    ensures Segments(p, 0, 0) == segs + Pending(start, |lines|)
  {
  }

  lemma FencePartIs(lines: seq<Line>, i: nat, close: nat, end: nat, kind: Kind)
    requires i < close && end == close + 1 <= |lines|
    ensures var part := PartOf(lines, Fenced(i, end, kind));
            && part.FencePart? && part.kind == kind
            && part.body == Source(lines, i + 1, close) && part.original == Source(lines, i, end)
  {
  }

  lemma FencePartBlock(s: Settings, lines: seq<Line>, i: nat, close: nat, end: nat, kind: Kind, before: seq<Block>)
    requires i < close && end == close + 1 <= |lines|
    ensures BlockOf(s, PartOf(lines, Fenced(i, end, kind)), before)
            == [FenceBlock(s, Id(|before| + 1), kind, Source(lines, i + 1, close), Source(lines, i, end),
                           VisualsIn(before))]
  {
    FencePartIs(lines, i, close, end, kind);
  }

  // `flushed` are the blocks with the pending text emitted.
  lemma FenceParsed(s: Settings, lines: seq<Line>, p: Plan, segs: seq<Segment>, blocks: seq<Block>, start: nat, i: nat,
                    close: nat, end: nat, kind: Kind, flushed: seq<Block>, block: Block)
    requires Parsing(s, lines, p, segs, blocks, start, i)
    requires i < close && end == close + 1 <= |lines| && p[i] == Opening(kind, close)
    requires AllIn(segs + Pending(start, i), |lines|)
    requires flushed == Assemble(s, PartsOf(lines, segs + Pending(start, i)))
    requires [block] == BlockOf(s, PartOf(lines, Fenced(i, end, kind)), flushed)
    ensures Parsing(s, lines, p, segs + Pending(start, i) + [Fenced(i, end, kind)], flushed + [block], end, end)
    ensures VisualsIn(flushed + [block]) == VisualsIn(flushed) + if Visual(block) then 1 else 0
  {
    ContinueAtFence(p, segs, start, i, close, end, kind);
    AssembleOneMore(s, lines, segs + Pending(start, i), Fenced(i, end, kind));
  }

  lemma NothingPending(lines: seq<Line>, i: nat)
    requires i <= |lines|
    ensures Blank(Source(lines, i, i))
  {
    assert lines[i..i] == [];
  }

  lemma TextPartIs(lines: seq<Line>, start: nat, i: nat)
    requires start < i <= |lines|
    ensures PartOf(lines, TextLines(start, i)).TextPart?
    ensures PartOf(lines, TextLines(start, i)).content == Source(lines, start, i)
  {
  }

  lemma TextPartBlock(s: Settings, lines: seq<Line>, start: nat, i: nat, before: seq<Block>)
    requires start < i <= |lines|
    ensures BlockOf(s, PartOf(lines, TextLines(start, i)), before)
            == if Blank(Source(lines, start, i)) then [] else [TextBlock(Id(|before| + 1), Source(lines, start, i))]
  {
    TextPartIs(lines, start, i);
  }

  // `after` are the blocks once the text lines start..i are no longer pending.
  ghost predicate TextEmitted(lines: seq<Line>, start: nat, i: nat, before: seq<Block>, after: seq<Block>)
    requires start <= i <= |lines|
  {
    && VisualsIn(after) == VisualsIn(before)
    && after == if Blank(Source(lines, start, i)) then before
                else before + [TextBlock(Id(|before| + 1), Source(lines, start, i))]
  }

  lemma TextAdded(s: Settings, lines: seq<Line>, segs: seq<Segment>, start: nat, i: nat)
    requires start < i <= |lines| && AllIn(segs, |lines|)
    ensures AllIn(segs + [TextLines(start, i)], |lines|)
    ensures TextEmitted(lines, start, i, Assemble(s, PartsOf(lines, segs)),
                        Assemble(s, PartsOf(lines, segs + [TextLines(start, i)])))
  {
    TextPartBlock(s, lines, start, i, Assemble(s, PartsOf(lines, segs)));
    AssembleOneMore(s, lines, segs, TextLines(start, i));
  }

  lemma PendingParsed(s: Settings, lines: seq<Line>, segs: seq<Segment>, start: nat, i: nat)
    requires start <= i <= |lines| && AllIn(segs, |lines|)
    ensures AllIn(segs + Pending(start, i), |lines|)
    ensures TextEmitted(lines, start, i, Assemble(s, PartsOf(lines, segs)),
                        Assemble(s, PartsOf(lines, segs + Pending(start, i))))
  {
    if start < i {
      TextAdded(s, lines, segs, start, i);
    } else {
      NothingPending(lines, i);
      assert segs + Pending(start, i) == segs;
    }
  }

  // The buffer holds the lines start..i.
  ghost predicate Buffered(lines: seq<Line>, buffer: seq<Line>, start: nat, i: nat) {
    start <= i <= |lines| && |buffer| == i - start && forall k :: start <= k < i ==> lines[k] == buffer[k - start]
  }

  lemma BufferSource(lines: seq<Line>, buffer: seq<Line>, start: nat, i: nat)
    requires Buffered(lines, buffer, start, i)
    ensures Unlines(buffer) == Source(lines, start, i)
  {
    forall k | 0 <= k < i - start
      ensures buffer[k] == lines[start..i][k]
    {
      assert lines[start + k] == buffer[k];
    }
    assert buffer == lines[start..i];
  }

  lemma BufferLine(lines: seq<Line>, buffer: seq<Line>, start: nat, i: nat)
    requires Buffered(lines, buffer, start, i) && i < |lines|
    ensures Buffered(lines, buffer + [lines[i]], start, i + 1)
  {
  }

  lemma BufferRest(lines: seq<Line>, buffer: seq<Line>, start: nat, i: nat)
    requires Buffered(lines, buffer, start, i)
    ensures Buffered(lines, buffer + lines[i..], start, |lines|)
  {
  }

  // Emits the pending text lines as a block unless they are blank.
  method FlushText(ghost s: Settings, ghost lines: seq<Line>, blocks: seq<Block>, buffer: seq<Line>,
                   ghost start: nat, ghost i: nat, ghost segs: seq<Segment>)
    returns (blocks': seq<Block>, ghost segs': seq<Segment>)
    requires Buffered(lines, buffer, start, i)
    requires AllIn(segs, |lines|) && blocks == Assemble(s, PartsOf(lines, segs))
    ensures segs' == segs + Pending(start, i) && AllIn(segs', |lines|)
    ensures blocks' == Assemble(s, PartsOf(lines, segs')) && VisualsIn(blocks') == VisualsIn(blocks)
  {
    var content := Unlines(buffer);
    segs' := segs + Pending(start, i);
    PendingParsed(s, lines, segs, start, i);
    BufferSource(lines, buffer, start, i);
    blocks' := if Blank(content) then blocks else blocks + [TextBlock(Id(|blocks| + 1), content)];
  }

  // Emits the pending text and then the fence i..close.
  method FlushFence(s: Settings, lines: seq<Line>, blocks: seq<Block>, buffer: seq<Line>, visuals: nat,
                    ghost p: Plan, ghost start: nat, i: nat, close: nat, kind: Kind, ghost segs: seq<Segment>)
    returns (blocks': seq<Block>, visuals': nat, i': nat, ghost segs': seq<Segment>)
    requires Parsing(s, lines, p, segs, blocks, start, i) && Buffered(lines, buffer, start, i)
    requires visuals == VisualsIn(blocks)
    requires i < close < |lines| && p[i] == Opening(kind, close)
    ensures i' == close + 1 && Parsing(s, lines, p, segs', blocks', i', i') && visuals' == VisualsIn(blocks')
  {
    var flushed, segs1 := FlushText(s, lines, blocks, buffer, start, i, segs);
    i' := close + 1;
    var block := FenceBlock(s, Id(|flushed| + 1), kind, Source(lines, i + 1, close), Source(lines, i, i'), visuals);
    FencePartBlock(s, lines, i, close, i', kind, flushed);
    FenceParsed(s, lines, p, segs, blocks, start, i, close, i', kind, flushed, block);
    blocks' := flushed + [block];
    visuals' := visuals + (if Visual(block) then 1 else 0);
    segs' := segs1 + [Fenced(i, i', kind)];
  }

  method ReadMark(s: Settings, lines: seq<Line>, i: nat, ghost p: Plan) returns (m: Mark)
    requires i < |lines| && p == PlanOf(s, lines)
    ensures m == p[i]
  {
    m := MarkOf(s, lines, i);
  }

  // The parser's loop, under the plan p of the lines.
  method ParseLines(s: Settings, lines: seq<Line>, ghost p: Plan) returns (blocks: seq<Block>)
    requires p == PlanOf(s, lines)
    ensures AllIn(Segments(p, 0, 0), |lines|) && blocks == Assemble(s, PartsOf(lines, Segments(p, 0, 0)))
  {
    blocks := [];
    ghost var segs: seq<Segment> := [];
    var buffer: seq<Line> := [];
    var visuals := 0;
    ghost var start: nat := 0;
    var i: nat := 0;
    ParsingStarts(s, lines, p);
    while i < |lines|
      invariant Parsing(s, lines, p, segs, blocks, start, i) && Buffered(lines, buffer, start, i)
      invariant visuals == VisualsIn(blocks)
      decreases |lines| - i
    {
      var mark := ReadMark(s, lines, i, p);
      if mark.Plain? {
        PlainParsed(s, lines, p, segs, blocks, start, i);
        BufferLine(lines, buffer, start, i);
        buffer := buffer + [lines[i]];
        i := i + 1;
        continue;
      }
      if mark.close == |lines| {
        BufferRest(lines, buffer, start, i);
        buffer := buffer + lines[i..];
        break;
      }
      blocks, visuals, i, segs :=
        FlushFence(s, lines, blocks, buffer, visuals, p, start, i, mark.close, mark.kind, segs);
      start, buffer := i, [];
    }
    RestParsed(s, lines, p, segs, blocks, start, i);
    blocks, segs := FlushText(s, lines, blocks, buffer, start, |lines|, segs);
  }

  /** The parser: its blocks are those of the segments of the text's lines. */
  method ParseResponseBlocks(s: Settings, text: string) returns (blocks: seq<Block>)
    ensures blocks == Parse(s, Lines(text))
  {
    var lines := Lines(text);
    blocks := ParseLines(s, lines, PlanOf(s, lines));
  }
}
