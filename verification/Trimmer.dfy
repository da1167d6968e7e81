/** Priority-ordered trimming of prompt sections to a token budget (app/context_window/trimmer.py), with the
    fallback token counter. */
module Trimmer {
  import opened Outcomes
  import opened Text
  import opened TokenCounter

  datatype Role = System | User | Assistant | Tool

  datatype Item = Item(role: Role, content: string)

  datatype Section = Section(
    name: Name, content: string, priority: nat, tokenCount: nat, trimmable: bool,
    items: Option<seq<Item>>, header: string)

  const HISTORY := Name("conversation_history")

  // SECTION_MINIMUMS, with 0 for every other name.
  function Minimum(name: Name): nat {
    if name == Name("draft_content") then 200
    else if name == HISTORY then 200
    else if name == Name("long_term_memory") then 100
    else if name == Name("tool_results") then 50
    else 0
  }

  // ------------------------------------------------------------------ shrinking text

  predicate IsBreak(c: char) { c == ' ' || c == '\n' || c == '\t' }

  // The largest of the three `rfind` results.
  function LastBreak(s: string): (i: int)
    ensures -1 <= i < |s|
    ensures i >= 0 ==> IsBreak(s[i])
    ensures forall k :: i < k < |s| ==> !IsBreak(s[k])
  {
    if s == "" then -1
    else if IsBreak(s[|s| - 1]) then |s| - 1
    else LastBreak(s[..|s| - 1])
  }

  /** What is kept of a cut never ends inside a word: the original has nothing or whitespace next, or the cut
      stops before a break. */
  function CutAtWord(cut: string, original: string): (r: string)
    requires cut <= original
    ensures r <= cut
    ensures r == "" || |r| == |original| || IsSpace(original[|r|])
  {
    if |cut| >= |original| || IsSpace(original[|cut|]) then StripEnd(cut)
    else
      var space := LastBreak(cut);
      if space > 0 then StripEnd(cut[..space]) else ""
  }

  // How many leading lines fit the target.
  function FittingLines(lines: seq<string>, target: int): (k: nat)
    ensures k <= |lines|
    ensures k > 0 ==> LinesCost(lines[..k]) <= target
    ensures k < |lines| ==> LinesCost(lines[..k + 1]) > target
  {
    FitFrom(lines, target, 0)
  }

  function FitFrom(lines: seq<string>, target: int, from: nat): (k: nat)
    requires from <= |lines| && (from > 0 ==> LinesCost(lines[..from]) <= target)
    ensures from <= k <= |lines|
    ensures k > 0 ==> LinesCost(lines[..k]) <= target
    ensures k < |lines| ==> LinesCost(lines[..k + 1]) > target
    decreases |lines| - from
  {
    if from == |lines| || LinesCost(lines[..from + 1]) > target then from else FitFrom(lines, target, from + 1)
  }

  function KeptText(text: string, target: int): (r: string)
    ensures r <= text
  {
    var lines := Split(text, '\n');
    var k := FittingLines(lines, target);
    JoinPrefix(lines, '\n', k);
    JoinSplit(text, '\n');
    if k > 0 then StripEnd(Join(lines[..k], '\n')) else CutAtWord(Truncate(text, target), text)
  }

  lemma CostMonotone(lines: seq<string>, i: nat, j: nat)
    requires i <= j <= |lines|
    ensures LinesCost(lines[..i]) + (j - i) <= LinesCost(lines[..j])
    decreases j
  {
    if i < j {
      CostMonotone(lines, i, j - 1);
      assert lines[..j][..j - 1] == lines[..j - 1];
    }
  }

  lemma FittingIsUnique(lines: seq<string>, target: int, k: nat)
    requires k <= |lines| && (k > 0 ==> LinesCost(lines[..k]) <= target)
    requires k < |lines| ==> LinesCost(lines[..k + 1]) > target
    ensures k == FittingLines(lines, target)
  {
    var f := FittingLines(lines, target);
    if k < f {
      CostMonotone(lines, k + 1, f);
    } else if f < k {
      CostMonotone(lines, f + 1, k);
    }
  }

  /** The longest prefix of whole lines that fits; the start of the first line when not even that fits. */
  method KeepWholeLines(text: string, target: int) returns (r: string)
    ensures r == KeptText(text, target)
  {
    var lines := Split(text, '\n');
    var kept: seq<string> := [];
    var used := 0;
    var i := 0;
    while i < |lines|
      invariant 0 <= i <= |lines| && kept == lines[..i] && used == LinesCost(kept)
      invariant i > 0 ==> used <= target
    {
      var cost := Count(lines[i]) + 1;
      assert lines[..i + 1][..i] == lines[..i];
      if used + cost > target {
        break;
      }
      kept := kept + [lines[i]];
      used := used + cost;
      i := i + 1;
    }
    FittingIsUnique(lines, target, i);
    if kept != [] {
      return StripEnd(Join(kept, '\n'));
    }
    r := CutAtWord(Truncate(text, target), text);
  }

  // Among the eighth to tenth characters there is one that a cut to ten characters at a word boundary keeps: not
  // whitespace, and followed by the end of the word within the ten, or by nothing or whitespace after them.
  predicate KeepsEight(text: string) {
    exists i :: 7 <= i < 10 && i < |text| && !IsSpace(text[i])
                && (|text| <= 10 || IsSpace(text[10]) || BreaksWithin(text, i))
  }

  predicate BreaksWithin(text: string, i: int)
    requires 0 <= i && 10 <= |text|
  {
    exists j :: i < j < 10 && IsBreak(text[j])
  }

  lemma StripKeepsEight(s: string)
    ensures |StripEnd(s)| >= 8 <==> exists i :: 7 <= i < |s| && !IsSpace(s[i])
  {
    var r := StripEnd(s);
    assert |r| >= 8 ==> !IsSpace(s[|r| - 1]);
  }

  lemma EightSurviveIff(text: string)
    ensures |CutAtWord(Truncate(text, 1), text)| >= 8 <==> KeepsEight(text)
  {
    var cut := Truncate(text, 1);
    var space := LastBreak(cut);
    if |cut| >= |text| || IsSpace(text[|cut|]) {
      StripKeepsEight(cut);
    } else {
      assert forall i :: 0 <= i < 10 && BreaksWithin(text, i) ==> i < space;
      assert forall i :: 0 <= i < space ==> BreaksWithin(text, i);
      StripKeepsEight(cut[..if space > 0 then space else 0]);
    }
  }

  /** Shrinking text meets a target of at least one token if and only if the target is not exactly 1, or the text
      starts with an empty line, or nothing from the eighth character on survives the cut to ten characters: one
      token is the only target the fallback truncation can overshoot, and then by exactly one. */
  lemma ShrinkMeetsTargetIff(text: string, target: nat)
    requires target >= 1
    ensures Count(KeptText(text, target)) <= target
            <==> target != 1 || Split(text, '\n')[0] == "" || !KeepsEight(text)
    ensures Count(KeptText(text, target)) <= target + 1
  {
    var lines := Split(text, '\n');
    var k := FittingLines(lines, target);
    assert lines[..1] == [lines[0]];
    assert LinesCost(lines[..1]) == Count(lines[0]) + 1;
    EightSurviveIff(text);
    if k > 0 {
      JoinedCostsLess(lines[..k], '\n');
      CountMonotone(StripEnd(Join(lines[..k], '\n')), Join(lines[..k], '\n'));
      CostMonotone(lines, 1, k);
    } else {
      CountMonotone(CutAtWord(Truncate(text, target), text), Truncate(text, target));
    }
  }

  // ------------------------------------------------------------------ shrinking history

  // `role.capitalize()`.
  function RoleLabel(role: Role): string {
    match role
    case System => "System"
    case User => "User"
    case Assistant => "Assistant"
    case Tool => "Tool"
  }

  function RenderedItems(items: seq<Item>): (r: seq<string>)
    ensures |r| == |items|
  {
    seq(|items|, i requires 0 <= i < |items| => RoleLabel(items[i].role) + ": " + items[i].content)
  }

  function RenderHistory(header: string, items: seq<Item>): string {
    Join((if header == "" then [] else [header]) + RenderedItems(items), '\n')
  }

  // The message a line starts, when it carries a role prefix.
  function RoleLine(line: string): Option<Item> {
    if "User: " <= line then Some(Item(User, line[6..]))
    else if "Assistant: " <= line then Some(Item(Assistant, line[11..]))
    else if "System: " <= line then Some(Item(System, line[8..]))
    else if "Tool: " <= line then Some(Item(Tool, line[6..]))
    else None
  }

  // Header and messages parsed from lines: a role prefix starts a message, any other line continues what it
  // follows.
  function ParseHistory(lines: seq<string>): (string, seq<Item>) {
    if lines == [] then ("", [])
    else
      var (header, items) := ParseHistory(lines[..|lines| - 1]);
      var line := lines[|lines| - 1];
      if RoleLine(line).Some? then (header, items + [RoleLine(line).value])
      else if items != [] then
        var last := items[|items| - 1];
        (header, items[..|items| - 1] + [last.(content := last.content + "\n" + line)])
      else if header == "" then (line, items)
      else (header + "\n" + line, items)
  }

  function HistoryItems(sec: Section): (string, seq<Item>) {
    if sec.items.Some? then (sec.header, sec.items.value) else ParseHistory(Split(sec.content, '\n'))
  }

  // The newest messages whose rendering fits: the oldest go first, whole.
  function NewestFitting(header: string, items: seq<Item>, target: int): (r: seq<Item>)
    ensures |r| <= |items| && r == items[|items| - |r|..]
    ensures r != [] ==> Count(RenderHistory(header, r)) <= target
    ensures |r| < |items| ==> Count(RenderHistory(header, items[|items| - |r| - 1..])) > target
  {
    if items == [] || Count(RenderHistory(header, items)) <= target then items
    else
      var r := NewestFitting(header, items[1..], target);
      assert items[1..][|items| - 1 - |r|..] == items[|items| - |r|..];
      assert |r| < |items| - 1 ==> items[1..][|items| - 1 - |r| - 1..] == items[|items| - |r| - 1..];
      assert |r| == |items| - 1 ==> items[|items| - |r| - 1..] == items;
      r
  }

  // The newest words of unstructured text that fit.
  function NewestWords(words: seq<string>, target: int): (r: seq<string>)
    ensures |r| <= |words| && r == words[|words| - |r|..]
    ensures r != [] ==> Count(Join(r, ' ')) <= target
  {
    if words == [] || Count(Join(words, ' ')) <= target then words else NewestWords(words[1..], target)
  }

  function ShrunkHistory(sec: Section, target: int): Section {
    var (header, items) := HistoryItems(sec);
    if items == [] then sec.(content := Strip(Join(NewestWords(Split(sec.content, ' '), target), ' ')))
    else
      var newest := NewestFitting(header, items, target);
      sec.(items := if sec.items.Some? then Some(newest) else None,
           content := if newest == [] then "" else RenderHistory(header, newest))
  }

  method DropWords(words: seq<string>, target: int) returns (kept: seq<string>)
    ensures kept == NewestWords(words, target)
  {
    kept := words;
    while kept != [] && Count(Join(kept, ' ')) > target
      invariant NewestWords(kept, target) == NewestWords(words, target)
    {
      kept := kept[1..];
    }
  }

  method DropOldest(header: string, items: seq<Item>, target: int) returns (kept: seq<Item>)
    ensures kept == NewestFitting(header, items, target)
  {
    kept := items;
    while kept != [] && Count(RenderHistory(header, kept)) > target
      invariant NewestFitting(header, kept, target) == NewestFitting(header, items, target)
    {
      kept := kept[1..];
    }
  }

  method ShrinkHistory(sec: Section, target: int) returns (r: Section)
    ensures r == ShrunkHistory(sec, target)
  {
    var (header, items) := HistoryItems(sec);
    if items == [] {
      var words := DropWords(Split(sec.content, ' '), target);
      return sec.(content := Strip(Join(words, ' ')));
    }
    var kept := DropOldest(header, items, target);
    r := sec.(items := if sec.items.Some? then Some(kept) else None,
              content := if kept == [] then "" else RenderHistory(header, kept));
  }

  lemma ShrunkHistoryFits(sec: Section, target: nat)
    ensures Count(ShrunkHistory(sec, target).content) <= target
  {
    var (header, items) := HistoryItems(sec);
    if items == [] {
      var words := NewestWords(Split(sec.content, ' '), target);
      CountMonotone(Strip(Join(words, ' ')), Join(words, ' '));
    }
  }

  // ------------------------------------------------------------------ one section

  function Shrunk(sec: Section, target: int): Section {
    if target <= 0 then sec.(content := "", items := None, tokenCount := 0)
    else
      var cut := if sec.name == HISTORY then ShrunkHistory(sec, target)
                 else sec.(content := KeptText(sec.content, target));
      cut.(tokenCount := Count(cut.content))
  }

  method ShrinkSection(sec: Section, target: int) returns (r: Section)
    ensures r == Shrunk(sec, target)
  {
    if target <= 0 {
      return sec.(content := "", items := None, tokenCount := 0);
    }
    if sec.name == HISTORY {
      r := ShrinkHistory(sec, target);
    } else {
      var text := KeepWholeLines(sec.content, target);
      r := sec.(content := text);
    }
    r := r.(tokenCount := Count(r.content));
  }

  lemma ShrunkFits(sec: Section, target: int)
    ensures Shrunk(sec, target).tokenCount <= if target <= 0 then 0 else if target == 1 then 2 else target
  {
    if target > 0 {
      if sec.name == HISTORY {
        ShrunkHistoryFits(sec, target);
      } else {
        ShrinkMeetsTargetIff(sec.content, target);
      }
    }
  }

  /** A cut invents nothing: plain text keeps a prefix of itself, structured history keeps its newest messages whole
      and renders exactly those, and what identifies the section stays. */
  lemma CutInventsNothing(sec: Section, target: int)
    ensures var cut := Shrunk(sec, target);
            && cut.name == sec.name && cut.priority == sec.priority
            && cut.trimmable == sec.trimmable && cut.header == sec.header
            && (sec.name != HISTORY ==> cut.content <= sec.content)
            && (sec.name == HISTORY && sec.items.Some? && cut.content != "" ==>
                  && cut.items.Some? && IsSuffix(cut.items.value, sec.items.value)
                  && (cut.items.value == [] ==> sec.items.value == [])
                  && (sec.items.value != [] ==> cut.content == RenderHistory(sec.header, cut.items.value)))
  {
  }

  /** The overshoot is real: cutting these eight characters to one token leaves two. */
  lemma SingleTokenSlip(sec: Section)
    requires sec.name == Name("retrieval") && sec.content == "abcdefgh" && sec.tokenCount == 2
    ensures Shrunk(sec, 1).tokenCount == 2
  {
    SplitWithout(sec.content, '\n');
    assert sec.content[|sec.content| - 1] == 'h' && !IsSpace('h');
    ShrinkMeetsTargetIff(sec.content, 1);
  }
}
