/** What a cut keeps (app/context_window/trimmer.py): whole leading lines, as many as the target pays for, else a start
    that ends at a word; of a history the newest messages, as many as fit. */
module Cuts {
  import opened Outcomes
  import opened Text
  import opened TokenCounter
  import opened Trimmer
  import opened TrimSpec

  // What the first k lines of a text show.
  function Leading(text: string, k: nat): string
    requires k <= |Split(text, '\n')|
  {
    StripEnd(Join(Split(text, '\n')[..k], '\n'))
  }

  // The target pays for the first k lines.
  predicate Pays(text: string, target: int, k: nat)
    requires k <= |Split(text, '\n')|
  {
    LinesCost(Split(text, '\n')[..k]) <= target
  }

  /** What lines cost, on their lengths: a quarter of the characters and at least one token for a line that is not
      empty, one token for its break, and costs add up. */
  lemma LinesCostIs(line: string, a: seq<string>, b: seq<string>)
    ensures LinesCost([]) == 0 && LinesCost(a + b) == LinesCost(a) + LinesCost(b)
    ensures LinesCost([line]) == if line == "" then 1 else if |line| < 8 then 2 else |line| / 4 + 1
  {
    LinesCostConcat(a, b);
    assert [line][..0] == [];
  }

  lemma StripEndMonotone(a: string, b: string)
    requires a <= b
    ensures StripEnd(a) <= StripEnd(b)
  {
    var r, s := StripEnd(a), StripEnd(b);
    assert r != "" ==> !IsSpace(b[|r| - 1]);
  }

  lemma LeadingMonotone(text: string, j: nat, k: nat)
    requires j <= k <= |Split(text, '\n')|
    ensures Leading(text, j) <= Leading(text, k)
  {
    var lines := Split(text, '\n');
    JoinPrefix(lines[..k], '\n', j);
    assert lines[..k][..j] == lines[..j];
    StripEndMonotone(Join(lines[..j], '\n'), Join(lines[..k], '\n'));
  }

  /** A cut shows every run of whole leading lines that its target pays for. */
  lemma KeepsPaidLines(text: string, target: int, k: nat)
    requires k <= |Split(text, '\n')| && Pays(text, target, k)
    ensures Leading(text, k) <= KeptText(text, target)
  {
    var lines := Split(text, '\n');
    var f := FittingLines(lines, target);
    if k > f {
      CostMonotone(lines, f + 1, k);
    }
    if k > 0 {
      LeadingMonotone(text, k, f);
    }
  }

  /** When the target pays for the first line, a cut shows the longest run of whole lines it pays for, and nothing of
      the line after. */
  lemma KeepsLongestRun(text: string, target: int, k: nat)
    requires 0 < k <= |Split(text, '\n')| && Pays(text, target, k)
    requires k < |Split(text, '\n')| ==> !Pays(text, target, k + 1)
    ensures KeptText(text, target) == Leading(text, k)
  {
    FittingIsUnique(Split(text, '\n'), target, k);
  }

  // How many characters are looked at when not even the first line is paid for: four a token but at least ten, or the
  // whole text when it counts no more than the target.
  function CutLength(text: string, target: int): (c: nat)
    ensures c <= |text|
  {
    if target <= 0 then 0
    else if |text| / 4 <= target || |text| <= 10 then |text|
    else if target < 3 then 10 else 4 * target
  }

  // m ends the first c characters at a word: at c if the word ends there, else at the last blank, line break or tab
  // before c, else nowhere.
  ghost predicate EndsAtWord(text: string, c: nat, m: nat)
    requires c <= |text|
  {
    if c == |text| || IsSpace(text[c]) then m == c
    else
      && (m == 0 || (m < c && (text[m] == ' ' || text[m] == '\n' || text[m] == '\t')))
      && forall i :: m < i < c ==> text[i] != ' ' && text[i] != '\n' && text[i] != '\t'
  }

  /** When the target does not even pay for the first line, a cut shows the start of the text up to a word's end. */
  lemma KeepsStartToWord(text: string, target: int, m: nat)
    requires !Pays(text, target, 1) && EndsAtWord(text, CutLength(text, target), m)
    ensures KeptText(text, target) == StripEnd(text[..m])
  {
    var lines := Split(text, '\n');
    var f := FittingLines(lines, target);
    CostMonotone(lines, 1, if f > 0 then f else 1);
    var c := CutLength(text, target);
    assert Truncate(text, target) == text[..c];
    var space := LastBreak(text[..c]);
    if c < |text| && !IsSpace(text[c]) {
      assert space > 0 ==> m == space && text[..c][..space] == text[..m];
    }
  }

  // ------------------------------------------------------------------ history

  /** Every run of newest messages that fits the target stays, whole. */
  lemma {:induction false} KeepsFittingMessages(header: string, items: seq<Item>, target: int, i: nat)
    requires i < |items| && Count(RenderHistory(header, items[i..])) <= target
    ensures |items| - i <= |NewestFitting(header, items, target)|
  {
    assert items[0..] == items;
    if i > 0 {
      assert items[1..][i - 1..] == items[i..];
      KeepsFittingMessages(header, items[1..], target, i - 1);
    }
  }

  lemma {:induction false} KeepsFittingWords(words: seq<string>, target: int, i: nat)
    requires i < |words| && Count(Join(words[i..], ' ')) <= target
    ensures |words| - i <= |NewestWords(words, target)|
  {
    assert words[0..] == words;
    if i > 0 {
      assert words[1..][i - 1..] == words[i..];
      KeepsFittingWords(words[1..], target, i - 1);
    }
  }

  // ------------------------------------------------------------------ through a trim

  // What a trim must leave of section j: all of it when nothing is asked of it; else the leading lines that its
  // target pays for, or of a structured history the newest messages that fit.
  ghost predicate Keeps(sec: Section, cut: Section, target: int) {
    if target == sec.tokenCount then cut == sec
    else if sec.name != HISTORY then
      forall k: nat :: k <= |Split(sec.content, '\n')| && Pays(sec.content, target, k)
                       ==> Leading(sec.content, k) <= cut.content
    else
      var (header, items) := Messages(sec);
      && (forall i: nat :: i < |items| && FitsFrom(header, items, target, i) ==> ShowsFrom(sec, header, items, cut, i))
      && (items == [] ==>
            forall i: nat :: i < |Split(sec.content, ' ')| && WordsFit(sec.content, target, i)
                             ==> ShowsWords(sec.content, cut.content, i))
  }

  // The header and the messages of a history section: its own, or those that its text is parsed into.
  function Messages(sec: Section): (string, seq<Item>) {
    match sec.items
    case Some(items) => (sec.header, items)
    case None => ParseHistory(Split(sec.content, '\n'))
  }

  predicate FitsFrom(header: string, items: seq<Item>, target: int, i: nat)
    requires i < |items|
  {
    Count(RenderHistory(header, items[i..])) <= target
  }

  // The cut shows the messages from i on, or from an earlier one on, and carries them if the section carried any.
  ghost predicate ShowsFrom(sec: Section, header: string, items: seq<Item>, cut: Section, i: nat)
    requires i < |items|
  {
    exists from: nat :: from <= i && cut.content == RenderHistory(header, items[from..])
                        && cut.items == if sec.items.Some? then Some(items[from..]) else None
  }

  predicate WordsFit(text: string, target: int, i: nat)
    requires i < |Split(text, ' ')|
  {
    Count(Join(Split(text, ' ')[i..], ' ')) <= target
  }

  // Of a history without messages the words from i on are shown, or from an earlier one on.
  ghost predicate ShowsWords(text: string, shown: string, i: nat)
    requires i < |Split(text, ' ')|
  {
    exists from: nat :: from <= i && shown == Strip(Join(Split(text, ' ')[from..], ' '))
  }

  lemma TextKeeps(sec: Section, target: int)
    requires target > 0 && target != sec.tokenCount && sec.name != HISTORY
    ensures Keeps(sec, Shrunk(sec, target), target)
  {
    forall k: nat | k <= |Split(sec.content, '\n')| && Pays(sec.content, target, k)
      ensures Leading(sec.content, k) <= KeptText(sec.content, target)
    {
      KeepsPaidLines(sec.content, target, k);
    }
  }

  lemma MessagesKeep(sec: Section, target: int, i: nat)
    requires target > 0 && sec.name == HISTORY
    requires var (header, items) := Messages(sec); i < |items| && FitsFrom(header, items, target, i)
    ensures var (header, items) := Messages(sec); ShowsFrom(sec, header, items, Shrunk(sec, target), i)
  {
    var (header, items) := Messages(sec);
    KeepsFittingMessages(header, items, target, i);
    var newest := NewestFitting(header, items, target);
    var from := |items| - |newest|;
    assert newest == items[from..] && newest != [];
  }

  lemma WordsKeep(sec: Section, target: int, i: nat)
    requires target > 0 && sec.name == HISTORY && Messages(sec).1 == []
    requires i < |Split(sec.content, ' ')| && WordsFit(sec.content, target, i)
    ensures ShowsWords(sec.content, Shrunk(sec, target).content, i)
  {
    var words := Split(sec.content, ' ');
    KeepsFittingWords(words, target, i);
    var newest := NewestWords(words, target);
    assert newest == words[|words| - |newest|..];
  }

  lemma AskedKeeps(sec: Section, cut: Section, target: int)
    requires AskedOf(sec, cut, target) && target > 0
    ensures Keeps(sec, cut, target)
  {
    if target == sec.tokenCount {
      return;
    }
    if sec.name != HISTORY {
      TextKeeps(sec, target);
    } else {
      var (header, items) := Messages(sec);
      forall i: nat | i < |items| && FitsFrom(header, items, target, i)
        ensures ShowsFrom(sec, header, items, cut, i)
      {
        MessagesKeep(sec, target, i);
      }
      if items == [] {
        forall i: nat | i < |Split(sec.content, ' ')| && WordsFit(sec.content, target, i)
          ensures ShowsWords(sec.content, cut.content, i)
        {
          WordsKeep(sec, target, i);
        }
      }
    }
  }

  lemma {:induction false} StaysIfNotBlank(sections: seq<Section>, j: nat)
    requires j < |sections| && !Blank(sections[j].content)
    ensures sections[j] in NonBlank(sections)
  {
    if j < |sections| - 1 {
      StaysIfNotBlank(sections[..|sections| - 1], j);
    }
  }

  /** A trim drops no line or message that it has the room for: every section keeps the leading lines or newest messages
      that its target pays for, and is in the result unless that leaves it blank. */
  lemma TrimKeepsPaid(sections: seq<Section>, budget: int, working: seq<Section>, targets: seq<int>, r: Trimmed, j: nat)
    requires IsTrim(sections, budget, working, targets, r) && r.Fits? && Total(sections) > budget && j < |sections|
    ensures |working| == |targets| == |sections| && (targets[j] > 0 ==> Keeps(sections[j], working[j], targets[j]))
    ensures Blank(working[j].content) || working[j] in r.sections
  {
    if targets[j] > 0 {
      AskedKeeps(sections[j], working[j], targets[j]);
    }
    if !Blank(working[j].content) {
      StaysIfNotBlank(working, j);
    }
  }

  /** What a trim may not take: a locked section stays as it is, and of the protected kinds the target keeps at
      least their floor, or the whole section where that is smaller. */
  lemma FloorsProtect(sections: seq<Section>, working: seq<Section>, targets: seq<int>, budget: int, j: nat)
    requires AsksExactly(sections, working, targets, budget) && j < |sections|
    ensures var sec := sections[j];
            var floor := if sec.name == Name("draft_content") || sec.name == Name("conversation_history") then 200
                         else if sec.name == Name("long_term_memory") then 100
                         else if sec.name == Name("tool_results") then 50
                         else 0;
            && (!sec.trimmable || sec.priority >= 10 ==> working[j] == sec)
            && (targets[j] >= floor || targets[j] == sec.tokenCount)
            && 0 <= targets[j] <= sec.tokenCount
  {
    AskedBelow(sections[j], working[j], targets[j]);
  }

  // Section k has a higher priority, and something is asked of it.
  predicate AskedAbove(sections: seq<Section>, targets: seq<int>, priority: nat, k: nat)
    requires k < |sections| == |targets|
  {
    targets[k] < sections[k].tokenCount && priority < sections[k].priority
  }

  /** What a trim must take before it gives up, or before it touches a section of higher priority: every section of a
      priority below 10 that may be trimmed is asked for all that its floor does not protect. */
  lemma LowPriorityGoesFirst(sections: seq<Section>, working: seq<Section>, targets: seq<int>, budget: int, j: nat)
    requires AsksExactly(sections, working, targets, budget)
    requires j < |sections| && sections[j].trimmable && sections[j].priority < 10
    ensures var sec := sections[j];
            var floor := if sec.name == Name("draft_content") || sec.name == Name("conversation_history") then 200
                         else if sec.name == Name("long_term_memory") then 100
                         else if sec.name == Name("tool_results") then 50
                         else 0;
            (Demand(sections) > budget
             || exists k: nat :: k < |sections| && AskedAbove(sections, targets, sec.priority, k))
            ==> targets[j] == if sec.tokenCount < floor then sec.tokenCount else floor
  {
    AskedByPriority(sections, working, targets, budget);
    if Demand(sections) > budget {
      AllAtFloor(sections, targets);
    } else if k: nat :| k < |sections| && AskedAbove(sections, targets, sections[j].priority, k) {
      assert Before(sections, j, k);
    }
  }
}
