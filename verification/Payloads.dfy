/** What a fitted request sends and how large it is: nothing of the kept sections is lost on the way to the chat payload
    (app/prompts/compose.py), and the sizes stay within both limits (app/context_window/fit.py, manager.py). */
module Payloads {
  import opened Outcomes
  import opened Text
  import opened TokenCounter
  import opened Trimmer
  import opened TrimSpec
  import opened Compaction
  import opened History
  import opened Fit

  // The text occurs in the whole, without a gap.
  ghost predicate Within(text: string, whole: string) { exists a: nat :: IsAt(text, whole, a) }

  predicate IsAt(text: string, whole: string, a: nat) { a + |text| <= |whole| && whole[a..a + |text|] == text }

  // Some message of this role has the text.
  ghost predicate Sent(chat: seq<Chat>, role: Role, text: string) {
    exists k :: 0 <= k < |chat| && chat[k].role == role && Within(text, chat[k].content)
  }

  lemma WithinLarger(text: string, left: string, whole: string, right: string)
    requires Within(text, whole)
    ensures Within(text, left + whole + right)
  {
    var a: nat :| IsAt(text, whole, a);
    assert IsAt(text, left + whole + right, |left| + a);
  }

  lemma WithinItself(text: string)
    ensures Within(text, text)
  {
    assert IsAt(text, text, 0);
  }

  lemma {:induction false} ParagraphsShow(contents: seq<string>, i: nat)
    requires i < |contents|
    ensures Within(contents[i], Paragraphs(contents))
  {
    var rest := Paragraphs(contents[1..]);
    if i == 0 {
      WithinItself(contents[0]);
      WithinLarger(contents[0], "", contents[0], if |contents| == 1 then "" else "\n\n" + rest);
      assert "" + contents[0] + "" == contents[0];
      assert |contents| > 1 ==> "" + contents[0] + ("\n\n" + rest) == Paragraphs(contents);
    } else {
      ParagraphsShow(contents[1..], i - 1);
      WithinLarger(contents[i], contents[0] + "\n\n", rest, "");
      assert contents[0] + "\n\n" + rest + "" == Paragraphs(contents);
    }
  }

  lemma {:induction false} ContentsHave(sections: seq<Section>, keep: Name -> bool, i: nat) returns (k: nat)
    requires i < |sections| && keep(sections[i].name)
    ensures k < |Contents(sections, keep)| && Contents(sections, keep)[k] == sections[i].content
  {
    if i == 0 {
      k := 0;
    } else {
      k := ContentsHave(sections[1..], keep, i - 1);
      if keep(sections[0].name) {
        k := k + 1;
      }
    }
  }

  // The paragraphs of the kept sections show each of them.
  lemma KeptIsShown(sections: seq<Section>, keep: Name -> bool, i: nat)
    requires i < |sections| && keep(sections[i].name)
    ensures Within(sections[i].content, Paragraphs(Contents(sections, keep)))
  {
    var k := ContentsHave(sections, keep, i);
    ParagraphsShow(Contents(sections, keep), k);
  }

  lemma AppendSends(chat: seq<Chat>, role: Role, content: string, text: string)
    requires Within(text, content)
    ensures Sent(Append(chat, role, content), role, text)
  {
    var r := Append(chat, role, content);
    if chat != [] && chat[|chat| - 1].role == role {
      var before := chat[|chat| - 1].content;
      WithinLarger(text, before + "\n\n", content, "");
      assert before + "\n\n" + content + "" == r[|r| - 1].content;
    }
    assert r[|r| - 1].role == role;
  }

  lemma AppendKeeps(chat: seq<Chat>, role: Role, content: string, k: nat, text: string)
    requires k < |chat| && Within(text, chat[k].content)
    ensures var r := Append(chat, role, content); k < |r| && r[k].role == chat[k].role && Within(text, r[k].content)
  {
    WithinLarger(text, "", chat[k].content, "\n\n" + content);
    assert "" + chat[k].content + ("\n\n" + content) == chat[k].content + "\n\n" + content;
  }

  // ------------------------------------------------------------------ sections

  /** No section is lost on the way: the text of a system section is in the system message, and the text of any
      other is in a message of the user, unless it is a history that is sent as messages of its own. */
  lemma SectionIsSent(sections: seq<Section>, asMessages: bool, i: nat)
    requires i < |sections| && sections[i].content != ""
    requires sections[i].name == HISTORY ==> !asMessages || FirstHistory(sections) == []
    ensures Sent(ComposeMessages(sections, asMessages), if sections[i].name == Name("system") then System else User,
                 sections[i].content)
  {
    var text, chat := sections[i].content, ComposeMessages(sections, asMessages);
    if sections[i].name == SYSTEM_SECTION {
      KeptIsShown(sections, n => n == SYSTEM_SECTION, i);
      SystemIsSent(sections, asMessages, text);
    } else if asMessages && FirstHistory(sections) != [] {
      KeptIsShown(sections, n => n != SYSTEM_SECTION && n != HISTORY, i);
      RestIsSent(sections, text);
    } else {
      KeptIsShown(sections, n => n != SYSTEM_SECTION, i);
      UserIsSent(sections, asMessages, text);
    }
  }

  lemma SystemIsSent(sections: seq<Section>, asMessages: bool, text: string)
    requires text != "" && Within(text, Paragraphs(Contents(sections, n => n == SYSTEM_SECTION)))
    ensures Sent(ComposeMessages(sections, asMessages), System, text)
  {
    var system := Paragraphs(Contents(sections, n => n == SYSTEM_SECTION));
    var chat := ComposeMessages(sections, asMessages);
    var talk := HistoryMessages(FirstHistory(sections));
    HistoryMessagesAlternate(FirstHistory(sections));
    if asMessages && FirstHistory(sections) != [] {
      var rest := Paragraphs(Contents(sections, n => n != SYSTEM_SECTION && n != HISTORY));
      var before := [Chat(System, system)] + talk;
      AppendKeeps(before, User, rest, 0, text);
    }
    assert chat[0].role == System && Within(text, chat[0].content);
  }

  lemma RestIsSent(sections: seq<Section>, text: string)
    requires FirstHistory(sections) != [] && text != ""
    requires Within(text, Paragraphs(Contents(sections, n => n != SYSTEM_SECTION && n != HISTORY)))
    ensures Sent(ComposeMessages(sections, true), User, text)
  {
    var system := Paragraphs(Contents(sections, n => n == SYSTEM_SECTION));
    var rest := Paragraphs(Contents(sections, n => n != SYSTEM_SECTION && n != HISTORY));
    var opening := if system == "" then [] else [Chat(System, system)];
    AppendSends(opening + HistoryMessages(FirstHistory(sections)), User, rest, text);
  }

  lemma UserIsSent(sections: seq<Section>, asMessages: bool, text: string)
    requires text != "" && (!asMessages || FirstHistory(sections) == [])
    requires Within(text, Paragraphs(Contents(sections, n => n != SYSTEM_SECTION)))
    ensures Sent(ComposeMessages(sections, asMessages), User, text)
  {
    var chat := ComposeMessages(sections, asMessages);
    var last := chat[|chat| - 1];
    assert last.role == User && Within(text, last.content);
  }

  /** Sections keep their order: the text of some sections is the text of the first of them, an empty line, and the
      text of the rest. */
  lemma {:induction false} SectionsInOrder(a: seq<Section>, b: seq<Section>, keep: Name -> bool)
    ensures Contents(a + b, keep) == Contents(a, keep) + Contents(b, keep)
  {
    if a == [] {
      assert a + b == b;
    } else {
      assert (a + b)[1..] == a[1..] + b;
      SectionsInOrder(a[1..], b, keep);
    }
  }

  lemma {:induction false} ParagraphsInOrder(a: seq<string>, b: seq<string>)
    requires a != [] && b != []
    ensures Paragraphs(a + b) == Paragraphs(a) + "\n\n" + Paragraphs(b)
  {
    assert (a + b)[1..] == a[1..] + b;
    if |a| > 1 {
      ParagraphsInOrder(a[1..], b);
    }
  }

  // ------------------------------------------------------------------ history as messages

  predicate IsTalk(item: Item) { (item.role == User || item.role == Assistant) && !Blank(item.content) }

  // Message k has this role and shows the text.
  ghost predicate Shown(chat: seq<Chat>, k: nat, turn: Chat) {
    k < |chat| && chat[k].role == turn.role && Within(turn.content, chat[k].content)
  }

  function TurnsIn(item: Item): seq<Chat> {
    if IsTalk(item) then [Chat(item.role, Strip(item.content))] else []
  }

  function Collected(turnsIn: Item -> seq<Chat>, items: seq<Item>): seq<Chat> {
    if items == [] then []
    else Collected(turnsIn, items[..|items| - 1]) + turnsIn(items[|items| - 1])
  }

  // The turns of user and assistant, stripped.
  function Turns(items: seq<Item>): seq<Chat> { Collected(TurnsIn, items) }

  // The messages that turns merge into.
  function Folded(turns: seq<Chat>): seq<Chat> {
    if turns == [] then []
    else Append(Folded(turns[..|turns| - 1]), turns[|turns| - 1].role, turns[|turns| - 1].content)
  }

  lemma FoldedOneMore(turns: seq<Chat>, turn: Chat)
    ensures Folded(turns + [turn]) == Append(Folded(turns), turn.role, turn.content)
  {
    assert (turns + [turn])[..|turns|] == turns;
  }

  /** How turns become messages: one after a turn of the same speaker is added to that message after an empty line,
      any other starts a message of its own. */
  lemma TurnsMerge(items: seq<Item>, item: Item)
    requires item.role == User || item.role == Assistant
    ensures var chat, n := Merged(items), |Merged(items)|;
            Merged(items + [item])
            == if Strip(item.content) == "" then chat
               else if n > 0 && chat[n - 1].role == item.role then
                 chat[n - 1 := Chat(item.role, chat[n - 1].content + "\n\n" + Strip(item.content))]
               else chat + [Chat(item.role, Strip(item.content))]
  {
    assert (items + [item])[..|items|] == items;
    BlankIffStripped(item.content);
    var chat := Merged(items);
    assert chat != [] ==> chat == chat[..|chat| - 1] + [chat[|chat| - 1]];
  }

  lemma {:induction false} MergedIsFolded(items: seq<Item>)
    ensures Merged(items) == Folded(Turns(items))
  {
    if items != [] {
      var last, turns := items[|items| - 1], Turns(items[..|items| - 1]);
      MergedIsFolded(items[..|items| - 1]);
      FoldedOneMore(turns, Chat(last.role, Strip(last.content)));
      assert turns + [] == turns;
    }
  }

  lemma NewestShown(turns: seq<Chat>, turn: Chat) returns (k: nat)
    ensures |Folded(turns)| <= k + 1 == |Folded(turns + [turn])| && Shown(Folded(turns + [turn]), k, turn)
  {
    var chat := Folded(turns + [turn]);
    k := |chat| - 1;
    FoldedOneMore(turns, turn);
    LastShows(Folded(turns), turn.role, turn.content);
  }

  // Every turn is in a message of its role, and not in one before those that were there at its time.
  lemma {:induction false} FoldedShows(turns: seq<Chat>, j: nat) returns (k: nat)
    requires j < |turns|
    ensures |Folded(turns[..j])| <= k + 1 && Shown(Folded(turns), k, turns[j])
  {
    var n := |turns| - 1;
    var front, last := turns[..n], turns[n];
    assert front + [last] == turns;
    if j < n {
      k := FoldedShows(front, j);
      assert front[..j] == turns[..j];
      FoldedOneMore(front, last);
      AppendKeeps(Folded(front), last.role, last.content, k, turns[j].content);
    } else {
      k := NewestShown(front, last);
    }
  }

  lemma LastShows(chat: seq<Chat>, role: Role, content: string)
    ensures var r := Append(chat, role, content);
            && r != [] && |chat| <= |r| && r[|r| - 1].role == role && Within(content, r[|r| - 1].content)
  {
    var r := Append(chat, role, content);
    WithinItself(content);
    if chat != [] && chat[|chat| - 1].role == role {
      var before := chat[|chat| - 1].content;
      WithinLarger(content, before + "\n\n", content, "");
      assert before + "\n\n" + content + "" == r[|r| - 1].content;
    }
  }

  lemma FromUserDropsOne(chat: seq<Chat>, k: nat, turn: Chat)
    requires Alternates(chat) && Shown(chat, k, turn) && (k == 0 ==> chat[0].role == User)
    ensures Sent(FromUser(chat), turn.role, turn.content)
  {
    if chat[0].role != User {
      assert chat[1].role == User;
      assert FromUser(chat) == chat[1..] && chat[1..][k - 1] == chat[k];
    }
  }

  // Until turn j there is no message but the first: then that one is of the user.
  lemma FirstIsUser(turns: seq<Chat>, first: nat, j: nat)
    requires first < j <= |turns| && turns[first].role == User && |Folded(turns[..j])| <= 1
    ensures Folded(turns) != [] && Folded(turns)[0].role == User
  {
    var k := FoldedShows(turns[..j], first);
    FirstStays(turns, j);
  }

  lemma NotDropped(turns: seq<Chat>, first: nat, j: nat, k: nat)
    requires first <= j < |turns| && turns[first].role == User
    requires Shown(Folded(turns), k, turns[j]) && |Folded(turns[..j])| <= k + 1
    ensures k == 0 ==> Folded(turns)[0].role == User
  {
    if first < j && k == 0 {
      FirstIsUser(turns, first, j);
    }
  }

  // From the first turn of the user on, no turn is in a message that is dropped.
  lemma FoldedIsSent(turns: seq<Chat>, first: nat, j: nat)
    requires first <= j < |turns| && turns[first].role == User && Alternates(Folded(turns))
    ensures Sent(FromUser(Folded(turns)), turns[j].role, turns[j].content)
  {
    var k := FoldedShows(turns, j);
    NotDropped(turns, first, j, k);
    FromUserDropsOne(Folded(turns), k, turns[j]);
  }

  lemma {:induction false} FirstStays(turns: seq<Chat>, n: nat)
    requires n <= |turns| && Folded(turns[..n]) != []
    ensures Folded(turns) != [] && Folded(turns)[0].role == Folded(turns[..n])[0].role
  {
    if n < |turns| {
      FirstStays(turns[..|turns| - 1], n);
      assert turns[..|turns| - 1][..n] == turns[..n];
    } else {
      assert turns[..n] == turns;
    }
  }

  // Where the turn of item j comes among all turns.
  lemma {:induction false} CollectedAt(turnsIn: Item -> seq<Chat>, items: seq<Item>, j: nat)
    requires j < |items| && turnsIn(items[j]) != []
    ensures |Collected(turnsIn, items[..j])| < |Collected(turnsIn, items)|
    ensures Collected(turnsIn, items)[|Collected(turnsIn, items[..j])|] == turnsIn(items[j])[0]
  {
    var n := |items| - 1;
    if j < n {
      CollectedAt(turnsIn, items[..n], j);
      assert items[..n][..j] == items[..j];
    }
  }

  lemma {:induction false} CollectedGrow(turnsIn: Item -> seq<Chat>, items: seq<Item>, m: nat, n: nat)
    requires m <= n <= |items|
    ensures |Collected(turnsIn, items[..m])| <= |Collected(turnsIn, items[..n])|
    decreases n
  {
    if m < n {
      CollectedGrow(turnsIn, items, m, n - 1);
      assert items[..n][..n - 1] == items[..n - 1];
    }
  }

  /** A history sent as messages loses no turn: from the first turn of the user on, every turn of user and assistant
      is in a message of its role. */
  lemma TurnIsSent(items: seq<Item>, first: nat, j: nat)
    requires first <= j < |items| && IsTalk(items[first]) && items[first].role == User && IsTalk(items[j])
    ensures Sent(HistoryMessages(items), items[j].role, Strip(items[j].content))
  {
    MergedAlternates(items);
    MergedIsFolded(items);
    CollectedAt(TurnsIn, items, first);
    CollectedAt(TurnsIn, items, j);
    CollectedGrow(TurnsIn, items, first, j);
    FoldedIsSent(Turns(items), |Turns(items[..first])|, |Turns(items[..j])|);
  }

  // ------------------------------------------------------------------ the history section

  lemma {:induction false} JoinShows(parts: seq<string>, i: nat)
    requires i < |parts|
    ensures Within(parts[i], Join(parts, '\n'))
  {
    var rest := Join(parts[1..], '\n');
    if i == 0 {
      WithinItself(parts[0]);
      WithinLarger(parts[0], "", parts[0], if |parts| == 1 then "" else ['\n'] + rest);
      assert "" + parts[0] + "" == parts[0];
      assert |parts| > 1 ==> "" + parts[0] + (['\n'] + rest) == Join(parts, '\n');
    } else {
      JoinShows(parts[1..], i - 1);
      WithinLarger(parts[i], parts[0] + ['\n'], rest, "");
      assert parts[0] + ['\n'] + rest + "" == Join(parts, '\n');
    }
  }

  lemma RenderedShows(header: string, items: seq<Item>, i: nat)
    requires i < |items|
    ensures var text := Join([header] + RenderedItems(items), '\n');
            Within(header, text) && Within(RoleLabel(items[i].role) + ": " + items[i].content, text)
  {
    HeadAndTailShow(header, RenderedItems(items), i);
  }

  lemma HeadAndTailShow(head: string, tail: seq<string>, i: nat)
    requires i < |tail|
    ensures var text := Join([head] + tail, '\n'); Within(head, text) && Within(tail[i], text)
  {
    JoinShows([head] + tail, 0);
    JoinShows([head] + tail, i + 1);
  }

  /** The history section of a built prompt: it can be trimmed, after everything of a priority below 8, it carries the
      messages that are not blank, and its text shows the header and every message with its role. */
  lemma HistorySectionIs(header: string, history: seq<Message>, i: nat)
    requires i < |history|
    ensures var sec := HistorySection(header, history);
            && sec.name == Name("conversation_history") && sec.priority == 8 && sec.trimmable
            && sec.tokenCount == Count(sec.content) && sec.header == header
            && sec.items == Some(ItemsOf(history)) && Within(header, sec.content)
            && Within(RoleLabel(history[i].role) + ": " + Strip(history[i].content), sec.content)
  {
    var shown := seq(|history|, k requires 0 <= k < |history| => Item(history[k].role, Strip(history[k].content)));
    RenderedShows(header, shown, i);
  }

  /** A built prompt has all its sections, the history, if there is any, between those before and those after it. */
  lemma BuiltIsComplete(s: Surrounding, history: seq<Message>)
    ensures var built := Build(s, history);
            && |built| == |s.before| + |s.after| + (if history == [] then 0 else 1)
            && s.before <= built && IsSuffix(s.after, built)
            && (history != [] ==> built[|s.before|] == HistorySection(s.header, history))
  {
  }

  // ------------------------------------------------------------------ sizes

  /** The size of a payload: four tokens a message besides its text, and two for the answer. */
  lemma CountMessagesIs(chat: seq<Chat>, next: Chat)
    ensures CountMessages([]) == 2
    ensures CountMessages(chat + [next]) == CountMessages(chat) + Count(next.content) + 4
  {
    assert (chat + [next])[..|chat|] == chat;
  }

  /** A managed prompt counts no more than was asked for, and no more than the model takes. */
  lemma ManagedIsSmall(sections: seq<Section>, custom: nat, modelCeiling: int, asMessages: bool, r: Fitted)
    requires ManagesTo(sections, custom, modelCeiling, asMessages, r) && r.Ok?
    ensures r.value.totalTokens == Total(r.value.sections) <= modelCeiling
    ensures custom != 0 ==> r.value.totalTokens <= custom
  {
    var t := TrimOf(sections, Ceiling(custom, modelCeiling), r);
  }

  /** The limits of a managed prompt: the smaller of what was asked for and what the model takes. */
  lemma CeilingIs(custom: nat, modelCeiling: int)
    ensures Ceiling(0, modelCeiling) == modelCeiling
    ensures custom > 0 ==> && Ceiling(custom, modelCeiling) <= custom && Ceiling(custom, modelCeiling) <= modelCeiling
                           && Ceiling(custom, modelCeiling) in [custom, modelCeiling]
  {
  }

  lemma RoundedDown(x: real, n: int)
    ensures n >= x.Floor <==> n as real + 1.0 > x
    ensures n <= x.Floor <==> n as real <= x
    ensures x.Floor as real <= x < x.Floor as real + 1.0
  {
  }

  /** When a prompt sets off compaction: from the trigger share of the budget on, rounded down, or beyond the budget. */
  lemma TriggersIff(cfg: FitSettings, estimate: nat)
    ensures Triggers(cfg, estimate)
            <==> && cfg.compactionEnabled
                 && (estimate as real + 1.0 > cfg.inputBudget as real * cfg.triggerRatio || estimate > cfg.inputBudget)
  {
    RoundedDown(Portion(cfg.inputBudget, cfg.triggerRatio), estimate);
  }

  lemma LargestWithin(share: real, rest: int, other: nat)
    ensures var room := share.Floor - rest;
            var allowance := if room > 0 then room else 0;
            && (allowance > 0 ==> (allowance + rest) as real <= share)
            && ((other + rest) as real <= share ==> other <= allowance)
  {
    RoundedDown(share, other + rest);
    RoundedDown(share, share.Floor);
  }

  /** How much the history may then take: the most that keeps the whole prompt within the target share of the budget, or
      nothing; and the note gets its share of that. */
  lemma AllowanceIsLargest(cfg: FitSettings, estimate: nat, history: seq<Message>, other: nat)
    ensures var allowance, rest := Allowance(cfg, estimate, history), estimate - TotalTokens(history);
            var share := Portion(cfg.inputBudget, cfg.targetRatio);
            && (allowance > 0 ==> (allowance + rest) as real <= share)
            && ((other + rest) as real <= share ==> other <= allowance)
  {
    LargestWithin(Portion(cfg.inputBudget, cfg.targetRatio), estimate - TotalTokens(history), other);
  }

  lemma NoteShareIs(cfg: FitSettings, allowance: nat)
    ensures var share := Portion(allowance, cfg.noteShare);
            NoteReserve(cfg, allowance) as real <= share < NoteReserve(cfg, allowance) as real + 1.0
  {
  }

  /** Each pass after the first aims lower by as much as the one before it was over the budget, but at no less than
      one. */
  lemma PassesAimLower(inputBudget: nat, manages: Managing, passes: seq<Pass>, i: nat)
    requires ArePasses(inputBudget, manages, passes) && i + 1 < |passes|
    ensures var over := CountMessages(passes[i].prompt.messages) - inputBudget;
            && over > 0
            && passes[i + 1].target == if passes[i].target - over > 1 then passes[i].target - over else 1
  {
    assert Succeeds(inputBudget, passes[i], passes[i + 1]);
  }

  /** The second trim of a refit aims lower by what the payload of the first measures beyond its sections. */
  lemma RefitAims(inputBudget: nat, first: Prompt)
    ensures var left := inputBudget - (CountMessages(first.messages) - first.totalTokens);
            SecondTarget(inputBudget, first) == if left < 1 then 1 else left
  {
  }

  lemma {:induction false} TargetsShrink(inputBudget: nat, manages: Managing, passes: seq<Pass>, n: nat)
    requires ArePasses(inputBudget, manages, passes) && n < |passes| && inputBudget >= 1
    ensures 1 <= passes[n].target <= inputBudget
  {
    if n > 0 {
      TargetsShrink(inputBudget, manages, passes, n - 1);
      assert Succeeds(inputBudget, passes[n - 1], passes[n]);
    }
  }

  /** A fitted prompt is within the input budget both as a payload and by its sections, within what the model takes,
      and was reached in at most six trims. */
  lemma FittedIsSmall(cfg: FitSettings, composed: seq<Section>, passes: seq<Pass>, r: Fitted)
    requires cfg.inputBudget >= 1
    ensures IsFitting(cfg, composed, passes, r) && r.Ok? ==>
              && CountMessages(r.value.messages) <= cfg.inputBudget
              && r.value.totalTokens <= cfg.inputBudget && r.value.totalTokens <= cfg.modelCeiling
              && |passes| <= 6
  {
    if IsFitting(cfg, composed, passes, r) && r.Ok? {
      var last := passes[|passes| - 1];
      TargetsShrink(cfg.inputBudget, ManagingOf(cfg, composed), passes, |passes| - 1);
      assert ManagingOf(cfg, composed)(last.target, Ok(last.prompt));
      ManagedIsSmall(composed, last.target, cfg.modelCeiling, cfg.asMessages, Ok(last.prompt));
    }
  }

  /** Fitting fails only with the overflow of a trim, or after six trims with the size that the last of them still
      has. */
  lemma UnfitAfterSix(cfg: FitSettings, composed: seq<Section>, passes: seq<Pass>, size: nat) returns (target: nat)
    ensures IsFitting(cfg, composed, passes, Err(size)) ==>
              || ManagesTo(composed, target, cfg.modelCeiling, cfg.asMessages, Err(size))
              || (|passes| == 6 && size == CountMessages(passes[5].prompt.messages) > cfg.inputBudget)
  {
    target := 0;
    if IsFitting(cfg, composed, passes, Err(size)) && |passes| < 6 {
      target := Upcoming(cfg.inputBudget, passes);
      assert ManagingOf(cfg, composed)(target, Err(size));
    }
  }
}
