/** The conversation history of one request: merging its two sources (app/pipeline/request_pipeline.py), turning it
    into a prompt section (app/prompts/builder.py) and into chat messages (app/prompts/compose.py), and what is left
    of it after compaction and trimming. */
module History {
  import opened Outcomes
  import opened Text
  import opened Trimmer
  import opened Compaction
  import opened TrimSpec

  // ------------------------------------------------------------------ merging

  predicate HasId(m: Message) { m.id.Some? && m.id.value != Name("") }

  // Role and whitespace-normalised text.
  function Signature(m: Message): (Role, string) { (m.role, Flat(m.content)) }

  // Recognised by id, or by signature.
  predicate Known(m: Message, events: seq<Message>) {
    exists i :: 0 <= i < |events| && ((HasId(m) && events[i].id == m.id) || Signature(events[i]) == Signature(m))
  }

  // The position of the first message both sources know.
  function FirstKnown(memory: seq<Message>, events: seq<Message>): (i: nat)
    ensures i <= |memory|
    ensures i < |memory| ==> Known(memory[i], events)
    ensures forall j :: 0 <= j < i ==> !Known(memory[j], events)
  {
    if memory == [] || Known(memory[0], events) then 0
    else
      var rest := FirstKnown(memory[1..], events);
      assert forall j :: 1 <= j < 1 + rest ==> memory[j] == memory[1..][j - 1];
      1 + rest
  }

  function MergeHistories(memory: seq<Message>, events: seq<Message>): seq<Message> {
    if events == [] then memory
    else if memory == [] then events
    else
      var i := FirstKnown(memory, events);
      if i < |memory| then memory[..i] + events else memory
  }

  /** Merging two overlapping windows of one conversation restores the conversation from the older start on if and only
      if no message before the overlap is mistaken for one the request carries. */
  lemma MergeIsUnionIff(h: seq<Message>, a: nat, b: nat, c: nat)
    requires a < b <= |h| && c < b
    ensures MergeHistories(h[a..b], h[c..]) == h[if a < c then a else c..]
            <==> forall k, i :: a <= k < c <= i < |h| ==> !Confused(h[k], h[i])
  {
    var memory, events := h[a..b], h[c..];
    var shared := if a < c then c - a else 0;
    assert memory[shared] == events[if a < c then 0 else a - c];
    assert Known(memory[shared], events);
    var i := FirstKnown(memory, events);
    assert i <= shared;
    assert MergeHistories(memory, events) == memory[..i] + events;
    if i == shared {
      assert forall k :: a <= k < c ==> h[k] == memory[k - a];
      assert memory[..i] + events == h[if a < c then a else c..];
    } else {
      assert Known(h[a + i], h[c..]);
      assert |memory[..i] + events| < |h[if a < c then a else c..]|;
    }
  }

  // The same id, if the first has one, or the same role and words.
  predicate Confused(m: Message, e: Message) {
    || (m.id.Some? && m.id.value != Name("") && e.id == m.id)
    || (e.role == m.role && Flat(e.content) == Flat(m.content))
  }

  lemma KnownIff(m: Message, events: seq<Message>)
    ensures Known(m, events) <==> exists i :: 0 <= i < |events| && Confused(m, events[i])
  {
  }

  /** Where the sources share no message, the older window is all there is; where one is empty, the other is. */
  lemma NothingSharedMerges(memory: seq<Message>, events: seq<Message>)
    requires forall k, i :: 0 <= k < |memory| && 0 <= i < |events| ==> !Confused(memory[k], events[i])
    ensures MergeHistories(memory, events) == if memory == [] then events else memory
  {
    forall k | 0 <= k < |memory|
      ensures !Known(memory[k], events)
    {
      KnownIff(memory[k], events);
    }
  }

  ghost predicate Distinguishable(h: seq<Message>) {
    forall i, j :: 0 <= i < j < |h| ==>
      (HasId(h[i]) ==> h[i].id != h[j].id) && (HasId(h[j]) ==> h[i].id != h[j].id) && Signature(h[i]) != Signature(h[j])
  }

  /** With distinct ids and distinct signatures the merge is exactly the union of the two windows. */
  lemma DistinctWindowsMerge(h: seq<Message>, a: nat, b: nat, c: nat)
    requires a < b <= |h| && c < b && Distinguishable(h)
    ensures MergeHistories(h[a..b], h[c..]) == h[if a < c then a else c..]
  {
    forall k | a <= k < c
      ensures !Known(h[k], h[c..])
    {
      assert forall i :: 0 <= i < |h[c..]| ==> h[c..][i] == h[c + i];
    }
    MergeIsUnionIff(h, a, b, c);
  }

  /** A repeated short turn breaks it: the early "ok" is mistaken for the late one and the turns between are lost. */
  lemma RepeatedTurnLosesHistory(ok: Message, question: Message)
    requires ok == Message(User, "ok", None) && question == Message(User, "why", None)
    ensures MergeHistories([ok, question, ok], [ok]) == [ok]
  {
    assert Known(ok, [ok]) by {
      assert Signature([ok][0]) == Signature(ok);
    }
  }

  // ------------------------------------------------------------------ the history section

  function ItemOf(m: Message): seq<Item> { if Blank(m.content) then [] else [Item(m.role, Strip(m.content))] }

  // The structured items of the section: the non-blank messages, stripped.
  function ItemsOf(messages: seq<Message>): seq<Item> {
    if messages == [] then [] else ItemsOf(messages[..|messages| - 1]) + ItemOf(messages[|messages| - 1])
  }

  /** What one message becomes: nothing if it is blank, else its role and its stripped text. */
  lemma ItemsOfOne(m: Message)
    ensures ItemsOf([m]) == if Strip(m.content) == "" then [] else [Item(m.role, Strip(m.content))]
  {
    assert [m][..0] == [];
    BlankIffStripped(m.content);
  }

  lemma {:induction false} ItemsOfConcat(a: seq<Message>, b: seq<Message>)
    ensures ItemsOf(a + b) == ItemsOf(a) + ItemsOf(b)
  {
    if b == [] {
      assert a + b == a;
    } else {
      var front, last := b[..|b| - 1], b[|b| - 1];
      assert (a + b)[..|a + b| - 1] == a + front && (a + b)[|a + b| - 1] == last;
      ItemsOfConcat(a, front);
    }
  }

  lemma ItemsOfSuffix(messages: seq<Message>, from: nat)
    requires from <= |messages|
    ensures IsSuffix(ItemsOf(messages[from..]), ItemsOf(messages))
  {
    assert messages == messages[..from] + messages[from..];
    ItemsOfConcat(messages[..from], messages[from..]);
    SuffixOfConcat(ItemsOf(messages[..from]), ItemsOf(messages[from..]));
  }

  lemma SuffixOfConcat<T>(a: seq<T>, b: seq<T>)
    ensures IsSuffix(b, a + b)
  {
  }

  lemma SuffixTransitive<T>(a: seq<T>, b: seq<T>, c: seq<T>)
    requires IsSuffix(a, b) && IsSuffix(b, c)
    ensures IsSuffix(a, c)
  {
  }

  // Every history section shows the newest of the given items, at least one if there are any.
  ghost predicate HistoryWithin(sections: seq<Section>, items: seq<Item>) {
    forall i :: 0 <= i < |sections| && sections[i].name == HISTORY ==> ShowsNewest(sections[i], items)
  }

  ghost predicate ShowsNewest(sec: Section, items: seq<Item>) {
    sec.items.Some? && IsSuffix(sec.items.value, items) && (sec.items.value == [] ==> items == [])
  }

  lemma {:induction false} NonBlankKeeps(working: seq<Section>, items: seq<Item>)
    requires forall i :: 0 <= i < |working| && working[i].name == HISTORY && !Blank(working[i].content)
               ==> ShowsNewest(working[i], items)
    ensures HistoryWithin(NonBlank(working), items)
  {
    if working != [] {
      NonBlankKeeps(working[..|working| - 1], items);
    }
  }

  /** One trim, to whatever budget, keeps the newest end of the history. */
  lemma TrimKeepsNewest(sections: seq<Section>, working: seq<Section>, items: seq<Item>)
    requires HistoryWithin(sections, items) && CutInOrder(sections, working)
    ensures HistoryWithin(NonBlank(working), items)
  {
    forall i | 0 <= i < |working| && working[i].name == HISTORY && !Blank(working[i].content)
      ensures ShowsNewest(working[i], items)
    {
      assert Derived(sections[i], working[i]);
      if working[i] != sections[i] {
        var target :| CutTo(sections[i], working[i], target);
        CutInventsNothing(sections[i], target);
        SuffixTransitive(working[i].items.value, sections[i].items.value, items);
      }
    }
    NonBlankKeeps(working, items);
  }

  // The sections one fit or refit makes of others: what a trim to some budget leaves.
  ghost predicate TrimmedFrom(sections: seq<Section>, out: seq<Section>) {
    exists budget: int, names :: TrimsTo(sections, budget, Fits(out, names))
  }

  ghost predicate IsRefitChain(stages: seq<seq<Section>>) {
    && |stages| > 0
    && forall i, j :: 0 <= i && j == i + 1 < |stages| ==> TrimmedFrom(stages[i], stages[j])
  }

  lemma TrimKeepsItems(sections: seq<Section>, budget: int, r: Trimmed, items: seq<Item>)
    requires HistoryWithin(sections, items) && TrimsTo(sections, budget, r) && r.Fits?
    ensures HistoryWithin(r.sections, items)
  {
    var working, targets :| IsTrim(sections, budget, working, targets, r);
    if Total(sections) > budget {
      AskedCutInOrder(sections, working, targets, budget);
      TrimKeepsNewest(sections, working, items);
    }
  }

  lemma {:induction false} RefitsKeepNewest(stages: seq<seq<Section>>, items: seq<Item>, n: nat)
    requires IsRefitChain(stages) && n < |stages| && HistoryWithin(stages[0], items)
    ensures HistoryWithin(stages[n], items)
  {
    if n > 0 {
      RefitsKeepNewest(stages, items, n - 1);
      assert TrimmedFrom(stages[n - 1], stages[n]);
      var budget: int, names :| TrimsTo(stages[n - 1], budget, Fits(stages[n], names));
      TrimKeepsItems(stages[n - 1], budget, Fits(stages[n], names), items);
    }
  }

  /** History end to end: after compaction and any number of trims and per-provider refits, a surviving history section
      shows a suffix of the request's non-blank messages, with at most one condensed note before it; and where the note
      survives, so do all the messages compaction kept. */
  lemma SurvivorsAreNewest(messages: seq<Message>, note: seq<Message>, from: nat, stages: seq<seq<Section>>, n: nat,
                           i: nat)
    requires from <= |messages| && |note| <= 1
    requires IsRefitChain(stages) && n < |stages| && HistoryWithin(stages[0], ItemsOf(note + messages[from..]))
    requires i < |stages[n]| && stages[n][i].name == HISTORY
    ensures stages[n][i].items.Some?
    ensures var shown := stages[n][i].items.value;
            || IsSuffix(shown, ItemsOf(messages))
            || (|note| == 1 && shown == ItemsOf(note) + ItemsOf(messages[from..]) && |ItemsOf(note)| == 1)
  {
    RefitsKeepNewest(stages, ItemsOf(note + messages[from..]), n);
    ItemsOfConcat(note, messages[from..]);
    ItemsOfSuffix(messages, from);
    NoteIsOneItem(note);
    SuffixAfterNote(stages[n][i].items.value, ItemsOf(note), ItemsOf(messages[from..]), ItemsOf(messages));
  }

  lemma NoteIsOneItem(note: seq<Message>)
    requires |note| <= 1
    ensures |ItemsOf(note)| <= |note|
  {
    assert note == [] || note[..0] == [];
  }

  lemma SuffixAfterNote<T>(shown: seq<T>, head: seq<T>, tail: seq<T>, all: seq<T>)
    requires |head| <= 1 && IsSuffix(shown, head + tail) && IsSuffix(tail, all)
    ensures IsSuffix(shown, all) || (|head| == 1 && shown == head + tail)
  {
    if |shown| <= |tail| {
      assert IsSuffix(shown, tail);
      SuffixTransitive(shown, tail, all);
    }
  }

  // ------------------------------------------------------------------ chat messages

  datatype Chat = Chat(role: Role, content: string)

  // Appends a message, merging it into a previous one of the same role.
  function Append(chat: seq<Chat>, role: Role, content: string): (r: seq<Chat>)
    ensures r != [] && r[|r| - 1].role == role
  {
    if chat != [] && chat[|chat| - 1].role == role then
      var last := chat[|chat| - 1];
      chat[..|chat| - 1] + [last.(content := last.content + "\n\n" + content)]
    else chat + [Chat(role, content)]
  }

  function Merged(items: seq<Item>): (r: seq<Chat>) {
    if items == [] then []
    else
      var item := items[|items| - 1];
      var earlier := Merged(items[..|items| - 1]);
      if (item.role == User || item.role == Assistant) && !Blank(item.content)
      then Append(earlier, item.role, Strip(item.content)) else earlier
  }

  function FromUser(chat: seq<Chat>): seq<Chat> {
    if chat != [] && chat[0].role != User then FromUser(chat[1..]) else chat
  }

  function HistoryMessages(items: seq<Item>): seq<Chat> { FromUser(Merged(items)) }

  ghost predicate Alternates(chat: seq<Chat>) {
    && (forall i :: 0 <= i < |chat| ==> chat[i].role == User || chat[i].role == Assistant)
    && forall i, j :: 0 <= i && j == i + 1 < |chat| ==> chat[i].role != chat[j].role
  }

  lemma AppendAlternates(chat: seq<Chat>, role: Role, content: string)
    requires Alternates(chat) && (role == User || role == Assistant)
    ensures Alternates(Append(chat, role, content))
  {
  }

  lemma {:induction false} MergedAlternates(items: seq<Item>)
    ensures Alternates(Merged(items))
  {
    if items != [] {
      MergedAlternates(items[..|items| - 1]);
      var item := items[|items| - 1];
      if (item.role == User || item.role == Assistant) && !Blank(item.content) {
        AppendAlternates(Merged(items[..|items| - 1]), item.role, Strip(item.content));
      }
    }
  }

  /** Whatever the history, its chat messages open with the user and never repeat a role. */
  lemma HistoryMessagesAlternate(items: seq<Item>)
    ensures Alternates(HistoryMessages(items))
    ensures HistoryMessages(items) != [] ==> HistoryMessages(items)[0].role == User
    ensures |HistoryMessages(items)| + 1 >= |Merged(items)|
  {
    MergedAlternates(items);
    var chat := Merged(items);
    if chat != [] && chat[0].role != User {
      assert FromUser(chat) == FromUser(chat[1..]);
      if |chat| > 1 {
        assert chat[0].role != chat[1].role;
      }
    }
  }

  // ------------------------------------------------------------------ the whole payload

  // `"\n\n".join(contents)`.
  function Paragraphs(contents: seq<string>): string {
    if |contents| == 0 then "" else if |contents| == 1 then contents[0]
    else contents[0] + "\n\n" + Paragraphs(contents[1..])
  }

  const SYSTEM_SECTION := Name("system")

  function Contents(sections: seq<Section>, keep: Name -> bool): seq<string> {
    if sections == [] then []
    else (if keep(sections[0].name) then [sections[0].content] else []) + Contents(sections[1..], keep)
  }

  // The items of the first history section that has any.
  function FirstHistory(sections: seq<Section>): seq<Item> {
    if sections == [] then []
    else if sections[0].name == HISTORY && sections[0].items.Some? && sections[0].items.value != [] then
      sections[0].items.value
    else FirstHistory(sections[1..])
  }

  function ComposeMessages(sections: seq<Section>, asMessages: bool): seq<Chat> {
    var system := Paragraphs(Contents(sections, n => n == SYSTEM_SECTION));
    var user := Paragraphs(Contents(sections, n => n != SYSTEM_SECTION));
    var opening := if system == "" then [] else [Chat(System, system)];
    if asMessages && FirstHistory(sections) != [] then
      var rest := Paragraphs(Contents(sections, n => n != SYSTEM_SECTION && n != HISTORY));
      var chat := opening + HistoryMessages(FirstHistory(sections));
      if rest == "" then chat else Append(chat, User, rest)
    else if user == "" then opening
    else opening + [Chat(User, user)]
  }

  /** Every composed payload is one optional system message followed by messages that open with the user and never
      repeat a role. */
  lemma ComposedAlternates(sections: seq<Section>, asMessages: bool)
    ensures IsConversation(ComposeMessages(sections, asMessages))
  {
    var items := FirstHistory(sections);
    HistoryMessagesAlternate(items);
    var system := Paragraphs(Contents(sections, n => n == SYSTEM_SECTION));
    var user := Paragraphs(Contents(sections, n => n != SYSTEM_SECTION));
    var rest := Paragraphs(Contents(sections, n => n != SYSTEM_SECTION && n != HISTORY));
    var opening := if system == "" then [] else [Chat(System, system)];
    if asMessages && items != [] {
      AfterOpening(opening, HistoryMessages(items), rest);
      if rest == "" {
        OpeningThenTalk(opening, HistoryMessages(items));
      } else {
        OpeningThenTalk(opening, Append(HistoryMessages(items), User, rest));
      }
    } else {
      OpeningThenTalk(opening, if user == "" then [] else [Chat(User, user)]);
      assert opening + [] == opening;
    }
  }

  // One optional system message, then messages that open with the user and never repeat a role.
  ghost predicate IsConversation(chat: seq<Chat>) {
    var talk := if chat != [] && chat[0].role == System then chat[1..] else chat;
    Alternates(talk) && (talk != [] ==> talk[0].role == User)
  }

  lemma OpeningThenTalk(opening: seq<Chat>, talk: seq<Chat>)
    requires |opening| <= 1 && forall i :: 0 <= i < |opening| ==> opening[i].role == System
    requires Alternates(talk) && (talk != [] ==> talk[0].role == User)
    ensures IsConversation(opening + talk)
  {
    if opening == [] {
      assert opening + talk == talk;
    } else {
      assert (opening + talk)[1..] == talk;
    }
  }

  lemma AfterOpening(opening: seq<Chat>, talk: seq<Chat>, rest: string)
    requires |opening| <= 1 && forall i :: 0 <= i < |opening| ==> opening[i].role == System
    requires Alternates(talk) && (talk != [] ==> talk[0].role == User)
    ensures Append(opening + talk, User, rest) == opening + Append(talk, User, rest)
    ensures Alternates(Append(talk, User, rest)) && Append(talk, User, rest)[0].role == User
  {
    AppendAlternates(talk, User, rest);
    if talk != [] {
      assert (opening + talk)[..|opening + talk| - 1] == opening + talk[..|talk| - 1];
    }
  }

  /** The condensed note is a system item, so in role-separated messages it is never sent: the model sees exactly
      what it would see without it. */
  lemma {:induction false} NoteIsNotSent(note: Item, items: seq<Item>)
    requires note.role == System
    ensures HistoryMessages([note] + items) == HistoryMessages(items)
  {
    MergedWithoutNote(note, items);
  }

  lemma {:induction false} MergedWithoutNote(note: Item, items: seq<Item>)
    requires note.role == System
    ensures Merged([note] + items) == Merged(items)
  {
    var all := [note] + items;
    if items == [] {
      assert all[..|all| - 1] == [] && all[|all| - 1] == note;
    } else {
      var front, last := items[..|items| - 1], items[|items| - 1];
      assert all[..|all| - 1] == [note] + front && all[|all| - 1] == last;
      MergedWithoutNote(note, front);
    }
  }
}
