/** History compaction (app/context_window/compaction.py), with the fallback token counter. */
module Compaction {
  import opened Outcomes
  import opened Text
  import opened TokenCounter
  import opened Trimmer

  datatype Message = Message(role: Role, content: string, id: Option<Name>)

  const NOTE_HEADER := "Earlier in this conversation" + " (condensed; some detail is omitted):"
  const LINE_CLIP_CHARS: nat := 180

  function Tokens(m: Message): nat { Count(m.content) + 4 }

  function TotalTokens(messages: seq<Message>): nat {
    if messages == [] then 0 else Tokens(messages[0]) + TotalTokens(messages[1..])
  }

  lemma {:induction false} TotalTokensConcat(a: seq<Message>, b: seq<Message>)
    ensures TotalTokens(a + b) == TotalTokens(a) + TotalTokens(b)
  {
    if a == [] {
      assert a + b == b;
    } else {
      assert (a + b)[1..] == a[1..] + b;
      TotalTokensConcat(a[1..], b);
    }
  }

  // ------------------------------------------------------------------ one line of the note

  // `" ".join(text.split())`: runs of whitespace become one blank, none at either end.
  function Flat(text: string): (r: string)
    ensures '\n' !in r
  {
    FlatFrom(text, false)
  }

  // `pending` says that a blank is owed before the next word.
  function FlatFrom(text: string, pending: bool): (r: string)
    ensures '\n' !in r
  {
    if text == "" then ""
    else if IsSpace(text[0]) then FlatFrom(text[1..], pending)
    else (if pending then " " else "") + [text[0]] + FlatTail(text[1..])
  }

  function FlatTail(text: string): (r: string)
    ensures '\n' !in r
    decreases text, 1
  {
    if text == "" then ""
    else if IsSpace(text[0]) then FlatFrom(text[1..], true)
    else [text[0]] + FlatTail(text[1..])
  }

  function Marker(omitted: nat): (r: string)
    ensures '\n' !in r
  {
    var digits := Digits(omitted);
    assert '\n' !in digits;
    var left, right := " \U{2026} [", " chars omitted] \U{2026} ";
    assert '\n' !in left && '\n' !in right;
    left + digits + right
  }

  // How much of the room goes to the beginning of a line that is too long; the rest goes to its end.
  function HeadRoom(room: nat): nat { room * 3 / 5 }

  // What is left of a line that is too long: a head and a tail of it, without the whitespace at the cut.
  function HeadOf(flat: string, room: nat): (r: string)
    requires room <= |flat|
    ensures '\n' !in flat ==> '\n' !in r
    ensures r <= flat && |r| <= HeadRoom(room)
    ensures forall i :: |r| <= i < HeadRoom(room) ==> IsSpace(flat[i])
  {
    StripEnd(flat[..HeadRoom(room)])
  }

  function TailOf(flat: string, room: nat): (r: string)
    requires room <= |flat|
    ensures '\n' !in flat ==> '\n' !in r
    ensures |r| <= room - HeadRoom(room) && IsSuffix(r, flat)
    ensures forall i :: |flat| - (room - HeadRoom(room)) <= i < |flat| - |r| ==> IsSpace(flat[i])
  {
    var tail := room - HeadRoom(room);
    if tail > 0 then
      var kept := flat[|flat| - tail..];
      var r := StripStart(kept);
      assert forall i :: |flat| - tail <= i < |flat| - |r| ==> flat[i] == kept[i - (|flat| - tail)];
      r
    else ""
  }

  // What the marker leaves of the limit.
  function Room(limit: nat, marker: string): (room: nat)
    ensures room + |marker| == limit || (room == 0 && limit < |marker|)
  {
    if limit >= |marker| then limit - |marker| else 0
  }

  /** One line of the note: short text is kept, longer text keeps its beginning and its end around a marker that
      counts the excess. */
  function Clip(text: string, limit: nat): (r: string)
    ensures |r| <= limit || |Flat(text)| > limit
  {
    var flat := Flat(text);
    if |flat| <= limit then flat
    else
      var marker := Marker(|flat| - limit);
      HeadOf(flat, Room(limit, marker)) + marker + TailOf(flat, Room(limit, marker))
  }

  /** A clipped line is one line and no longer than the limit, or than its marker when even that is longer. */
  lemma ClipIsShortLine(text: string, limit: nat)
    ensures '\n' !in Clip(text, limit)
    ensures |Clip(text, limit)| <= limit
            || (|Flat(text)| > limit && |Clip(text, limit)| == |Marker(|Flat(text)| - limit)|)
  {
  }

  // The clip is the line up to a, a marker, and the line from b on, and what is left out of the room on either side is
  // whitespace.
  ghost predicate KeepsUpTo(flat: string, room: nat, marker: string, clip: string, a: nat, b: nat) {
    && a <= room * 3 / 5 && |flat| - (room - room * 3 / 5) <= b <= |flat| && a <= b
    && clip == flat[..a] + marker + flat[b..]
    && (forall i :: a <= i < room * 3 / 5 && i < |flat| ==> IsSpace(flat[i]))
    && (forall i :: 0 <= i && |flat| - (room - room * 3 / 5) <= i < b ==> IsSpace(flat[i]))
  }

  lemma BothEnds(flat: string, room: nat, head: string, marker: string, tail: string,
                 clip: string)
    requires clip == head + marker + tail
    requires room <= |flat| && head <= flat && |head| <= HeadRoom(room) && |tail| <= room - HeadRoom(room)
    requires IsSuffix(tail, flat)
    requires forall i :: |head| <= i < HeadRoom(room) ==> IsSpace(flat[i])
    requires forall i :: |flat| - (room - HeadRoom(room)) <= i < |flat| - |tail| ==> IsSpace(flat[i])
    ensures KeepsUpTo(flat, room, marker, clip, |head|, |flat| - |tail|)
  {
    assert tail == flat[|flat| - |tail|..];
  }

  lemma ClipIsHeadAndTail(text: string, limit: nat)
    requires |Flat(text)| > limit
    ensures var flat := Flat(text);
            var marker := Marker(|flat| - limit);
            var room := Room(limit, marker);
            Clip(text, limit) == HeadOf(flat, room) + marker + TailOf(flat, room)
  {
  }

  /** A long line keeps its beginning and its end around the marker: of the room beside the marker three fifths are
      filled from its beginning and the rest from its end, but for whitespace at the cuts. */
  lemma ClipKeepsBothEnds(text: string, limit: nat) returns (a: nat, b: nat)
    requires |Flat(text)| > limit
    ensures var flat := Flat(text);
            var marker := Marker(|flat| - limit);
            KeepsUpTo(flat, Room(limit, marker), marker, Clip(text, limit), a, b)
  {
    var flat := Flat(text);
    var marker := Marker(|flat| - limit);
    var room := Room(limit, marker);
    var head, tail := HeadOf(flat, room), TailOf(flat, room);
    ClipIsHeadAndTail(text, limit);
    BothEnds(flat, room, head, marker, tail, Clip(text, limit));
    a, b := |head|, |flat| - |tail|;
  }

  function NoteLine(m: Message): (r: string)
    ensures '\n' !in r
  {
    ClipIsShortLine(m.content, LINE_CLIP_CHARS);
    assert '\n' !in RoleLabel(m.role) + ": ";
    RoleLabel(m.role) + ": " + Clip(m.content, LINE_CLIP_CHARS)
  }

  predicate Spoken(m: Message) { m.role == User || m.role == Assistant }

  function NoteLines(older: seq<Message>): (r: seq<string>)
    ensures |r| <= |older| && forall i :: 0 <= i < |r| ==> '\n' !in r[i]
  {
    if older == [] then []
    else NoteLines(older[..|older| - 1]) + if Spoken(older[|older| - 1]) then [NoteLine(older[|older| - 1])] else []
  }

  function NoteOf(chosen: seq<string>): Message {
    Message(System, NOTE_HEADER + "\n" + Join(chosen, '\n'), None)
  }

  lemma HeaderIsOneLine()
    ensures '\n' !in NOTE_HEADER
  {
    var a, b := "Earlier in this conversation", " (condensed; some detail is omitted):";
    assert '\n' !in a && '\n' !in b;
  }

  /** The note is a system message of one line per condensed message, below its header: splitting it gives the lines
      back. */
  lemma NoteIsItsLines(older: seq<Message>, k: nat)
    requires k < |NoteLines(older)|
    ensures Split(NoteOf(NoteLines(older)[k..]).content, '\n') == [NOTE_HEADER] + NoteLines(older)[k..]
    ensures NoteOf(NoteLines(older)[k..]).role == System && NoteOf(NoteLines(older)[k..]).id == None
  {
    var chosen := NoteLines(older)[k..];
    SplitJoin(chosen, '\n');
    HeaderIsOneLine();
    assert NOTE_HEADER + "\n" + Join(chosen, '\n') == NOTE_HEADER + ['\n'] + Join(chosen, '\n');
    SplitAtSeparator(NOTE_HEADER, Join(chosen, '\n'), '\n');
  }

  // ------------------------------------------------------------------ compaction

  datatype Compacted = Compacted(
    messages: seq<Message>, kept: nat, condensed: nat, omitted: nat, tokensBefore: nat, tokensAfter: nat,
    noteAdded: bool)

  predicate Changed(c: Compacted) { c.condensed > 0 || c.omitted > 0 }

  const HEADER_COST: nat := Count(NOTE_HEADER) + 4

  // The verbatim part: the newest messages from `from` on, at least `minRecent` of them and as many more as the
  // budget allows beside the note's reserve.
  ghost predicate IsKeptFrom(messages: seq<Message>, budget: nat, minRecent: int, reserve: int, from: nat) {
    && from <= |messages|
    && LongSuffixesFit(messages, budget, minRecent, reserve, from)
    && (from > 0 ==> && |messages| - (from - 1) > minRecent
                     && TotalTokens(messages[from - 1..]) > budget - reserve)
  }

  // The condensed part: the newest lines from `first` on that fit what the verbatim part leaves.
  ghost predicate IsChosenFrom(lines: seq<string>, noteBudget: nat, first: nat) {
    && first <= |lines|
    && (first < |lines| ==> HEADER_COST + LinesCost(lines[first..]) <= noteBudget)
    && (first > 0 ==> HEADER_COST + LinesCost(lines[first - 1..]) > noteBudget)
  }

  lemma CostOfTail(lines: seq<string>, i: nat)
    requires i < |lines|
    ensures LinesCost(lines[i..]) == Count(lines[i]) + 1 + LinesCost(lines[i + 1..])
  {
    assert lines[i..] == [lines[i]] + lines[i + 1..];
    LinesCostConcat([lines[i]], lines[i + 1..]);
    assert [lines[i]][..0] == [];
  }

  /** The note costs no more than its lines were charged. */
  lemma NoteCost(chosen: seq<string>)
    requires chosen != []
    ensures Tokens(NoteOf(chosen)) <= HEADER_COST + LinesCost(chosen)
  {
    JoinLength(chosen, '\n');
    CostBoundsLengths(chosen);
  }

  // ------------------------------------------------------------------ the two loops

  lemma TailTokens(messages: seq<Message>, i: nat)
    requires i < |messages|
    ensures TotalTokens(messages[i..]) == Tokens(messages[i]) + TotalTokens(messages[i + 1..])
  {
  }

  ghost function SuffixTokens(messages: seq<Message>, i: nat): nat
    requires i <= |messages|
  {
    TotalTokens(messages[i..])
  }

  // Suffixes longer than `minRecent`, from `from` on, fit the verbatim share.
  ghost predicate LongSuffixesFit(messages: seq<Message>, budget: nat, minRecent: int, reserve: int, from: nat) {
    forall i :: from <= i < |messages| && |messages| - i > minRecent ==> SuffixTokens(messages, i) <= budget - reserve
  }

  lemma OneMoreFits(messages: seq<Message>, budget: nat, minRecent: int, reserve: int, from: nat)
    requires from < |messages| && LongSuffixesFit(messages, budget, minRecent, reserve, from + 1)
    requires |messages| - from > minRecent ==> TotalTokens(messages[from..]) <= budget - reserve
    ensures LongSuffixesFit(messages, budget, minRecent, reserve, from)
  {
  }

  method KeepNewest(messages: seq<Message>, budget: nat, minRecent: int, reserve: int) returns (from: nat, used: nat)
    ensures IsKeptFrom(messages, budget, minRecent, reserve, from)
    ensures used == TotalTokens(messages[from..])
  {
    from, used := |messages|, 0;
    while from > 0
      invariant from <= |messages| && used == TotalTokens(messages[from..])
      invariant LongSuffixesFit(messages, budget, minRecent, reserve, from)
    {
      var cost := Tokens(messages[from - 1]);
      TailTokens(messages, from - 1);
      var recentCount := |messages| - (from - 1);
      if recentCount > minRecent && used + cost > budget - reserve {
        break;
      }
      OneMoreFits(messages, budget, minRecent, reserve, from - 1);
      used := used + cost;
      from := from - 1;
    }
  }

  method ChooseNewest(lines: seq<string>, noteBudget: nat) returns (chosen: seq<string>, spent: nat, ghost first: nat)
    ensures IsChosenFrom(lines, noteBudget, first) && chosen == lines[first..]
    ensures spent == HEADER_COST + LinesCost(chosen)
  {
    chosen, spent, first := [], HEADER_COST, |lines|;
    var i := |lines|;
    while i > 0
      invariant 0 <= i == first <= |lines| && chosen == lines[first..]
      invariant spent == HEADER_COST + LinesCost(chosen)
      invariant first < |lines| ==> spent <= noteBudget
    {
      CostOfTail(lines, i - 1);
      var cost := Count(lines[i - 1]) + 1;
      if spent + cost > noteBudget {
        break;
      }
      assert lines[i - 1..] == [lines[i - 1]] + chosen;
      chosen := [lines[i - 1]] + chosen;
      spent := spent + cost;
      i, first := i - 1, first - 1;
    }
  }

  // What compaction returns when it changes something: the note, if any line was chosen, and the verbatim tail.
  ghost predicate IsCompacted(messages: seq<Message>, budget: nat, minRecent: int, reserve: int,
                              from: nat, first: nat, r: Compacted) {
    && 0 < from <= |messages| && IsKeptFrom(messages, budget, minRecent, reserve, from)
    && var lines := NoteLines(messages[..from]);
    var used := TotalTokens(messages[from..]);
    && IsChosenFrom(lines, if budget > used then budget - used else 0, first)
    && r.messages == (if first < |lines| then [NoteOf(lines[first..])] else []) + messages[from..]
    && r.noteAdded == (first < |lines|)
    && r.kept == |messages| - from && r.condensed == |lines| - first && r.omitted == from - r.condensed
    && r.tokensBefore == TotalTokens(messages) && r.tokensAfter == TotalTokens(r.messages)
  }

  /** Compaction of one request's history. `reserve` is the share of the budget kept for the note. */
  method CompactHistory(messages: seq<Message>, budget: nat, minRecent: int, reserve: int)
    returns (r: Compacted, ghost from: nat, ghost first: nat)
    ensures !Changed(r)
            ==> r == Compacted(messages, |messages|, 0, 0, TotalTokens(messages), TotalTokens(messages), false)
    ensures Changed(r)
            ==> TotalTokens(messages) > budget && IsCompacted(messages, budget, minRecent, reserve, from, first, r)
    ensures TotalTokens(messages) > budget && !Changed(r) ==> IsKeptFrom(messages, budget, minRecent, reserve, 0)
  {
    from, first := 0, 0;
    var before := TotalTokens(messages);
    if before <= budget || messages == [] {
      return Compacted(messages, |messages|, 0, 0, before, before, false), from, first;
    }
    var keepFrom, used := KeepNewest(messages, budget, minRecent, reserve);
    from := keepFrom;
    var kept, older := messages[keepFrom..], messages[..keepFrom];
    if older == [] {
      return Compacted(messages, |messages|, 0, 0, before, before, false), from, first;
    }
    var noteBudget := if budget > used then budget - used else 0;
    var chosen, spent;
    chosen, spent, first := ChooseNewest(NoteLines(older), noteBudget);
    var noteAdded := chosen != [] && spent <= noteBudget;
    var result := (if noteAdded then [NoteOf(chosen)] else []) + kept;
    r := Compacted(result, |kept|, |chosen|, |older| - |chosen|, before, TotalTokens(result), noteAdded);
  }

  // ------------------------------------------------------------------ what compaction promises

  /** Nothing is counted twice or lost: kept, condensed and omitted messages add up to the input, and at least the
      `minRecent` newest messages stay verbatim. */
  lemma EveryMessageAccountedFor(messages: seq<Message>, budget: nat, minRecent: int, reserve: int,
                                 from: nat, first: nat, r: Compacted)
    requires IsCompacted(messages, budget, minRecent, reserve, from, first, r)
    ensures r.kept + r.condensed + r.omitted == |messages|
    ensures r.kept >= minRecent || r.kept == |messages|
    ensures r.messages[|r.messages| - r.kept..] == messages[|messages| - r.kept..]
    ensures |r.messages| == r.kept + if r.noteAdded then 1 else 0
  {
  }

  /** Compaction always shrinks what it changes. */
  lemma CompactionShrinks(messages: seq<Message>, budget: nat, minRecent: int, reserve: int,
                          from: nat, first: nat, r: Compacted)
    requires IsCompacted(messages, budget, minRecent, reserve, from, first, r) && TotalTokens(messages) > budget
    ensures r.tokensAfter < r.tokensBefore
  {
    assert messages == messages[..from] + messages[from..];
    TotalTokensConcat(messages[..from], messages[from..]);
    assert Tokens(messages[..from][0]) >= 4;
    ResultTokens(messages, budget, minRecent, reserve, from, first, r);
  }

  lemma ResultTokens(messages: seq<Message>, budget: nat, minRecent: int, reserve: int,
                     from: nat, first: nat, r: Compacted)
    requires IsCompacted(messages, budget, minRecent, reserve, from, first, r)
    ensures !r.noteAdded ==> r.tokensAfter == TotalTokens(messages[from..])
    ensures r.noteAdded ==> r.tokensAfter <= budget
  {
    var lines := NoteLines(messages[..from]);
    if r.noteAdded {
      NoteCost(lines[first..]);
      assert r.messages[0] == NoteOf(lines[first..]) && r.messages[1..] == messages[from..];
    } else {
      assert r.messages == messages[from..];
    }
  }

  /** The target is met whenever the newest `minRecent` messages fit it and the note's share is not negative. */
  lemma CompactionMeetsBudget(messages: seq<Message>, budget: nat, minRecent: int, reserve: int,
                              from: nat, first: nat, r: Compacted)
    requires IsCompacted(messages, budget, minRecent, reserve, from, first, r)
    requires reserve >= 0 && 0 <= minRecent
    requires TotalTokens(if minRecent <= |messages| then messages[|messages| - minRecent..] else messages) <= budget
    ensures r.tokensAfter <= budget
  {
    ResultTokens(messages, budget, minRecent, reserve, from, first, r);
    if |messages| - from > minRecent {
      assert SuffixTokens(messages, from) <= budget - reserve;
    } else {
      assert |messages| - from == minRecent;
    }
  }
}
