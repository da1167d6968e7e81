/** What the condensed note says (app/context_window/compaction.py): the words of the older messages in their order, one
    blank apart, each line clipped to 180 characters. */
module Notes {
  import opened Outcomes
  import opened Text
  import opened TokenCounter
  import opened Trimmer
  import opened Compaction

  // Characters without whitespace, at least one.
  predicate IsWord(w: string) { w != "" && forall i :: 0 <= i < |w| ==> !IsSpace(w[i]) }

  lemma {:induction false} GapIsSkipped(gap: string, text: string, pending: bool)
    requires Blank(gap)
    ensures FlatFrom(gap + text, pending) == FlatFrom(text, pending)
  {
    if gap == "" {
      assert gap + text == text;
    } else {
      assert (gap + text)[1..] == gap[1..] + text;
      GapIsSkipped(gap[1..], text, pending);
    }
  }

  lemma {:induction false} WordIsKept(word: string, text: string)
    requires forall i :: 0 <= i < |word| ==> !IsSpace(word[i])
    ensures FlatTail(word + text) == word + FlatTail(text)
  {
    if word == "" {
      assert word + text == text;
    } else {
      assert (word + text)[1..] == word[1..] + text;
      WordIsKept(word[1..], text);
      assert [word[0]] + (word[1..] + FlatTail(text)) == word + FlatTail(text);
    }
  }

  lemma FlatStartsAtWord(word: string, text: string)
    requires IsWord(word)
    ensures Flat(word + text) == word + FlatTail(text)
  {
    assert (word + text)[1..] == word[1..] + text;
    WordIsKept(word[1..], text);
    assert [word[0]] + (word[1..] + FlatTail(text)) == word + FlatTail(text);
  }

  lemma BlankAfterGap(gap: string, rest: string)
    requires gap != "" && Blank(gap) && rest != "" && !IsSpace(rest[0])
    ensures FlatTail(gap + rest) == " " + Flat(rest)
  {
    assert (gap + rest)[1..] == gap[1..] + rest;
    GapIsSkipped(gap[1..], rest, true);
    assert " " + [rest[0]] + FlatTail(rest[1..]) == " " + ([rest[0]] + FlatTail(rest[1..]));
    assert "" + [rest[0]] + FlatTail(rest[1..]) == [rest[0]] + FlatTail(rest[1..]);
  }

  /** A flattened text has the words of the text, one blank apart: whitespace before the first word goes, and
      whitespace after a word goes or becomes one blank before the next. */
  lemma FlatIsWords(before: string, word: string, gap: string, rest: string)
    requires Blank(before) && IsWord(word) && Blank(gap) && (rest != "" ==> gap != "" && !IsSpace(rest[0]))
    ensures Flat(before) == ""
    ensures Flat(before + (word + (gap + rest))) == if rest == "" then word else word + (" " + Flat(rest))
  {
    GapIsSkipped(before, "", false);
    assert before + "" == before;
    GapIsSkipped(before, word + (gap + rest), false);
    FlatStartsAtWord(word, gap + rest);
    if rest == "" {
      assert gap + rest == gap;
      GapEnds(gap);
    } else {
      BlankAfterGap(gap, rest);
    }
  }

  lemma GapEnds(gap: string)
    requires Blank(gap)
    ensures FlatTail(gap) == ""
  {
    if gap != "" {
      GapIsSkipped(gap[1..], "", true);
      assert gap[1..] + "" == gap[1..];
    }
  }

  /** The lines of the note come in the order of the messages, one for each of user and assistant, with the speaker
      before a clip to 180 characters. */
  lemma {:induction false} NoteLinesInOrder(a: seq<Message>, b: seq<Message>)
    ensures NoteLines([]) == [] && NoteLines(a + b) == NoteLines(a) + NoteLines(b)
  {
    if b == [] {
      assert a + b == a;
    } else {
      var n := |b| - 1;
      assert (a + b)[..|a + b| - 1] == a + b[..n] && (a + b)[|a + b| - 1] == b[n];
      NoteLinesInOrder(a, b[..n]);
    }
  }

  lemma NoteLineIs(m: Message)
    ensures NoteLines([m]) == match m.role
                              case User => ["User: " + Clip(m.content, 180)]
                              case Assistant => ["Assistant: " + Clip(m.content, 180)]
                              case _ => []
  {
    assert [m][..0] == [];
    assert "User" + ": " == "User: " && "Assistant" + ": " == "Assistant: ";
  }

  /** A short line is not clipped, and the marker of a long one tells how many characters it is too long. */
  lemma ClipIs(text: string) returns (head: string, tail: string)
    ensures |Flat(text)| <= 180 ==> Clip(text, 180) == Flat(text)
    ensures |Flat(text)| > 180 ==>
              && Clip(text, 180)
                 == head + (" \U{2026} [" + Digits(|Flat(text)| - 180) + " chars omitted] \U{2026} ") + tail
              && head <= Flat(text) && IsSuffix(tail, Flat(text))
  {
    var flat := Flat(text);
    head, tail := "", "";
    if |flat| > 180 {
      var room := Room(180, Marker(|flat| - 180));
      ClipIsHeadAndTail(text, 180);
      head, tail := HeadOf(flat, room), TailOf(flat, room);
    }
  }

  /** What the note costs beside its lines. */
  lemma HeaderCosts()
    ensures HEADER_COST == 20
  {
    assert |NOTE_HEADER| == 65;
  }

  /** What a history counts: the text of each message and four tokens beside it. */
  lemma TotalTokensIs(a: seq<Message>, m: Message)
    ensures TotalTokens([]) == 0 && TotalTokens(a + [m]) == TotalTokens(a) + Count(m.content) + 4
  {
    TotalTokensConcat(a, [m]);
    assert [m][1..] == [];
  }
}
