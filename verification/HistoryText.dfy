/** A conversation history written as text and read back (`render_history` and `_history_items` in
    app/context_window/trimmer.py). */
module HistoryText {
  import opened Outcomes
  import opened Text
  import opened Trimmer

  // The lines of a message: its role before the first of them.
  function MessageLines(item: Item): seq<string> {
    var lines := Split(item.content, '\n');
    [RoleLabel(item.role) + ": " + lines[0]] + lines[1..]
  }

  // None of the lines starts a message.
  ghost predicate NoRoleLines(lines: seq<string>) { forall k :: 0 <= k < |lines| ==> RoleLine(lines[k]).None? }

  // No line but the first of a message looks like the start of one.
  ghost predicate Readable(items: seq<Item>) { forall k :: 0 <= k < |items| ==> ReadsAsOne(items[k]) }

  ghost predicate ReadsAsOne(item: Item) { NoRoleLines(Split(item.content, '\n')[1..]) }

  function AllLines(items: seq<Item>): seq<string> {
    if items == [] then [] else AllLines(items[..|items| - 1]) + MessageLines(items[|items| - 1])
  }

  lemma RoleLineIs(role: Role, line: string)
    ensures RoleLine(RoleLabel(role) + ": " + line) == Some(Item(role, line))
  {
    var text := RoleLabel(role) + ": " + line;
    match role
    case User => assert text[..6] == "User: " && text[6..] == line;
    case Assistant => assert text[..11] == "Assistant: " && text[11..] == line && text[0] == 'A';
    case System => assert text[..8] == "System: " && text[8..] == line && text[0] == 'S';
    case Tool => assert text[..6] == "Tool: " && text[6..] == line && text[0] == 'T';
  }

  // A message continued by lines that start none.
  function Continued(content: string, lines: seq<string>): string {
    if lines == [] then content else Continued(content, lines[..|lines| - 1]) + "\n" + lines[|lines| - 1]
  }

  lemma {:induction false} ContinuedIsJoin(content: string, lines: seq<string>)
    ensures Continued(content, lines) == Join([content] + lines, '\n')
  {
    if lines == [] {
      assert [content] + lines == [content];
    } else {
      var n := |lines| - 1;
      ContinuedIsJoin(content, lines[..n]);
      JoinConcat([content] + lines[..n], [lines[n]], '\n');
      assert [content] + lines[..n] + [lines[n]] == [content] + lines;
      assert "\n" == ['\n'];
    }
  }

  // A header and the messages after it; reading one more line, or a row of lines.
  datatype Parsed = Parsed(header: string, items: seq<Item>)

  function ReadLine(p: Parsed, line: string): Parsed {
    if RoleLine(line).Some? then p.(items := p.items + [RoleLine(line).value])
    else if p.items != [] then
      var last := p.items[|p.items| - 1];
      p.(items := p.items[..|p.items| - 1] + [last.(content := last.content + "\n" + line)])
    else p.(header := if p.header == "" then line else p.header + "\n" + line)
  }

  function ReadLines(p: Parsed, lines: seq<string>): Parsed {
    if lines == [] then p else ReadLine(ReadLines(p, lines[..|lines| - 1]), lines[|lines| - 1])
  }

  lemma {:induction false} ParseReadsLines(lines: seq<string>)
    ensures var p := ReadLines(Parsed("", []), lines); ParseHistory(lines) == (p.header, p.items)
  {
    if lines != [] {
      ParseReadsLines(lines[..|lines| - 1]);
    }
  }

  lemma {:induction false} ReadConcat(p: Parsed, a: seq<string>, b: seq<string>)
    ensures ReadLines(p, a + b) == ReadLines(ReadLines(p, a), b)
  {
    if b == [] {
      assert a + b == a;
    } else {
      var n := |b| - 1;
      assert (a + b)[..|a + b| - 1] == a + b[..n] && (a + b)[|a + b| - 1] == b[n];
      ReadConcat(p, a, b[..n]);
    }
  }

  lemma ReadOne(p: Parsed, line: string)
    ensures ReadLines(p, [line]) == ReadLine(p, line)
  {
    assert [line][..0] == [];
  }

  lemma {:induction false} ReadContinues(header: string, earlier: seq<Item>, item: Item, more: seq<string>)
    requires NoRoleLines(more)
    ensures ReadLines(Parsed(header, earlier + [item]), more)
            == Parsed(header, earlier + [item.(content := Continued(item.content, more))])
  {
    if more != [] {
      var n := |more| - 1;
      ReadContinues(header, earlier, item, more[..n]);
      var front := earlier + [item.(content := Continued(item.content, more[..n]))];
      assert front[..|front| - 1] == earlier;
    }
  }

  lemma ReadMessage(header: string, earlier: seq<Item>, item: Item)
    requires ReadsAsOne(item)
    ensures ReadLines(Parsed(header, earlier), MessageLines(item)) == Parsed(header, earlier + [item])
  {
    var parts := Split(item.content, '\n');
    var first := RoleLabel(item.role) + ": " + parts[0];
    RoleLineIs(item.role, parts[0]);
    ReadConcat(Parsed(header, earlier), [first], parts[1..]);
    ReadOne(Parsed(header, earlier), first);
    ReadContinues(header, earlier, Item(item.role, parts[0]), parts[1..]);
    MessageRejoined(item);
  }

  lemma MessageRejoined(item: Item)
    ensures var parts := Split(item.content, '\n'); Continued(parts[0], parts[1..]) == item.content
  {
    var parts := Split(item.content, '\n');
    ContinuedIsJoin(parts[0], parts[1..]);
    assert [parts[0]] + parts[1..] == parts;
    JoinSplit(item.content, '\n');
  }

  lemma FrontAndLast<T>(s: seq<T>)
    requires s != []
    ensures s[..|s| - 1] + [s[|s| - 1]] == s
  {
  }

  lemma ReadStep(header: string, earlier: seq<Item>, items: seq<Item>, lines: seq<string>, more: seq<string>)
    requires ReadLines(Parsed(header, []), lines) == Parsed(header, earlier)
    requires ReadLines(Parsed(header, earlier), more) == Parsed(header, items)
    ensures ReadLines(Parsed(header, []), lines + more) == Parsed(header, items)
  {
    ReadConcat(Parsed(header, []), lines, more);
  }

  lemma {:induction false} ReadMessages(header: string, items: seq<Item>)
    requires Readable(items)
    ensures ReadLines(Parsed(header, []), AllLines(items)) == Parsed(header, items)
  {
    if items != [] {
      var n := |items| - 1;
      ReadMessages(header, items[..n]);
      ReadMessage(header, items[..n], items[n]);
      FrontAndLast(items);
      ReadStep(header, items[..n], items, AllLines(items[..n]), MessageLines(items[n]));
    }
  }

  // One more character before a text that has been split.
  function Prepend(c: char, parts: seq<string>, sep: char): seq<string>
    requires parts != []
  {
    if c == sep then [""] + parts else [[c] + parts[0]] + parts[1..]
  }

  lemma SplitOneMore(c: char, text: string, sep: char)
    ensures Split([c] + text, sep) == Prepend(c, Split(text, sep), sep)
  {
    assert ([c] + text)[1..] == text;
  }

  lemma PrependConcat(c: char, a: seq<string>, b: seq<string>, sep: char)
    requires a != []
    ensures Prepend(c, a + b, sep) == Prepend(c, a, sep) + b
  {
    assert (a + b)[1..] == a[1..] + b;
  }

  lemma {:induction false} SplitConcat(head: string, tail: string, sep: char)
    ensures Split(head + ([sep] + tail), sep) == Split(head, sep) + Split(tail, sep)
  {
    SplitOneMore(sep, tail, sep);
    if head == "" {
      assert head + ([sep] + tail) == [sep] + tail;
    } else {
      var c, rest := head[0], head[1..];
      SplitConcat(rest, tail, sep);
      assert [c] + rest == head && [c] + (rest + ([sep] + tail)) == head + ([sep] + tail);
      SplitOneMore(c, rest, sep);
      SplitOneMore(c, rest + ([sep] + tail), sep);
      PrependConcat(c, Split(rest, sep), Split(tail, sep), sep);
    }
  }

  lemma {:induction false} SplitPrefixed(prefix: string, text: string, sep: char)
    requires sep !in prefix
    ensures Split(prefix + text, sep) == [prefix + Split(text, sep)[0]] + Split(text, sep)[1..]
  {
    if prefix == "" {
      assert prefix + text == text;
      assert "" + Split(text, sep)[0] == Split(text, sep)[0];
    } else {
      assert (prefix + text)[1..] == prefix[1..] + text;
      SplitPrefixed(prefix[1..], text, sep);
      assert [prefix[0]] + (prefix[1..] + Split(text, sep)[0]) == prefix + Split(text, sep)[0];
    }
  }

  lemma RenderedIsLines(item: Item)
    ensures Split(RoleLabel(item.role) + ": " + item.content, '\n') == MessageLines(item)
  {
    var prefix := RoleLabel(item.role) + ": ";
    assert '\n' !in prefix;
    SplitPrefixed(prefix, item.content, '\n');
  }

  lemma RenderedOneMore(header: string, items: seq<Item>)
    requires items != []
    ensures var front, last := items[..|items| - 1], items[|items| - 1];
            [header] + RenderedItems(items)
            == [header] + RenderedItems(front) + [RoleLabel(last.role) + ": " + last.content]
  {
  }

  lemma Regroup<T>(a: seq<T>, b: seq<T>, c: seq<T>)
    ensures a + b + c == a + (b + c)
  {
  }

  // The text of a header and some messages, line by line.
  lemma {:induction false} RenderedLines(header: string, items: seq<Item>)
    ensures Split(Join([header] + RenderedItems(items), '\n'), '\n') == Split(header, '\n') + AllLines(items)
  {
    if items == [] {
      assert [header] + RenderedItems(items) == [header];
      assert Split(header, '\n') + [] == Split(header, '\n');
    } else {
      var n := |items| - 1;
      RenderedLines(header, items[..n]);
      RenderedOneMore(header, items);
      AddedLine([header] + RenderedItems(items[..n]), RoleLabel(items[n].role) + ": " + items[n].content);
      RenderedIsLines(items[n]);
      Regroup(Split(header, '\n'), AllLines(items[..n]), MessageLines(items[n]));
    }
  }

  lemma AddedLine(parts: seq<string>, last: string)
    requires parts != []
    ensures Split(Join(parts + [last], '\n'), '\n') == Split(Join(parts, '\n'), '\n') + Split(last, '\n')
  {
    JoinConcat(parts, [last], '\n');
    SplitConcat(Join(parts, '\n'), last, '\n');
    assert Join(parts, '\n') + ['\n'] + last == Join(parts, '\n') + (['\n'] + last);
  }

  /** Reading a history back: the text of a one-line header and of some messages is parsed into that header and those
      messages, with their roles, so long as no line inside them looks like the start of another. */
  lemma HistoryIsReadBack(header: string, items: seq<Item>)
    requires header != "" && '\n' !in header && RoleLine(header).None? && Readable(items)
    ensures ParseHistory(Split(RenderHistory(header, items), '\n')) == (header, items)
  {
    RenderedLines(header, items);
    SplitWithout(header, '\n');
    LinesAreReadBack(header, items);
  }

  lemma LinesAreReadBack(header: string, items: seq<Item>)
    requires RoleLine(header).None? && Readable(items)
    ensures ParseHistory([header] + AllLines(items)) == (header, items)
  {
    ParseReadsLines([header] + AllLines(items));
    ReadConcat(Parsed("", []), [header], AllLines(items));
    ReadOne(Parsed("", []), header);
    ReadMessages(header, items);
  }
}
