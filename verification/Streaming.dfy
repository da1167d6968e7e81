/** The re-chunking of a token stream into published chunks (app/services/streaming_service.py). */
module Streaming {

  // A streamed token; the source calls the string itself a token.
  datatype Token = Token(text: string)

  datatype Chunk = Chunk(content: string, chunkIndex: nat, sequenceNumber: nat, isLast: bool)

  datatype Sizes = Sizes(first: int, code: int, limited: int, normal: int)

  // What the engine observes at token k: whether it is cancelled, and whether the flush interval has passed.
  datatype Surroundings = Surroundings(cancelled: seq<bool>, flushDue: seq<bool>, rateLimited: bool)

  datatype Outcome =
    | Completed(response: string)     // final response and memory update are published
    | Cancelled(soFar: string)        // a cancellation is published instead

  // ------------------------------------------------------------------ joining

  function Join(tokens: seq<Token>): string {
    if tokens == [] then "" else Join(tokens[..|tokens| - 1]) + tokens[|tokens| - 1].text
  }

  function Flatten(groups: seq<seq<Token>>): seq<Token> {
    if groups == [] then [] else Flatten(groups[..|groups| - 1]) + groups[|groups| - 1]
  }

  lemma {:induction false} JoinConcat(a: seq<Token>, b: seq<Token>)
    ensures Join(a + b) == Join(a) + Join(b)
  {
    if b == [] {
      assert a + b == a;
    } else {
      var front, last := b[..|b| - 1], b[|b| - 1];
      assert (a + b)[..|a + b| - 1] == a + front && (a + b)[|a + b| - 1] == last;
      JoinConcat(a, front);
    }
  }

  lemma FlattenAppend(groups: seq<seq<Token>>, g: seq<Token>)
    ensures Flatten(groups + [g]) == Flatten(groups) + g
  {
    assert (groups + [g])[..|groups|] == groups;
  }

  // ------------------------------------------------------------------ the chunks of a grouping

  // The chunk that group i becomes; a group without text becomes none.
  ghost function ChunksOf(groups: seq<seq<Token>>, n: nat, last: bool): seq<Chunk>
    requires n <= |groups|
  {
    if n == 0 then []
    else ChunksOf(groups, n - 1, false)
         + if Join(groups[n - 1]) == "" then [] else [Chunk(Join(groups[n - 1]), n - 1, n, last)]
  }

  ghost function Contents(chunks: seq<Chunk>): string {
    if chunks == [] then "" else Contents(chunks[..|chunks| - 1]) + chunks[|chunks| - 1].content
  }

  lemma {:induction false} ContentsAppend(chunks: seq<Chunk>, c: Chunk)
    ensures Contents(chunks + [c]) == Contents(chunks) + c.content
  {
    assert (chunks + [c])[..|chunks|] == chunks;
  }

  /** Dropping the groups without text loses nothing: the published contents are the joined tokens. */
  lemma {:induction false} ChunksAreLossless(groups: seq<seq<Token>>, n: nat, last: bool)
    requires n <= |groups|
    ensures Contents(ChunksOf(groups, n, last)) == Join(Flatten(groups[..n]))
    decreases n
  {
    if n > 0 {
      var g := groups[n - 1];
      ChunksAreLossless(groups, n - 1, false);
      assert groups[..n] == groups[..n - 1] + [g];
      FlattenAppend(groups[..n - 1], g);
      JoinConcat(Flatten(groups[..n - 1]), g);
      if Join(g) != "" {
        ContentsAppend(ChunksOf(groups, n - 1, false), Chunk(Join(g), n - 1, n, last));
      } else {
        assert Join(Flatten(groups[..n - 1])) + Join(g) == Join(Flatten(groups[..n - 1]));
        assert ChunksOf(groups, n, last) == ChunksOf(groups, n - 1, false);
      }
    }
  }

  ghost predicate AllHaveText(groups: seq<seq<Token>>, n: nat)
    requires n <= |groups|
  {
    forall i :: 0 <= i < n ==> Join(groups[i]) != ""
  }

  /** The sequence numbers are exactly 1, 2, 3, ... if and only if every group has text. */
  lemma {:induction false} SequenceIsGaplessIff(groups: seq<seq<Token>>, n: nat, last: bool)
    requires n <= |groups|
    ensures |ChunksOf(groups, n, last)| <= n
    ensures |ChunksOf(groups, n, last)| == n <==> AllHaveText(groups, n)
    ensures AllHaveText(groups, n) ==>
              forall k: nat :: k < n ==> ChunksOf(groups, n, last)[k].sequenceNumber == k + 1
    decreases n
  {
    if n > 0 {
      SequenceIsGaplessIff(groups, n - 1, false);
      assert AllHaveText(groups, n) <==> AllHaveText(groups, n - 1) && Join(groups[n - 1]) != "";
      if AllHaveText(groups, n) {
        var shorter := ChunksOf(groups, n - 1, false);
        assert ChunksOf(groups, n, last) == shorter + [Chunk(Join(groups[n - 1]), n - 1, n, last)];
      }
    }
  }

  lemma {:induction false} ChunksAt(groups: seq<seq<Token>>, n: nat, last: bool, k: nat)
    requires n <= |groups| && k < |ChunksOf(groups, n, last)|
    ensures var c := ChunksOf(groups, n, last)[k];
            && c.sequenceNumber == c.chunkIndex + 1 <= n && k <= c.chunkIndex
            && c.content == Join(groups[c.chunkIndex]) != ""
            && (c.isLast ==> last && k == |ChunksOf(groups, n, last)| - 1 && c.chunkIndex == n - 1)
    ensures forall j :: 0 <= j < k ==>
              ChunksOf(groups, n, last)[j].sequenceNumber < ChunksOf(groups, n, last)[k].sequenceNumber
    decreases n
  {
    var earlier := ChunksOf(groups, n - 1, false);
    SequenceIsGaplessIff(groups, n - 1, false);
    if k < |earlier| {
      ChunksAt(groups, n - 1, false, k);
    } else if |earlier| > 0 {
      forall j | 0 <= j < k
        ensures ChunksOf(groups, n, last)[j].sequenceNumber < ChunksOf(groups, n, last)[k].sequenceNumber
      {
        ChunksAt(groups, n - 1, false, j);
      }
    }
  }

  lemma {:induction false} NonEmptyJoin(tokens: seq<Token>)
    requires tokens != [] && forall t :: t in tokens ==> t.text != ""
    ensures Join(tokens) != ""
  {
    assert tokens[|tokens| - 1] in tokens;
  }

  lemma {:induction false} GroupsHaveText(groups: seq<seq<Token>>)
    requires forall i :: 0 <= i < |groups| ==> groups[i] != []
    requires forall t :: t in Flatten(groups) ==> t.text != ""
    ensures AllHaveText(groups, |groups|)
  {
    if groups != [] {
      var front, last := groups[..|groups| - 1], groups[|groups| - 1];
      assert forall t :: t in Flatten(front) || t in last ==> t in Flatten(groups);
      GroupsHaveText(front);
      NonEmptyJoin(last);
      forall i | 0 <= i < |groups|
        ensures Join(groups[i]) != ""
      {
        if i < |front| {
          assert groups[i] == front[i];
        }
      }
    }
  }

  /** When no token is empty, the groups of any cutting are numbered 1, 2, 3, ... without a gap. */
  lemma NonEmptyTokensLeaveNoGap(groups: seq<seq<Token>>, last: bool)
    requires forall i :: 0 <= i < |groups| ==> groups[i] != []
    requires forall t :: t in Flatten(groups) ==> t.text != ""
    ensures |ChunksOf(groups, |groups|, last)| == |groups|
    ensures forall k: nat :: k < |groups| ==> ChunksOf(groups, |groups|, last)[k].sequenceNumber == k + 1
  {
    GroupsHaveText(groups);
    SequenceIsGaplessIff(groups, |groups|, last);
  }

  /** The last chunk is marked as last exactly when a last group was flushed as such and has text. */
  lemma LastIsMarkedIff(groups: seq<seq<Token>>, n: nat, last: bool)
    requires n <= |groups|
    ensures MarksLast(ChunksOf(groups, n, last)) <==> last && n > 0 && Join(groups[n - 1]) != ""
  {
    var chunks := ChunksOf(groups, n, last);
    forall k: nat | k < |chunks|
      ensures chunks[k].isLast ==> last && Join(groups[n - 1]) != ""
    {
      ChunksAt(groups, n, last, k);
    }
    if last && n > 0 && Join(groups[n - 1]) != "" {
      assert chunks[|chunks| - 1].isLast;
    }
  }

  ghost predicate MarksLast(chunks: seq<Chunk>) {
    exists k :: 0 <= k < |chunks| && chunks[k].isLast
  }

  /** An empty first token makes the first published sequence number 2. */
  lemma EmptyTokenLeavesGap()
    ensures ChunksOf([[Token("")], [Token("a")]], 2, false) == [Chunk("a", 1, 2, false)]
  {
    var groups := [[Token("")], [Token("a")]];
    assert Join([Token("")]) == "" && Join([Token("a")]) == "a";
    assert ChunksOf(groups, 1, false) == [];
  }

  // ------------------------------------------------------------------ the engine

  function Max(a: int, b: int): int { if a < b then b else a }

  // The largest configured chunk size; a size below one still lets a single token through.
  function Largest(s: Sizes): (r: int)
    ensures r >= 1 && s.first <= r && s.code <= r && s.limited <= r && s.normal <= r
    ensures r == 1 || r == s.first || r == s.code || r == s.limited || r == s.normal
  {
    Max(1, Max(Max(s.first, s.code), Max(s.limited, s.normal)))
  }

  predicate HasFence(t: string) {
    exists i :: 0 <= i <= |t| - 3 && t[i] == '`' && t[i + 1] == '`' && t[i + 2] == '`'
  }

  /** A token has a fence when three backticks in a row occur in it. */
  lemma HasFenceIff(t: string)
    ensures HasFence(t) <==> exists a, b :: t == a + "```" + b
  {
    if i :| 0 <= i <= |t| - 3 && t[i] == '`' && t[i + 1] == '`' && t[i + 2] == '`' {
      assert t == t[..i] + "```" + t[i + 3..];
    }
    if a, b :| t == a + "```" + b {
      var i := |a|;
      assert t[i] == '`' && t[i + 1] == '`' && t[i + 2] == '`';
    }
  }

  // The buffer size at which a token is flushed: small until something was sent, larger inside a code block.
  function TargetSize(s: Sizes, rateLimited: bool, firstEmitted: bool, inCode: bool): int {
    if !firstEmitted then s.first else if inCode then s.code else if rateLimited then s.limited else s.normal
  }

  datatype Cutting = Cutting(groups: seq<seq<Token>>, buffer: seq<Token>, inCode: bool)

  // What the first k tokens are cut into: the groups flushed so far, and the buffer.
  function CutUpTo(s: Sizes, tokens: seq<Token>, env: Surroundings, k: nat): Cutting
    requires k <= |tokens| == |env.flushDue|
  {
    if k == 0 then Cutting([], [], false)
    else
      var c := CutUpTo(s, tokens, env, k - 1);
      var longer := c.buffer + [tokens[k - 1]];
      var inCode := HasFence(tokens[k - 1].text) != c.inCode;
      if |longer| >= TargetSize(s, env.rateLimited, c.groups != [], inCode) || env.flushDue[k - 1]
      then Cutting(c.groups + [longer], [], inCode) else Cutting(c.groups, longer, inCode)
  }

  ghost predicate IsCut(s: Sizes, tokens: seq<Token>, env: Surroundings, k: nat, groups: seq<seq<Token>>,
                        buffer: seq<Token>, inCode: bool)
    requires k <= |tokens| == |env.flushDue|
  {
    var c := CutUpTo(s, tokens, env, k);
    c.groups == groups && c.buffer == buffer && c.inCode == inCode
  }

  lemma CutNext(s: Sizes, tokens: seq<Token>, env: Surroundings, k: nat, groups: seq<seq<Token>>, buffer: seq<Token>,
                inCode: bool, inCode': bool, flushed: bool)
    requires k < |tokens| == |env.flushDue| && IsCut(s, tokens, env, k, groups, buffer, inCode)
    requires inCode' == (HasFence(tokens[k].text) != inCode)
    requires flushed <==> |buffer| + 1 >= TargetSize(s, env.rateLimited, groups != [], inCode') || env.flushDue[k]
    ensures var longer := buffer + [tokens[k]];
            IsCut(s, tokens, env, k + 1, if flushed then groups + [longer] else groups,
                  if flushed then [] else longer, inCode')
  {
  }

  // How many of the first k tokens open or close a code block.
  ghost function Fences(tokens: seq<Token>, k: nat): nat
    requires k <= |tokens|
  {
    if k == 0 then 0 else Fences(tokens, k - 1) + if HasFence(tokens[k - 1].text) then 1 else 0
  }

  lemma {:induction false} InCodeIff(s: Sizes, tokens: seq<Token>, env: Surroundings, k: nat)
    requires k <= |tokens| == |env.flushDue|
    ensures CutUpTo(s, tokens, env, k).inCode <==> Fences(tokens, k) % 2 == 1
  {
    if k > 0 {
      InCodeIff(s, tokens, env, k - 1);
    }
  }

  /** Which token ends a group: the one at which the flush interval has passed or the buffer has its size, which is
      that of the first chunk until one was flushed, then that of code after an odd number of fences, then the
      rate-limited or the normal one. */
  lemma FlushesIff(s: Sizes, tokens: seq<Token>, env: Surroundings, k: nat)
    requires k < |tokens| == |env.flushDue|
    ensures var c, next := CutUpTo(s, tokens, env, k), CutUpTo(s, tokens, env, k + 1);
            var size := if c.groups == [] then s.first else if Fences(tokens, k + 1) % 2 == 1 then s.code
                        else if env.rateLimited then s.limited else s.normal;
            if |c.buffer| + 1 >= size || env.flushDue[k] then
              next.groups == c.groups + [c.buffer + [tokens[k]]] && next.buffer == []
            else
              next.groups == c.groups && next.buffer == c.buffer + [tokens[k]]
  {
    InCodeIff(s, tokens, env, k);
  }

  // With the rest flushed as one more group.
  function AllGroups(c: Cutting): seq<seq<Token>> { if c.buffer != [] then c.groups + [c.buffer] else c.groups }

  // The chunks of a completed stream.
  ghost function FinalChunks(c: Cutting): seq<Chunk> { ChunksOf(AllGroups(c), |AllGroups(c)|, c.buffer != []) }

  /** A completed stream marks a chunk as its last if and only if its tokens leave some text in the buffer. */
  lemma CompletedMarksLastIff(c: Cutting)
    ensures MarksLast(FinalChunks(c)) <==> Join(c.buffer) != ""
  {
    LastIsMarkedIff(AllGroups(c), |AllGroups(c)|, c.buffer != []);
  }

  /** So a stream may end without a last chunk: a single token that fills the first chunk leaves nothing to mark. */
  lemma NoChunkIsLast(s: Sizes)
    requires s.first == 1
    ensures var c := CutUpTo(s, [Token("a")], Surroundings([false], [false], false), 1);
            AllGroups(c) == [[Token("a")]] && FinalChunks(c) != [] && !MarksLast(FinalChunks(c))
  {
    var tokens, env := [Token("a")], Surroundings([false], [false], false);
    var first: seq<Token> := [] + [tokens[0]];
    CutNext(s, tokens, env, 0, [], [], false, HasFence("a"), true);
    assert first == tokens && CutUpTo(s, tokens, env, 1).groups == [] + [first] == [tokens];
    var c := CutUpTo(s, tokens, env, 1);
    assert Join([Token("a")]) == "a";
    CompletedMarksLastIff(c);
  }

  ghost predicate Bounded(groups: seq<seq<Token>>, size: int) {
    forall i :: 0 <= i < |groups| ==> 0 < |groups[i]| <= size
  }

  lemma BoundedAppend(groups: seq<seq<Token>>, g: seq<Token>, size: int)
    requires Bounded(groups, size) && 0 < |g| <= size
    ensures Bounded(groups + [g], size)
  {
  }

  lemma PublishedSoFar(groups: seq<seq<Token>>, buffer: seq<Token>, last: bool)
    ensures Contents(ChunksOf(groups, |groups|, last)) == Join(Flatten(groups))
    ensures Join(Flatten(groups)) <= Join(Flatten(groups) + buffer)
  {
    assert groups[..|groups|] == groups;
    ChunksAreLossless(groups, |groups|, last);
    JoinConcat(Flatten(groups), buffer);
  }

  // The first k tokens have been read, and no cancellation was seen before any of them.
  ghost predicate Read(tokens: seq<Token>, env: Surroundings, k: nat, full: seq<Token>)
    requires |env.cancelled| == |tokens|
  {
    k <= |tokens| && full == tokens[..k] && forall j: nat :: j < k ==> !env.cancelled[j]
  }

  lemma ReadOneMore(tokens: seq<Token>, env: Surroundings, k: nat, full: seq<Token>)
    requires |env.cancelled| == |tokens| && Read(tokens, env, k, full) && k < |tokens| && !env.cancelled[k]
    ensures Read(tokens, env, k + 1, full + [tokens[k]])
  {
  }

  lemma ReadAll(tokens: seq<Token>, env: Surroundings, full: seq<Token>)
    requires |env.cancelled| == |tokens| && Read(tokens, env, |tokens|, full)
    ensures full == tokens
  {
  }

  // Cancelled before token k, with the groups published and the text returned that the first k tokens give.
  ghost predicate StoppedAt(s: Sizes, tokens: seq<Token>, env: Surroundings, k: nat, groups: seq<seq<Token>>,
                            soFar: string)
    requires |env.flushDue| == |tokens|
  {
    && k < |tokens| && groups == CutUpTo(s, tokens, env, k).groups
    && k < |env.cancelled| && env.cancelled[k] && (forall j: nat :: j < k ==> !env.cancelled[j])
    && Flatten(groups) <= tokens[..k] && soFar == Join(tokens[..k])
  }

  class StreamingEngine {
    const sizes: Sizes
    var published: seq<Chunk>
    var responses: nat
    var cancellations: nat

    constructor (sizes: Sizes)
      ensures this.sizes == sizes && published == [] && responses == 0 && cancellations == 0
    {
      this.sizes := sizes;
      published, responses, cancellations := [], 0, 0;
    }

    method FlushBuffer(buffer: seq<Token>, chunkIndex: nat, isLast: bool)
      modifies this`published
      ensures published ==
                old(published)
                + if Join(buffer) == "" then [] else [Chunk(Join(buffer), chunkIndex, chunkIndex + 1, isLast)]
    {
      var content := Join(buffer);
      if content == "" {
        return;
      }
      published := published + [Chunk(content, chunkIndex, chunkIndex + 1, isLast)];
    }

    // What the engine has done with `full`: cut it into published groups and a buffer below the size bound.
    ghost predicate Rechunked(full: seq<Token>, groups: seq<seq<Token>>, buffer: seq<Token>)
      reads this`published
    {
      && full == Flatten(groups) + buffer
      && Bounded(groups, Largest(sizes)) && |buffer| < Largest(sizes)
      && published == ChunksOf(groups, |groups|, false)
    }

    // Buffers one token and flushes when the buffer has reached its target size or the interval has passed.
    method TakeToken(token: Token, ghost full: seq<Token>, ghost groups: seq<seq<Token>>, buffer: seq<Token>,
                     chunkIndex: nat, target: int, due: bool)
      returns (flushed: bool, ghost groups': seq<seq<Token>>)
      requires Rechunked(full, groups, buffer) && chunkIndex == |groups| && target <= Largest(sizes)
      modifies this`published
      ensures flushed <==> |buffer| + 1 >= target || due
      ensures groups' == if flushed then groups + [buffer + [token]] else groups
      ensures Rechunked(full + [token], groups', if flushed then [] else buffer + [token])
    {
      var longer := buffer + [token];
      assert full + [token] == Flatten(groups) + longer;
      flushed, groups' := |longer| >= target || due, groups;
      if flushed {
        GroupAdded(groups, longer, false);
        BoundedAppend(groups, longer, Largest(sizes));
        FlushBuffer(longer, chunkIndex, false);
        groups' := groups + [longer];
      }
    }

    // The flush of what is left.
    method FlushRest(ghost full: seq<Token>, ghost groups: seq<seq<Token>>, buffer: seq<Token>, chunkIndex: nat)
      returns (ghost groups': seq<seq<Token>>)
      requires Rechunked(full, groups, buffer) && chunkIndex == |groups|
      modifies this`published
      ensures groups' == if buffer != [] then groups + [buffer] else groups
      ensures Bounded(groups', Largest(sizes)) && Flatten(groups') == full
      ensures published == ChunksOf(groups', |groups'|, buffer != []) && Contents(published) == Join(full)
    {
      groups' := groups;
      if buffer != [] {
        GroupAdded(groups, buffer, true);
        BoundedAppend(groups, buffer, Largest(sizes));
        FlushBuffer(buffer, chunkIndex, true);
        groups' := groups + [buffer];
      } else {
        assert Flatten(groups) + [] == Flatten(groups);
      }
      PublishedSoFar(groups', [], buffer != []);
    }

    // The loop state at token k.
    ghost predicate Working(tokens: seq<Token>, env: Surroundings, k: nat, full: seq<Token>, groups: seq<seq<Token>>,
                            buffer: seq<Token>, firstEmitted: bool, inCode: bool)
      requires |env.cancelled| == |env.flushDue| == |tokens|
      reads this`published
    {
      && Read(tokens, env, k, full) && Rechunked(full, groups, buffer)
      && IsCut(sizes, tokens, env, k, groups, buffer, inCode) && (firstEmitted <==> groups != [])
    }

    // The loop body for a token that is not cancelled.
    method TakeNext(tokens: seq<Token>, env: Surroundings, k: nat, ghost full: seq<Token>,
                    ghost groups: seq<seq<Token>>,
                    buffer: seq<Token>, chunkIndex: nat, firstEmitted: bool, inCode: bool)
      returns (buffer': seq<Token>, chunkIndex': nat, firstEmitted': bool, inCode': bool,
               ghost groups': seq<seq<Token>>)
      requires |env.cancelled| == |env.flushDue| == |tokens| && k < |tokens| && !env.cancelled[k]
      requires Working(tokens, env, k, full, groups, buffer, firstEmitted, inCode) && chunkIndex == |groups|
      modifies this`published
      ensures Working(tokens, env, k + 1, full + [tokens[k]], groups', buffer', firstEmitted', inCode')
      ensures chunkIndex' == |groups'|
    {
      var token := tokens[k];
      ReadOneMore(tokens, env, k, full);
      inCode' := if HasFence(token.text) then !inCode else inCode;
      var target := TargetSize(sizes, env.rateLimited, firstEmitted, inCode');
      var flushed: bool;
      flushed, groups' := TakeToken(token, full, groups, buffer, chunkIndex, target, env.flushDue[k]);
      CutNext(sizes, tokens, env, k, groups, buffer, inCode, inCode', flushed);
      if flushed {
        buffer', chunkIndex', firstEmitted' := [], chunkIndex + 1, true;
      } else {
        buffer', chunkIndex', firstEmitted' := buffer + [token], chunkIndex, firstEmitted;
      }
    }

    // The token loop, up to the end of the tokens or the first cancellation.
    method TakeAll(tokens: seq<Token>, env: Surroundings)
      returns (k: nat, full: seq<Token>, buffer: seq<Token>, chunkIndex: nat, ghost groups: seq<seq<Token>>)
      requires published == [] && |env.cancelled| == |env.flushDue| == |tokens|
      modifies this`published
      ensures exists firstEmitted, inCode :: Working(tokens, env, k, full, groups, buffer, firstEmitted, inCode)
      ensures chunkIndex == |groups| && (k == |tokens| || env.cancelled[k])
    {
      k, full, buffer, chunkIndex, groups := 0, [], [], 0, [];
      var firstEmitted, inCode := false, false;
      while k < |tokens| && !env.cancelled[k]
        invariant k <= |tokens| && Working(tokens, env, k, full, groups, buffer, firstEmitted, inCode)
        invariant chunkIndex == |groups|
      {
        buffer, chunkIndex, firstEmitted, inCode, groups :=
          TakeNext(tokens, env, k, full, groups, buffer, chunkIndex, firstEmitted, inCode);
        full := full + [tokens[k]];
        k := k + 1;
      }
    }

    // The answer to a cancellation at token k.
    method Stop(tokens: seq<Token>, env: Surroundings, k: nat, full: seq<Token>, ghost groups: seq<seq<Token>>,
                ghost buffer: seq<Token>)
      returns (r: Outcome)
      requires |env.cancelled| == |env.flushDue| == |tokens| && k < |tokens| && env.cancelled[k]
      requires exists firstEmitted, inCode :: Working(tokens, env, k, full, groups, buffer, firstEmitted, inCode)
      modifies this`cancellations
      ensures cancellations == old(cancellations) + 1
      ensures r == Cancelled(Join(full)) && StoppedAt(sizes, tokens, env, k, groups, Join(full))
      ensures Contents(published) <= Join(full)
    {
      cancellations := cancellations + 1;
      PublishedSoFar(groups, buffer, false);
      r := Cancelled(Join(full));
    }

    /** Whatever the clock, the sizes and the flags: the tokens are cut into the groups that the target sizes and
        the flush interval call for, all of bounded size, each group is published as one chunk in order, and nothing
        is lost or invented. Cancelled at token k, the first k tokens are returned, a prefix of them is published,
        and no final response is sent. */
    method Stream(tokens: seq<Token>, env: Surroundings) returns (r: Outcome, ghost groups: seq<seq<Token>>,
                  ghost last: bool)
      requires published == [] && |env.cancelled| == |env.flushDue| == |tokens|
      modifies this
      ensures Bounded(groups, Largest(sizes)) && published == ChunksOf(groups, |groups|, last)
      ensures match r
              case Completed(response) =>
                && groups == AllGroups(CutUpTo(sizes, tokens, env, |tokens|))
                && last == (CutUpTo(sizes, tokens, env, |tokens|).buffer != [])
                && Flatten(groups) == tokens && response == Join(tokens)
                && Contents(published) == response
                && (forall k: nat :: k < |tokens| ==> !env.cancelled[k])
                && responses == old(responses) + 1 && cancellations == old(cancellations)
              case Cancelled(soFar) =>
                && !last
                && (exists k: nat :: StoppedAt(sizes, tokens, env, k, groups, soFar))
                && Contents(published) <= soFar
                && responses == old(responses) && cancellations == old(cancellations) + 1
    {
      var k, full, buffer, chunkIndex;
      k, full, buffer, chunkIndex, groups := TakeAll(tokens, env);
      if k < |tokens| {
        last := false;
        r := Stop(tokens, env, k, full, groups, buffer);
        return;
      }
      ReadAll(tokens, env, full);
      last := buffer != [];
      groups := FlushRest(full, groups, buffer, chunkIndex);
      responses := responses + 1;
      r := Completed(Join(full));
    }
  }

  lemma GroupAdded(groups: seq<seq<Token>>, g: seq<Token>, last: bool)
    ensures Flatten(groups + [g]) == Flatten(groups + [g]) + [] == Flatten(groups) + g
    ensures ChunksOf(groups + [g], |groups| + 1, last)
              == ChunksOf(groups, |groups|, false)
                 + if Join(g) == "" then [] else [Chunk(Join(g), |groups|, |groups| + 1, last)]
  {
    FlattenAppend(groups, g);
    ChunksOfPrefix(groups, [g], |groups|, false);
  }

  lemma {:induction false} ChunksOfPrefix(a: seq<seq<Token>>, b: seq<seq<Token>>, n: nat, last: bool)
    requires n <= |a|
    ensures ChunksOf(a + b, n, last) == ChunksOf(a, n, last)
    decreases n
  {
    if n > 0 {
      ChunksOfPrefix(a, b, n - 1, false);
    }
  }
}
