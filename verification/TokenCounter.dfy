/** The fallback token counter at multiplier 1.00 (app/context_window/token_counter.py): about four characters a
    token. */
module TokenCounter {
  import opened Text

  function Count(text: string): (n: nat)
    ensures n == 0 <==> text == ""
    ensures |text| <= 4 * n + 3 && (|text| >= 4 ==> 4 * n <= |text|)
    ensures 0 < |text| < 8 ==> n == 1
  {
    if text == "" then 0 else if |text| / 4 > 1 then |text| / 4 else 1
  }

  lemma CountMonotone(a: string, b: string)
    requires |a| <= |b|
    ensures Count(a) <= Count(b)
  {
  }

  // `truncate_text_to_tokens` without a tokenizer.
  function Truncate(text: string, target: int): (r: string)
    ensures r <= text
  {
    if target <= 0 then ""
    else if Count(text) <= target then text
    else
      var chars := if 4 * target > 10 then 4 * target else 10;
      if chars < |text| then text[..chars] else text
  }

  /** Truncation meets its target if and only if the target is not 1 or at most 7 characters are left to count. */
  lemma TruncateMeetsTargetIff(text: string, target: nat)
    ensures Count(Truncate(text, target)) <= target <==> target != 1 || |text| < 8
  {
  }

  // What a list of lines costs when each line break counts as one token.
  function LinesCost(lines: seq<string>): nat {
    if lines == [] then 0 else LinesCost(lines[..|lines| - 1]) + Count(lines[|lines| - 1]) + 1
  }

  function Lengths(lines: seq<string>): nat {
    if lines == [] then 0 else |lines[0]| + Lengths(lines[1..])
  }

  lemma {:induction false} JoinLength(lines: seq<string>, sep: char)
    ensures |Join(lines, sep)| == if lines == [] then 0 else Lengths(lines) + |lines| - 1
  {
    if |lines| >= 2 {
      JoinLength(lines[1..], sep);
    }
  }

  lemma {:induction false} LengthsAppend(lines: seq<string>, last: string)
    ensures Lengths(lines + [last]) == Lengths(lines) + |last|
  {
    if lines != [] {
      assert (lines + [last])[1..] == lines[1..] + [last];
      LengthsAppend(lines[1..], last);
    }
  }

  lemma {:induction false} CostBoundsLengths(lines: seq<string>)
    ensures Lengths(lines) + |lines| <= 4 * LinesCost(lines)
  {
    if lines != [] {
      var front, last := lines[..|lines| - 1], lines[|lines| - 1];
      CostBoundsLengths(front);
      LengthsAppend(front, last);
      assert lines == front + [last];
    }
  }

  /** Near-additivity: joined lines never count more than their separate costs. */
  lemma JoinedCostsLess(lines: seq<string>, sep: char)
    ensures Count(Join(lines, sep)) <= LinesCost(lines)
  {
    JoinLength(lines, sep);
    CostBoundsLengths(lines);
  }

  lemma {:induction false} LinesCostConcat(a: seq<string>, b: seq<string>)
    ensures LinesCost(a + b) == LinesCost(a) + LinesCost(b)
  {
    if b == [] {
      assert a + b == a;
    } else {
      assert (a + b)[..|a + b| - 1] == a + b[..|b| - 1];
      LinesCostConcat(a, b[..|b| - 1]);
    }
  }
}
