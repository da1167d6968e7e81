/** Python string operations used by the context window and the block parser, on sequences of characters. */
module Text {

  // `str.isspace` for one character.
  predicate IsSpace(c: char) {
    var n := c as int;
    || 9 <= n <= 13 || 28 <= n <= 32 || n == 0x85 || n == 0xA0 || n == 0x1680 || 0x2000 <= n <= 0x200A
    || n == 0x2028 || n == 0x2029 || n == 0x202F || n == 0x205F || n == 0x3000
  }

  // `text.split(sep)` for a one-character separator: never the empty list.
  function Split(text: string, sep: char): (parts: seq<string>)
    ensures |parts| >= 1
    ensures forall i :: 0 <= i < |parts| ==> sep !in parts[i]
  {
    if text == "" then [""]
    else
      var rest := Split(text[1..], sep);
      if text[0] == sep then [""] + rest else [[text[0]] + rest[0]] + rest[1..]
  }

  // `sep.join(parts)`.
  function Join(parts: seq<string>, sep: char): string {
    if |parts| == 0 then "" else if |parts| == 1 then parts[0] else parts[0] + [sep] + Join(parts[1..], sep)
  }

  lemma {:induction false} JoinSplit(text: string, sep: char)
    ensures Join(Split(text, sep), sep) == text
  {
    if text != "" {
      JoinSplit(text[1..], sep);
      var rest := Split(text[1..], sep);
      if text[0] != sep {
        assert ([[text[0]] + rest[0]] + rest[1..])[1..] == rest[1..];
      }
    }
  }

  lemma {:induction false} SplitAtSeparator(head: string, tail: string, sep: char)
    requires sep !in head
    ensures Split(head + [sep] + tail, sep) == [head] + Split(tail, sep)
  {
    var text := head + [sep] + tail;
    if head == "" {
      assert text[1..] == tail;
    } else {
      SplitAtSeparator(head[1..], tail, sep);
      assert text[1..] == head[1..] + [sep] + tail;
      assert [head[0]] + head[1..] == head;
      assert ([head[1..]] + Split(tail, sep))[1..] == Split(tail, sep);
    }
  }

  lemma {:induction false} SplitWithout(text: string, sep: char)
    requires sep !in text
    ensures Split(text, sep) == [text]
  {
    if text != "" {
      SplitWithout(text[1..], sep);
      assert [text[0]] + text[1..] == text;
    }
  }

  /** Splitting undoes joining, so long as no part contains the separator. */
  lemma {:induction false} SplitJoin(parts: seq<string>, sep: char)
    requires |parts| >= 1 && forall i :: 0 <= i < |parts| ==> sep !in parts[i]
    ensures Split(Join(parts, sep), sep) == parts
  {
    if |parts| == 1 {
      SplitWithout(parts[0], sep);
    } else {
      SplitJoin(parts[1..], sep);
      SplitAtSeparator(parts[0], Join(parts[1..], sep), sep);
    }
  }

  // `text.rstrip()`.
  function StripEnd(text: string): (r: string)
    ensures r <= text
    ensures r != "" ==> !IsSpace(r[|r| - 1])
    ensures forall i :: |r| <= i < |text| ==> IsSpace(text[i])
  {
    if text != "" && IsSpace(text[|text| - 1]) then StripEnd(text[..|text| - 1]) else text
  }

  ghost predicate IsSuffix<T>(short: seq<T>, long: seq<T>) {
    |short| <= |long| && forall i :: 0 <= i < |short| ==> short[i] == long[|long| - |short| + i]
  }

  // `text.lstrip()`.
  function StripStart(text: string): (r: string)
    ensures IsSuffix(r, text)
    ensures r != "" ==> !IsSpace(r[0])
    ensures forall i :: 0 <= i < |text| - |r| ==> IsSpace(text[i])
  {
    if text != "" && IsSpace(text[0]) then StripStart(text[1..]) else text
  }

  // `text.strip()`.
  function Strip(text: string): (r: string)
    ensures |r| <= |text|
  {
    StripEnd(StripStart(text))
  }

  predicate Blank(text: string) { forall i :: 0 <= i < |text| ==> IsSpace(text[i]) }

  /** A text is blank exactly when nothing is left after stripping it. */
  lemma {:induction false} BlankIffStripped(text: string)
    ensures Blank(text) <==> Strip(text) == ""
  {
    if text != "" && IsSpace(text[0]) {
      BlankIffStripped(text[1..]);
      assert forall i :: 1 <= i < |text| ==> text[i] == text[1..][i - 1];
      assert Strip(text) == Strip(text[1..]);
    } else if text != "" {
      assert StripStart(text) == text;
      var first := text[0];
      assert 0 < |StripEnd(text)| || IsSpace(first);
    }
  }

  lemma {:induction false} JoinPrefix(parts: seq<string>, sep: char, k: nat)
    requires k <= |parts|
    ensures Join(parts[..k], sep) <= Join(parts, sep)
  {
    if 2 <= |parts| && 1 <= k {
      assert parts[..k][1..] == parts[1..][..k - 1];
      JoinPrefix(parts[1..], sep, k - 1);
      if k == 1 {
        assert parts[..k] == [parts[0]];
      }
    } else if k == |parts| {
      assert parts[..k] == parts;
    }
  }

  lemma {:induction false} JoinConcat(a: seq<string>, b: seq<string>, sep: char)
    requires a != [] && b != []
    ensures Join(a + b, sep) == Join(a, sep) + [sep] + Join(b, sep)
  {
    assert (a + b)[1..] == a[1..] + b;
    if |a| > 1 {
      JoinConcat(a[1..], b, sep);
    }
  }

  // The decimal digits of a number.
  function Digits(n: nat): (r: string)
    ensures |r| >= 1 && forall i :: 0 <= i < |r| ==> '0' <= r[i] <= '9'
  {
    var d := ['0' + (n % 10) as char];
    if n < 10 then d else Digits(n / 10) + d
  }

  /** Different numbers have different digits. */
  lemma {:induction false} DigitsAreInjective(a: nat, b: nat)
    requires Digits(a) == Digits(b)
    ensures a == b
  {
    var da, db := Digits(a), Digits(b);
    assert da[|da| - 1] == '0' + (a % 10) as char && db[|db| - 1] == '0' + (b % 10) as char;
    assert a % 10 == b % 10;
    assert a >= 10 ==> da[..|da| - 1] == Digits(a / 10);
    assert b >= 10 ==> db[..|db| - 1] == Digits(b / 10);
    if a >= 10 && b >= 10 {
      DigitsAreInjective(a / 10, b / 10);
    }
  }

  // The number that decimal digits stand for.
  function Value(digits: string): nat
    requires forall i :: 0 <= i < |digits| ==> '0' <= digits[i] <= '9'
  {
    if digits == "" then 0
    else 10 * Value(digits[..|digits| - 1]) + (digits[|digits| - 1] as int - '0' as int)
  }

  /** The digits of a number stand for it, without a leading zero. */
  lemma {:induction false} DigitsValue(n: nat)
    ensures Value(Digits(n)) == n && (n > 0 ==> Digits(n)[0] != '0')
  {
    var last := '0' + (n % 10) as char;
    if n < 10 {
      assert Digits(n) == [last] && [last][..0] == "";
    } else {
      DigitsValue(n / 10);
      assert Digits(n) == Digits(n / 10) + [last] && Digits(n)[..|Digits(n)| - 1] == Digits(n / 10);
    }
  }
}
