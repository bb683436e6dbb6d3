/** The source filter applied at the start of `execute`:
    `code.replace(/[^+-\[\].,<>]/gim, '')`. */
module Normalize {

  /** The characters the regular expression does NOT remove. Inside its class
      `+-\[` is a range, from `'+'` (0x2B) to `'['` (0x5B), which already holds
      the digits, the upper-case letters and `. , < >`; `\]` adds `']'`. The
      case-insensitive flag adds the lower-case forms of the letters in the
      range, `'a'`..`'z'`. */
  predicate Kept(c: char): (b: bool)
    ensures ('0' <= c <= '9' || 'A' <= c <= 'Z' || 'a' <= c <= 'z') ==> b
    ensures b ==> c <= 'z'
  {
    ('+' <= c <= '[') || c == ']' || ('a' <= c <= 'z')
  }

  /** The eight instructions `execute` dispatches on. */
  predicate IsCommand(c: char)
  {
    c == '>' || c == '<' || c == '+' || c == '-' || c == ',' || c == '.' || c == '[' || c == ']'
  }

  /** The filtered program: the kept characters of `code`, in order. */
  function Strip(code: string): (r: string)
    ensures |r| <= |code|
    ensures forall i | 0 <= i < |r| :: Kept(r[i])
    decreases |code|
  {
    if code == [] then []
    else (if Kept(code[0]) then [code[0]] else []) + Strip(code[1..])
  }

  /** Every instruction survives the filter. */
  lemma CommandsAreKept(c: char)
    requires IsCommand(c)
    ensures Kept(c)
  {
  }

  /** A few characters that survive the filter without being instructions. */
  lemma SomeKeptAreNotCommands()
    ensures Kept('a') && !IsCommand('a')
    ensures Kept('Z') && !IsCommand('Z')
    ensures Kept('0') && !IsCommand('0')
    ensures !Kept(' ') && !Kept('\n') && !Kept('_') && !Kept('{')
  {
  }

  /** Filtering distributes over concatenation. */
  lemma {:induction false} StripConcat(a: string, b: string)
    ensures Strip(a + b) == Strip(a) + Strip(b)
    decreases |a|
  {
    if a != [] {
      assert (a + b)[0] == a[0] && (a + b)[1..] == a[1..] + b;
      StripConcat(a[1..], b);
      var head := if Kept(a[0]) then [a[0]] else [];
      calc {
        Strip(a + b);
        head + Strip(a[1..] + b);
        head + (Strip(a[1..]) + Strip(b));
        (head + Strip(a[1..])) + Strip(b);
      }
    } else {
      assert a + b == b;
    }
  }

  /** A string of kept characters is left as it is. */
  lemma {:induction false} StripFixesKept(s: string)
    requires forall i | 0 <= i < |s| :: Kept(s[i])
    ensures Strip(s) == s
    decreases |s|
  {
    if s != [] {
      StripFixesKept(s[1..]);
    }
  }

  /** Filtering twice is filtering once. */
  lemma StripIdempotent(code: string)
    ensures Strip(Strip(code)) == Strip(code)
  {
    StripFixesKept(Strip(code));
  }

  /** A character occurs in the filtered program exactly when it occurs in
      the source and is kept. */
  lemma {:induction false} StripMembership(code: string, c: char)
    ensures c in Strip(code) <==> c in code && Kept(c)
    decreases |code|
  {
    if code != [] {
      StripMembership(code[1..], c);
      assert code == [code[0]] + code[1..];
    }
  }

  /** A program written only with instructions is executed as written. */
  lemma StripKeepsPrograms(code: string)
    requires forall i | 0 <= i < |code| :: IsCommand(code[i])
    ensures Strip(code) == code
  {
    StripFixesKept(code);
  }
}
