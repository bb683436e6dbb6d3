/** The records an execution returns or throws (`Result`, `BrainfuckError`
    in lib/index.js), with the exception channel replaced by `Outcome`. */
module Results {
  import opened Tapes

  /** What a run produced: the text written by `.`, the data memory and the
      number of steps taken. The elapsed time is not part of this model. */
  datatype Result = Result(output: string, memory: Tape, steps: nat)

  /** The three kinds of `BrainfuckError`, each with the value its message
      interpolates. */
  datatype ErrorKind =
    | UnmatchedLoop(index: nat)
    | InvalidOperator(operator: char)
    | TooManySteps(reached: nat)
  {
    /** The message text the source builds for this error: a fixed text
        around the decimal index, the operator, or the step count. */
    function Message(): (r: string)
      ensures UnmatchedLoop? ==>
                |r| > 24 && r[..24] == "Unmatched loop at index " && r[24..] == NatToString(index)
      ensures InvalidOperator? ==>
                |r| == 20 && r[..18] == "Invalid operator '" && r[18] == operator && r[19] == '\''
      ensures TooManySteps? ==>
                |r| > 25 && r[..16] == "Too many steps (" && r[|r| - 9..] == " reached)"
                && r[16..|r| - 9] == NatToString(reached)
    {
      match this
      case UnmatchedLoop(i) => "Unmatched loop at index " + NatToString(i)
      case InvalidOperator(c) => "Invalid operator '" + [c] + "'"
      case TooManySteps(n) => "Too many steps (" + NatToString(n) + " reached)"
    }
  }

  /** An error together with the partial result at the moment it was thrown. */
  datatype BrainfuckError = BrainfuckError(kind: ErrorKind, result: Result)

  /** How `execute` ends: it returns a `Result`, throws a `BrainfuckError`, or
      throws the plain error for a program with nothing left after filtering
      (which carries no result). */
  datatype Outcome = Ok(result: Result) | Fail(error: BrainfuckError) | EmptyProgram
  {
    /** The text written so far, where there is a result to read it from. */
    function Output(): string
      requires !EmptyProgram?
    {
      if Ok? then result.output else error.result.output
    }

    /** The `message` of what was thrown: the text built for the error's
        kind, or the plain error's text. Only the plain error has that
        text. */
    function Message(): (r: string)
      requires !Ok?
      ensures r == NoValidInput <==> EmptyProgram?
    {
      if EmptyProgram? then NoValidInput
      else
        var m := error.kind.Message();
        assert m[0] != 'N';
        m
    }
  }

  /** The message of the plain error thrown for an empty program. */
  const NoValidInput: string := "No valid input given"

  function Digit(d: nat): (c: char)
    requires d < 10
    ensures '0' <= c <= '9' && c as int - '0' as int == d
  {
    ('0' as int + d) as char
  }

  /** The decimal text of a natural number, as a template literal prints it. */
  function NatToString(n: nat): (s: string)
    ensures |s| >= 1
    ensures forall i | 0 <= i < |s| :: '0' <= s[i] <= '9'
    ensures s[0] == '0' <==> n == 0
    ensures n == 0 ==> s == "0"
    ensures |s| > 1 ==> s[0] != '0'
    ensures DecimalValue(s) == n
    decreases n
  {
    if n < 10 then [Digit(n)]
    else
      var s := NatToString(n / 10) + [Digit(n % 10)];
      assert s[..|s| - 1] == NatToString(n / 10);
      s
  }

  /** The number a string of decimal digits denotes. */
  function DecimalValue(s: string): nat
    decreases |s|
  {
    if s == [] then 0
    else
      var d := s[|s| - 1] as int - '0' as int;
      DecimalValue(s[..|s| - 1]) * 10 + (if 0 <= d < 10 then d else 0)
  }
  /** Different numbers print differently. */
  lemma NatToStringInjective(a: nat, b: nat)
    requires NatToString(a) == NatToString(b)
    ensures a == b
  {
    assert DecimalValue(NatToString(a)) == a;
  }

  /** The message text tells the kind of error and its value: two errors
      with the same message are the same error. */
  lemma MessageDeterminesKind(k1: ErrorKind, k2: ErrorKind)
    requires k1.Message() == k2.Message()
    ensures k1 == k2
  {
    var r := k1.Message();
    assert r[0] == (if k1.UnmatchedLoop? then 'U' else if k1.InvalidOperator? then 'I' else 'T');
    assert r[0] == (if k2.UnmatchedLoop? then 'U' else if k2.InvalidOperator? then 'I' else 'T');
    if k1.UnmatchedLoop? {
      NatToStringInjective(k1.index, k2.index);
    } else if k1.TooManySteps? {
      NatToStringInjective(k1.reached, k2.reached);
    }
  }

  /** What was thrown can be told from its message alone: the plain error
      from a `BrainfuckError`, and the kind and value of a `BrainfuckError`. */
  lemma MessageDeterminesOutcome(o1: Outcome, o2: Outcome)
    requires !o1.Ok? && !o2.Ok? && o1.Message() == o2.Message()
    ensures o1.EmptyProgram? <==> o2.EmptyProgram?
    ensures o1.Fail? ==> o1.error.kind == o2.error.kind
  {
    if o1.Fail? && o2.Fail? {
      MessageDeterminesKind(o1.error.kind, o2.error.kind);
    }
  }
}
