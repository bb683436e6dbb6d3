/** What one pass of the main loop of `execute` does, instruction by
    instruction, and what follows over several passes: where the forward scan
    stops, that an entered loop comes back to its `[`, how steps are counted. */
module EngineProperties {
  import opened Wrapping
  import opened Tapes
  import opened Results
  import opened Normalize
  import opened Engine

  // ----- The forward scan -----

  /** The index the scan leaves in its starting frame when no `]` follows
      `p`: the first `[` after `p`, or the program length if there is none. */
  function FirstOpenOrEnd(code: string, p: nat): (r: int)
    ensures p < |code| ==> p < r <= |code|
    ensures p >= |code| ==> r == p
    ensures r < |code| ==> code[r] == '['
    ensures forall k | p < k < r :: code[k] != '['
    decreases |code| - p
  {
    if p >= |code| then p
    else if p + 1 < |code| && code[p + 1] == '[' then p + 1
    else FirstOpenOrEnd(code, p + 1)
  }

  /** Where a `]` follows, every frame of the scan stops on the first one:
      nested `[`s only make the scan go over the same indices again, so the
      scan ends at the starting depth on that `]`, whether or not it is the
      matching one. */
  lemma {:induction false} ScanFindsFirstClose(code: string, base: nat, t: Tape, lo: nat, j: nat)
    requires ScanReady(code, base, t)
    requires j < |code| && code[j] == ']'
    requires forall k | lo < k < j :: code[k] != ']'
    requires forall d | base <= d <= t.pointer :: lo <= t.list[d] < j
    ensures Scan(code, base, t).Matched?
    ensures Scan(code, base, t).t.pointer == base && Scan(code, base, t).t.Current() == j
    decreases ScanWork(code, base, t)
  {
    ScanWorkDecreases(code, base, t);
    var t1 := t.Increment();
    var c := t1.Current();
    assert lo <= t.Current() < c <= j;
    if c < |code| && code[c] == '[' {
      DivisionUnique(c, PositionBase, 0, c);
      var t2 := t1.IncrementPointer(c);
      assert forall d | base <= d <= t2.pointer :: lo <= t2.list[d] < j by {
        forall d | base <= d <= t2.pointer
          ensures lo <= t2.list[d] < j
        {
          if d < t.pointer {
            assert t2.list[d] == t.list[d];
          }
        }
      }
      ScanFindsFirstClose(code, base, t2, lo, j);
    } else if c < |code| && code[c] == ']' {
      if t1.pointer > base {
        var t2 := t1.DecrementPointer(0);
        assert forall d | base <= d <= t2.pointer :: lo <= t2.list[d] < j by {
          forall d | base <= d <= t2.pointer
            ensures lo <= t2.list[d] < j
          {
            assert t2.list[d] == t.list[d];
          }
        }
        ScanFindsFirstClose(code, base, t2, lo, j);
      }
    } else {
      assert forall d | base <= d <= t1.pointer :: lo <= t1.list[d] < j by {
        forall d | base <= d <= t1.pointer
          ensures lo <= t1.list[d] < j
        {
          if d < t.pointer {
            assert t1.list[d] == t.list[d];
          }
        }
      }
      ScanFindsFirstClose(code, base, t1, lo, j);
    }
  }

  /** Where no `]` follows, the scan runs off the end. The index left in the
      starting frame is the one the error message reports: the first `[`
      after the index the frame stood at (a frame pushed for it never comes
      back), or the program length. */
  lemma {:induction false} ScanRunsOff(code: string, base: nat, t: Tape)
    requires ScanReady(code, base, t)
    requires forall k | t.Current() < k < |code| :: code[k] != ']'
    ensures Scan(code, base, t).RanOff?
    ensures Scan(code, base, t).t.list[base] ==
              if t.pointer > base then t.list[base] else FirstOpenOrEnd(code, t.Current())
    decreases ScanWork(code, base, t)
  {
    if t.Current() < |code| {
      ScanWorkDecreases(code, base, t);
      var t1 := t.Increment();
      var c := t1.Current();
      if c < |code| && code[c] == '[' {
        DivisionUnique(c, PositionBase, 0, c);
        var t2 := t1.IncrementPointer(c);
        ScanRunsOff(code, base, t2);
      } else {
        ScanRunsOff(code, base, t1);
      }
    }
  }

  // ----- One pass of the main loop, by instruction -----

  /** `>`, `<`, `+`, `-`, `,` and `.` act on data memory, input and output
      only, and the current index then moves one instruction on within the
      same frame. `,` stores the next input code (0 once the input is used
      up) and consumes it from the front; `.` appends the character whose
      code is the current cell. */
  lemma StepDataCommand(code: string, maxSteps: int, m: Machine)
    requires Ready(code, m)
    requires code[m.position.Current()] in {'>', '<', '+', '-', ',', '.'}
    ensures var s := Step(code, maxSteps, m);
            && s.m.steps == m.steps + 1 && (s.Stop? <==> m.steps + 1 == maxSteps)
            && s.m.position == m.position.Increment()
            && s.m.position.Current() == m.position.Current() + 1
    ensures var s := Step(code, maxSteps, m); var c := code[m.position.Current()];
            && (c == '>' ==> s.m.memory == m.memory.IncrementPointer(0))
            && (c == '<' ==> s.m.memory == m.memory.DecrementPointer(0))
            && (c == '+' ==> s.m.memory == m.memory.Increment())
            && (c == '-' ==> s.m.memory == m.memory.Decrement())
            && (c == ',' ==> s.m.memory == m.memory.SetCurrent(if m.input == [] then 0 else m.input[0])
                             && s.m.input == (if m.input == [] then [] else m.input[1..]))
            && (c == '.' ==> s.m.output == m.output + [m.memory.Current() as char])
            && (c != ',' ==> s.m.input == m.input)
            && (c != '.' ==> s.m.output == m.output)
            && (c == '.' ==> s.m.memory == m.memory)
  {
    DivisionUnique(m.position.Current() + 1, PositionBase, 0, m.position.Current() + 1);
  }

  /** A `[` on a non-zero cell pushes a frame: the depth goes up by one, the
      frames up to the old depth (the one holding this `[`'s index among
      them) are kept, and execution goes on just after the `[`. At index 0
      the new frame would not be seeded and would go on from whatever that
      frame held before; `ReachedFramesEntered` shows that `execute` never
      enters a loop from index 0. */
  lemma StepEntersLoop(code: string, maxSteps: int, m: Machine)
    requires Ready(code, m)
    requires code[m.position.Current()] == '[' && m.memory.Current() != 0
    ensures var s := Step(code, maxSteps, m); var d := m.position.pointer; var i := m.position.Current();
            && s.m.memory == m.memory && s.m.output == m.output && s.m.input == m.input
            && s.m.steps == m.steps + 1 && (s.Stop? <==> m.steps + 1 == maxSteps)
            && s.m.position.pointer == d + 1
            && s.m.position.list[..d + 1] == m.position.list[..d + 1]
            && s.m.position.Current() ==
                 if i != 0 then i + 1
                 else ((if d + 1 < |m.position.list| then m.position.list[d + 1] else 0) + 1) % PositionBase
  {
    var i := m.position.Current();
    var d := m.position.pointer;
    var pushed := m.position.IncrementPointer(i);
    assert pushed.Increment().list[..d + 1] == m.position.list[..d + 1];
    if i != 0 {
      DivisionUnique(i, PositionBase, 0, i);
      DivisionUnique(i + 1, PositionBase, 0, i + 1);
    }
  }

  /** A `[` on a zero cell where a `]` follows: one step skips to just after
      the first following `]`, at the same depth, with data memory, input and
      output untouched. */
  lemma StepSkipsToFirstClose(code: string, maxSteps: int, m: Machine, j: nat)
    requires Ready(code, m)
    requires code[m.position.Current()] == '[' && m.memory.Current() == 0
    requires m.position.Current() < j < |code| && code[j] == ']'
    requires forall k | m.position.Current() < k < j :: code[k] != ']'
    ensures var s := Step(code, maxSteps, m); var d := m.position.pointer;
            && s.m.memory == m.memory && s.m.output == m.output && s.m.input == m.input
            && s.m.steps == m.steps + 1 && (s.Stop? <==> m.steps + 1 == maxSteps)
            && s.m.position.pointer == d
            && s.m.position.list[..d] == m.position.list[..d]
            && s.m.position.Current() == j + 1
  {
    var d := m.position.pointer;
    ScanFindsFirstClose(code, d, m.position, m.position.Current(), j);
    var t := Scan(code, d, m.position).t;
    DivisionUnique(j + 1, PositionBase, 0, j + 1);
    assert t.Increment().list[..d] == t.list[..d];
  }

  /** A `[` on a zero cell with no `]` after it: the step throws `Unmatched
      loop` at the first `[` after it (or the program length), before `steps`
      is incremented and with nothing else changed. */
  lemma StepSkipRunsOff(code: string, maxSteps: int, m: Machine)
    requires Ready(code, m)
    requires code[m.position.Current()] == '[' && m.memory.Current() == 0
    requires forall k | m.position.Current() < k < |code| :: code[k] != ']'
    ensures var s := Step(code, maxSteps, m);
            && s.Stop? && s.kind == UnmatchedLoop(FirstOpenOrEnd(code, m.position.Current()))
            && s.m.memory == m.memory && s.m.output == m.output && s.m.steps == m.steps
  {
    ScanRunsOff(code, m.position.pointer, m.position);
  }

  /** A `]` above depth 0 pops a frame; with the unconditional advance after
      it, the current index becomes the one that frame holds, the index of
      the `[` that pushed the frame. The `position` list is otherwise as it
      was. */
  lemma StepLeavesLoop(code: string, maxSteps: int, m: Machine)
    requires Ready(code, m)
    requires code[m.position.Current()] == ']' && m.position.pointer > 0
    ensures var s := Step(code, maxSteps, m);
            && s.m.memory == m.memory && s.m.output == m.output && s.m.input == m.input
            && s.m.steps == m.steps + 1 && (s.Stop? <==> m.steps + 1 == maxSteps)
            && s.m.position == Tape(m.position.list, m.position.pointer - 1, PositionBase)
            && s.m.position.Current() == m.position.list[m.position.pointer - 1]
  {
    IncrementDecrementInverse(m.position.DecrementPointer(0));
  }

  /** A `]` at depth 0 throws `Unmatched loop` at its own index, before
      `steps` is incremented, with the state as it was. */
  lemma StepUnmatchedClose(code: string, maxSteps: int, m: Machine)
    requires Ready(code, m)
    requires code[m.position.Current()] == ']' && m.position.pointer == 0
    ensures Step(code, maxSteps, m) == Stop(UnmatchedLoop(m.position.Current()), m)
  {
  }

  /** Any character other than the eight instructions throws `Invalid
      operator` with the state, `steps` included, as it was. */
  lemma StepRejectsNonCommand(code: string, maxSteps: int, m: Machine)
    requires Ready(code, m)
    requires !IsCommand(code[m.position.Current()])
    ensures Step(code, maxSteps, m) == Stop(InvalidOperator(code[m.position.Current()]), m)
  {
  }

  /** A negative budget (-1 disables the limit) never throws `Too many steps`. */
  lemma NegativeBudgetNeverStops(code: string, maxSteps: int, m: Machine)
    requires Ready(code, m) && maxSteps < 0
    ensures !(Step(code, maxSteps, m).Stop? && Step(code, maxSteps, m).kind.TooManySteps?)
  {
  }

  /** A pass that ends normally never changes the frames below the one it
      started in, and lowers the depth by at most one. */
  lemma StepKeepsLowerFrames(code: string, maxSteps: int, m: Machine)
    requires Ready(code, m) && Step(code, maxSteps, m).Next?
    ensures Step(code, maxSteps, m).m.position.pointer + 1 >= m.position.pointer
    ensures Step(code, maxSteps, m).m.position.list[..m.position.pointer]
            == m.position.list[..m.position.pointer]
  {
    var c := code[m.position.Current()];
    var p := m.position.pointer;
    if c == '[' {
      if m.memory.Current() != 0 {
        var pushed := m.position.IncrementPointer(m.position.Current());
        assert pushed.Increment().list[..p] == m.position.list[..p];
      } else {
        var t := Scan(code, p, m.position).t;
        assert t.Increment().list[..p] == t.list[..p];
      }
    } else if c == ']' {
      IncrementDecrementInverse(m.position.DecrementPointer(0));
    } else {
      StepDataCommand(code, maxSteps, m);
      assert m.position.Increment().list[..p] == m.position.list[..p];
    }
  }

  /** Every frame from the bottom up to the current depth holds a non-zero
      index. */
  predicate FramesEntered(m: Machine)
  {
    m.position.pointer < |m.position.list|
    && forall d | 0 <= d <= m.position.pointer :: m.position.list[d] != 0
  }

  /** A normal pass from a state whose lower frames are non-zero, and whose
      current index is 0 only over a zero data cell, ends with every frame up
      to the new depth non-zero. */
  lemma StepEntersFrames(code: string, maxSteps: int, m: Machine)
    requires Ready(code, m) && Step(code, maxSteps, m).Next?
    requires forall d | 0 <= d < m.position.pointer :: m.position.list[d] != 0
    requires m.position.Current() == 0 ==> m.memory.Current() == 0
    ensures FramesEntered(Step(code, maxSteps, m).m)
  {
    var c := code[m.position.Current()];
    var p := m.position.pointer;
    var n := Step(code, maxSteps, m).m;
    StepKeepsLowerFrames(code, maxSteps, m);
    assert forall d | 0 <= d < p :: n.position.list[d] == n.position.list[..p][d];
    if c == '[' {
      if m.memory.Current() != 0 {
        StepEntersLoop(code, maxSteps, m);
        assert n.position.list[p] == n.position.list[..p + 1][p];
      } else {
        var t := Scan(code, p, m.position).t;
        DivisionUnique(t.Current() + 1, PositionBase, 0, t.Current() + 1);
      }
    } else if c == ']' {
      StepLeavesLoop(code, maxSteps, m);
    } else {
      StepDataCommand(code, maxSteps, m);
    }
  }

  // ----- Several passes -----

  /** `tr` is a stretch of the main loop: each state but the last passes the
      loop guard and its pass ends normally in the next one. */
  ghost predicate IsTrace(code: string, maxSteps: int, tr: seq<Machine>)
  {
    && |tr| >= 1 && |code| < PositionBase && (forall k | 0 <= k < |tr| :: tr[k].Valid())
    && forall k | 0 <= k < |tr| - 1 :: Ready(code, tr[k]) && Step(code, maxSteps, tr[k]) == Next(tr[k + 1])
  }

  lemma TraceShrinks(code: string, maxSteps: int, tr: seq<Machine>)
    requires IsTrace(code, maxSteps, tr) && |tr| >= 2
    ensures IsTrace(code, maxSteps, tr[..|tr| - 1])
    ensures tr[|tr| - 1] == Step(code, maxSteps, tr[|tr| - 2]).m
    ensures Ready(code, tr[|tr| - 2]) && Step(code, maxSteps, tr[|tr| - 2]).Next?
  {
  }

  lemma TraceDropsFirst(code: string, maxSteps: int, tr: seq<Machine>)
    requires IsTrace(code, maxSteps, tr) && |tr| >= 2
    ensures IsTrace(code, maxSteps, tr[1..])
    ensures tr[1] == Step(code, maxSteps, tr[0]).m
    ensures Ready(code, tr[0]) && Step(code, maxSteps, tr[0]).Next?
  {
  }

  /** `steps` counts the passes: over a stretch of `n` normal passes it
      grows by exactly `n`. */
  lemma {:induction false} StepsCountPasses(code: string, maxSteps: int, tr: seq<Machine>)
    requires IsTrace(code, maxSteps, tr)
    ensures tr[|tr| - 1].steps == tr[0].steps + (|tr| - 1)
    decreases |tr|
  {
    if |tr| >= 2 {
      TraceShrinks(code, maxSteps, tr);
      StepsCountPasses(code, maxSteps, tr[..|tr| - 1]);
    }
  }

  /** Where the loop guard holds and the pass ends normally, the run goes on
      from the state that pass leaves. */
  lemma RunUnfolds(code: string, maxSteps: int, m: Machine)
    requires Ready(code, m) && m.steps < maxSteps && Step(code, maxSteps, m).Next?
    ensures Step(code, maxSteps, m).m.steps < maxSteps
    ensures Run(code, maxSteps, m) == Run(code, maxSteps, Step(code, maxSteps, m).m)
  {
  }

  /** Running from the first state of a stretch and from its last come to the
      same outcome, and no pass on the way uses up the budget. */
  lemma {:induction false} RunAlongTrace(code: string, maxSteps: int, tr: seq<Machine>)
    requires IsTrace(code, maxSteps, tr) && tr[0].steps < maxSteps
    ensures tr[|tr| - 1].steps < maxSteps
    ensures Run(code, maxSteps, tr[0]) == Run(code, maxSteps, tr[|tr| - 1])
    decreases |tr|
  {
    if |tr| >= 2 {
      TraceShrinks(code, maxSteps, tr);
      RunAlongTrace(code, maxSteps, tr[..|tr| - 1]);
      RunUnfolds(code, maxSteps, tr[|tr| - 2]);
    }
  }

  /** `b` follows `a` the way one normal pass changes `position`: the depth
      drops by at most one and the frames below `a`'s depth are kept. */
  predicate KeepsLowerFrames(a: Tape, b: Tape)
  {
    a.pointer <= |a.list| && a.pointer <= |b.list| && b.pointer + 1 >= a.pointer
    && b.list[..a.pointer] == a.list[..a.pointer]
  }

  /** Over a sequence of `position` tapes each following the one before as a
      pass does, where every tape but the last is deeper than `d`, the last
      is at depth `d` or deeper and the frames up to `d` are as in the
      first. */
  lemma {:induction false} FramesKept(ts: seq<Tape>, d: nat)
    requires |ts| >= 1 && ts[0].pointer > d
    requires forall k | 0 <= k < |ts| :: ts[k].Valid()
    requires forall k | 0 <= k < |ts| - 1 :: ts[k].pointer > d && KeepsLowerFrames(ts[k], ts[k + 1])
    ensures ts[|ts| - 1].pointer >= d
    ensures ts[0].Valid() && ts[|ts| - 1].Valid()
    ensures ts[|ts| - 1].list[..d + 1] == ts[0].list[..d + 1]
    decreases |ts|
  {
    if |ts| >= 2 {
      var n := |ts|;
      FramesKept(ts[..n - 1], d);
      var a, b := ts[n - 2], ts[n - 1];
      assert KeepsLowerFrames(a, b);
      assert b.list[..a.pointer][..d + 1] == b.list[..d + 1];
      assert a.list[..a.pointer][..d + 1] == a.list[..d + 1];
    }
  }

  /** While every pass of a stretch starts deeper than `d`, the last state
      is at depth `d` or deeper and the frames up to `d` are as in the
      first. */
  lemma BodyKeepsFrames(code: string, maxSteps: int, tr: seq<Machine>, d: nat)
    requires IsTrace(code, maxSteps, tr) && tr[0].position.pointer > d
    requires forall k | 0 <= k < |tr| - 1 :: tr[k].position.pointer > d
    ensures tr[|tr| - 1].position.pointer >= d
    ensures tr[|tr| - 1].position.list[..d + 1] == tr[0].position.list[..d + 1]
  {
    var ts := seq(|tr|, k requires 0 <= k < |tr| => tr[k].position);
    forall k | 0 <= k < |ts| - 1
      ensures KeepsLowerFrames(ts[k], ts[k + 1])
    {
      assert Ready(code, tr[k]) && Step(code, maxSteps, tr[k]) == Next(tr[k + 1]);
      StepKeepsLowerFrames(code, maxSteps, tr[k]);
    }
    FramesKept(ts, d);
  }

  /** An entered loop returns to its `[`: after a `[` at index `i` and depth
      `d` is entered, however the body runs (nested loops included), the
      first time a pass ends back at depth `d` the current index is `i`
      again, so the loop condition is checked again; the frames up to `d` are
      as they were before the `[`. */
  lemma LoopReturnsToOpen(code: string, maxSteps: int, tr: seq<Machine>)
    requires IsTrace(code, maxSteps, tr) && |tr| >= 2
    requires tr[0].position.Current() < |code| && code[tr[0].position.Current()] == '['
    requires tr[0].memory.Current() != 0
    requires forall k | 1 <= k < |tr| - 1 :: tr[k].position.pointer > tr[0].position.pointer
    requires tr[|tr| - 1].position.pointer == tr[0].position.pointer
    ensures tr[|tr| - 1].position.Current() == tr[0].position.Current()
    ensures tr[|tr| - 1].position.list[..tr[0].position.pointer + 1]
            == tr[0].position.list[..tr[0].position.pointer + 1]
  {
    var d := tr[0].position.pointer;
    TraceDropsFirst(code, maxSteps, tr);
    StepEntersLoop(code, maxSteps, tr[0]);
    var body := tr[1..];
    assert forall k | 0 <= k < |body| - 1 :: body[k].position.pointer > d by {
      forall k | 0 <= k < |body| - 1
        ensures body[k].position.pointer > d
      {
        if k > 0 {
          assert body[k] == tr[k + 1];
        }
      }
    }
    BodyKeepsFrames(code, maxSteps, body, d);
    var last := body[|body| - 1].position;
    assert last.list[d] == last.list[..d + 1][d];
  }

  /** What `StepEntersFrames` needs of the state a pass starts from: the
      lower frames are non-zero, and index 0 is current only over a zero data
      cell. The initial state has it, and so has every `FramesEntered` state. */
  predicate MayEnter(m: Machine)
  {
    m.Valid() && (forall d | 0 <= d < m.position.pointer :: m.position.list[d] != 0)
    && (m.position.Current() == 0 ==> m.memory.Current() == 0)
  }

  /** Over a chain of states where each one that may enter leads to a
      `FramesEntered` one, and the first may enter, every later state has
      `FramesEntered`. */
  lemma {:induction false} EnteredChain(ms: seq<Machine>)
    requires |ms| >= 1 && MayEnter(ms[0])
    requires forall k | 0 <= k < |ms| :: ms[k].Valid()
    requires forall k | 0 <= k < |ms| - 1 :: MayEnter(ms[k]) ==> FramesEntered(ms[k + 1])
    ensures forall k | 1 <= k < |ms| :: FramesEntered(ms[k])
    decreases |ms|
  {
    if |ms| >= 2 {
      var n := |ms|;
      var before := ms[..n - 1];
      EnteredChain(before);
      if n - 2 >= 1 {
        assert FramesEntered(before[n - 2]);
      }
      assert MayEnter(ms[n - 2]);
      forall k | 1 <= k < n
        ensures FramesEntered(ms[k])
      {
        if k < n - 1 {
          assert ms[k] == before[k];
        }
      }
    }
  }

  /** From the start of `execute`, every state after the first pass has a
      non-zero index in every frame up to its depth. Index 0 is current only
      on the first pass, over a fresh zero cell, so a `[` at index 0 is always
      skipped: the unseeded `incrementPointer(0)` of a loop entry is never
      reached. */
  lemma ReachedFramesEntered(code: string, maxSteps: int, input: string, tr: seq<Machine>)
    requires IsTrace(code, maxSteps, tr) && tr[0] == Initial(input)
    ensures forall k | 1 <= k < |tr| :: FramesEntered(tr[k])
  {
    forall k | 0 <= k < |tr| - 1
      ensures MayEnter(tr[k]) ==> FramesEntered(tr[k + 1])
    {
      assert Ready(code, tr[k]) && Step(code, maxSteps, tr[k]) == Next(tr[k + 1]);
      if MayEnter(tr[k]) {
        StepEntersFrames(code, maxSteps, tr[k]);
      }
    }
    EnteredChain(tr);
  }

  /** Every loop `execute` enters is entered from a non-zero index, so the
      frame it pushes is seeded with that index and the body starts just
      after the `[`. */
  lemma EnteredLoopIsSeeded(code: string, maxSteps: int, input: string, tr: seq<Machine>, k: nat)
    requires IsTrace(code, maxSteps, tr) && tr[0] == Initial(input) && k < |tr|
    requires Ready(code, tr[k]) && code[tr[k].position.Current()] == '[' && tr[k].memory.Current() != 0
    ensures tr[k].position.Current() != 0
    ensures Step(code, maxSteps, tr[k]).m.position.Current() == tr[k].position.Current() + 1
  {
    ReachedFramesEntered(code, maxSteps, input, tr);
    StepEntersLoop(code, maxSteps, tr[k]);
  }
}
