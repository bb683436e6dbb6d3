/** The growable, wrapping tape of the interpreter (`Memory` in lib/index.js).
    `Tape` is the value view of one: what a `Memory` holds at one moment, and
    the specification of every operation on it. `Memory` is the object the
    interpreter updates in place; each of its methods is proved to move its
    `Snapshot()` exactly as the `Tape` function of the same name does. */
module Tapes {
  import opened Wrapping

  /** A list of cells, a cursor into it (`pointer`) and the modulus of the
      cells (`base`). */
  datatype Tape = Tape(list: seq<int>, pointer: nat, base: nat)
  {
    /** What every `Memory` keeps: a positive modulus, a cursor on an existing
        cell, and every cell in `[0, base)`. */
    predicate Valid()
    {
      base > 0 && pointer < |list| && forall i | 0 <= i < |list| :: 0 <= list[i] < base
    }

    /** The `current` getter: the cell under the cursor. */
    function Current(): (v: int)
      requires Valid()
      ensures 0 <= v < base
    {
      list[pointer]
    }

    /** The `current` setter: the cell under the cursor becomes `value` reduced
        into `[0, base)`; the cursor and every other cell stay as they were. */
    function SetCurrent(value: int): (t: Tape)
      requires Valid()
      ensures t.Valid() && t.base == base && t.pointer == pointer && |t.list| == |list|
      ensures t.Current() == value % base
      ensures forall i | 0 <= i < |list| && i != pointer :: t.list[i] == list[i]
    {
      Tape(list[pointer := Wrap(value, base)], pointer, base)
    }

    /** The `currentChar` getter: the character whose code is the current
        cell. Only asked of tapes whose cells are all character codes. */
    function CurrentChar(): (c: char)
      requires Valid() && base <= 0xD800
      ensures c as int == Current()
    {
      Current() as char
    }

    /** `incrementPointer(index)`: the cursor moves one cell right, appending a
        zero cell when it leaves the list. A truthy (non-zero) `index` is then
        written, wrapped, into the new cell; `index == 0` leaves the cell as it
        was, which may be a value written there earlier. */
    function IncrementPointer(index: int): (t: Tape)
      requires Valid()
      ensures t.Valid() && t.base == base && t.pointer == pointer + 1
      ensures |t.list| == if pointer + 1 == |list| then |list| + 1 else |list|
      ensures forall i | 0 <= i < |list| && i != pointer + 1 :: t.list[i] == list[i]
      ensures t.Current() ==
                if index != 0 then index % base
                else if pointer + 1 < |list| then list[pointer + 1]
                else 0
    {
      var grown := if pointer + 1 == |list| then list + [0] else list;
      var moved := Tape(grown, pointer + 1, base);
      assert moved.Valid();
      if index != 0 then moved.SetCurrent(JsRem(index, base)) else moved
    }

    /** `decrementPointer(index)`: the cursor moves one cell left; at the left
        end a zero cell is put in front of the list instead and the cursor stays
        at 0, so the old cells all move up one index. A non-zero `index` is then
        written, wrapped, into the cell under the cursor. */
    function DecrementPointer(index: int): (t: Tape)
      requires Valid()
      ensures t.Valid() && t.base == base
      ensures t.pointer == if pointer == 0 then 0 else pointer - 1
      ensures pointer > 0 ==> |t.list| == |list|
      ensures pointer > 0 ==> forall i | 0 <= i < |list| && i != pointer - 1 :: t.list[i] == list[i]
      ensures pointer == 0 ==> |t.list| == |list| + 1
      ensures pointer == 0 ==> forall i | 0 <= i < |list| :: t.list[i + 1] == list[i]
      ensures t.Current() ==
                if index != 0 then index % base
                else if pointer == 0 then 0
                else list[pointer - 1]
    {
      var moved := if pointer == 0 then Tape([0] + list, 0, base) else Tape(list, pointer - 1, base);
      assert moved.Valid();
      if index != 0 then moved.SetCurrent(JsRem(index, base)) else moved
    }

    /** `increment()`: the current cell goes up by one, modulo `base`. */
    function Increment(): (t: Tape)
      requires Valid()
      ensures t.Valid() && t.base == base && t.pointer == pointer && |t.list| == |list|
      ensures t.Current() == (Current() + 1) % base
      ensures forall i | 0 <= i < |list| && i != pointer :: t.list[i] == list[i]
    {
      SetCurrent(Current() + 1)
    }

    /** `decrement()`: the current cell goes down by one, modulo `base`. */
    function Decrement(): (t: Tape)
      requires Valid()
      ensures t.Valid() && t.base == base && t.pointer == pointer && |t.list| == |list|
      ensures t.Current() == (Current() - 1) % base
      ensures forall i | 0 <= i < |list| && i != pointer :: t.list[i] == list[i]
    {
      SetCurrent(Current() - 1)
    }
  }

  /** A fresh tape: one zero cell under the cursor. */
  function Fresh(base: nat): (t: Tape)
    requires base > 0
    ensures t.Valid() && t.base == base && t.Current() == 0
    ensures t.list == [0] && t.pointer == 0
  {
    Tape([0], 0, base)
  }

  /** Incrementing the largest cell value wraps to 0. */
  lemma IncrementWrapsToZero(t: Tape)
    requires t.Valid() && t.Current() == t.base - 1
    ensures t.Increment().Current() == 0
  {
    DivisionUnique(t.base, t.base, 1, 0);
  }

  /** Decrementing a zero cell wraps to the largest cell value. */
  lemma DecrementWrapsToTop(t: Tape)
    requires t.Valid() && t.Current() == 0
    ensures t.Decrement().Current() == t.base - 1
  {
    DivisionUnique(-1, t.base, -1, t.base - 1);
  }

  /** `increment` and `decrement` undo each other, wrap-around included. */
  lemma IncrementDecrementInverse(t: Tape)
    requires t.Valid()
    ensures t.Increment().Decrement() == t
    ensures t.Decrement().Increment() == t
  {
    var v := t.Current();
    var up := t.Increment();
    var down := t.Decrement();
    if v == t.base - 1 {
      IncrementWrapsToZero(t);
      DecrementWrapsToTop(up);
    } else {
      DivisionUnique(v + 1, t.base, 0, v + 1);
      DivisionUnique(v, t.base, 0, v);
    }
    if v == 0 {
      DecrementWrapsToTop(t);
      IncrementWrapsToZero(down);
    } else {
      DivisionUnique(v - 1, t.base, 0, v - 1);
      DivisionUnique(v, t.base, 0, v);
    }
    assert up.Decrement().list == t.list;
    assert down.Increment().list == t.list;
  }

  /** Moving right and then left (neither seeding) returns the cursor to where
      it was and leaves every cell that existed before as it was. */
  lemma RightThenLeft(t: Tape)
    requires t.Valid()
    ensures t.IncrementPointer(0).DecrementPointer(0).pointer == t.pointer
    ensures t.IncrementPointer(0).DecrementPointer(0).list[..|t.list|] == t.list
  {
    var r := t.IncrementPointer(0);
    var l := r.DecrementPointer(0);
    assert forall i | 0 <= i < |t.list| :: l.list[i] == t.list[i];
  }

  /** The memory object of lib/index.js, updated in place by the interpreter. */
  class Memory {
    var list: seq<int>
    var pointer: nat
    const base: nat

    /** The value this object holds now. */
    function Snapshot(): Tape
      reads this
    {
      Tape(list, pointer, base)
    }

    ghost predicate Valid()
      reads this
    {
      Snapshot().Valid()
    }

    /** `new Memory(base)`; a falsy `base` (absent, or 0) means 256. */
    constructor (base: nat)
      ensures Valid()
      ensures Snapshot() == Tape([0], 0, if base == 0 then 256 else base)
    {
      list := [0];
      pointer := 0;
      this.base := if base == 0 then 256 else base;
    }

    /** The `current` getter. */
    function Current(): (v: int)
      reads this
      requires Valid()
      ensures 0 <= v < base
      ensures v == Snapshot().Current()
    {
      list[pointer]
    }

    /** The `currentChar` getter. */
    function CurrentChar(): (c: char)
      reads this
      requires Valid() && base <= 0xD800
      ensures c == Snapshot().CurrentChar()
    {
      list[pointer] as char
    }

    /** The `current` setter: store the JavaScript remainder, then add `base`
        once if that came out negative. */
    method SetCurrent(value: int)
      requires Valid()
      modifies this
      ensures Valid() && Snapshot() == old(Snapshot()).SetCurrent(value)
    {
      list := list[pointer := JsRem(value, base)];
      if list[pointer] < 0 {
        list := list[pointer := list[pointer] + base];
      }
    }

    method IncrementPointer(index: int)
      requires Valid()
      modifies this
      ensures Valid() && Snapshot() == old(Snapshot()).IncrementPointer(index)
    {
      pointer := pointer + 1;
      if pointer == |list| {
        list := list + [0];
      }
      if index != 0 {
        SetCurrent(JsRem(index, base));
      }
    }

    method DecrementPointer(index: int)
      requires Valid()
      modifies this
      ensures Valid() && Snapshot() == old(Snapshot()).DecrementPointer(index)
    {
      if pointer == 0 {
        list := [0] + list;
      } else {
        pointer := pointer - 1;
      }
      if index != 0 {
        SetCurrent(JsRem(index, base));
      }
    }

    method Increment()
      requires Valid()
      modifies this
      ensures Valid() && Snapshot() == old(Snapshot()).Increment()
    {
      SetCurrent(Current() + 1);
    }

    method Decrement()
      requires Valid()
      modifies this
      ensures Valid() && Snapshot() == old(Snapshot()).Decrement()
    {
      SetCurrent(Current() - 1);
    }
  }
}
