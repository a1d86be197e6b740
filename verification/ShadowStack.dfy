/** The stack of ch1/shd_stack.c that grows without ever copying more than four items at a time:
    before the buffer is full, a larger copy is made in the background. */
module ShadowStack {

  class Stack {
    var base: array?<int>
    var size: nat
    var maxSize: nat
    var copy: array?<int>
    var copySize: nat

    /** While no copy is being made, less than three quarters are in use; while one is, what
        remains to be copied is at most three times the room left. */
    ghost predicate Valid()
      reads this, base, copy
    {
      && base != null && base.Length == maxSize && size <= maxSize
      && (if copy == null then copySize == 0 && 4 * size < 3 * maxSize
          else && copy != base && copy.Length == 2 * maxSize && copySize < size
               && size - copySize <= 3 * (maxSize - size)
               && forall i :: 0 <= i < copySize ==> copy[i] == base[i])
    }

    /** With n items a copy is being made, or begun. */
    ghost predicate Copying(n: int)
      reads `copy, `maxSize
    {
      copy != null || 4 * n >= 3 * maxSize
    }

    ghost function Items(): (s: seq<int>)
      reads this, base, copy
      requires Valid()
    {
      base[..size]
    }

    constructor (size: nat)
      requires size > 0
      ensures Valid() && Items() == [] && fresh(base) && maxSize == size && copy == null
    {
      base := new int[size];
      maxSize := size;
      this.size := 0;
      copy := null;
      copySize := 0;
    }

    method Empty() returns (r: bool)
      requires Valid()
      ensures r <==> Items() == []
    {
      r := size == 0;
    }

    method Top() returns (x: int)
      requires Valid() && size > 0
      ensures x == Items()[|Items()| - 1]
    {
      x := base[size - 1];
    }

    /** Never writes past the buffer, and copies at most four items. */
    method Push(x: int) returns (ghost copied: nat)
      requires Valid()
      modifies this, base, copy
      ensures Valid() && Items() == old(Items()) + [x] && copied <= 4
      ensures var left := size - old(copySize);
        copied == if !old(Copying(size + 1)) then 0 else if left < 4 then left else 4
      ensures var full := old(Copying(size + 1)) && old(copySize) + copied == size;
        && maxSize == (if full then 2 * old(maxSize) else old(maxSize))
        && copySize == (if full then 0 else old(copySize) + copied)
        && (copy == null <==> full || !old(Copying(size + 1)))
      ensures (base == old(base) || base == old(copy) || fresh(base))
      ensures copy == null || copy == old(copy) || fresh(copy)
    {
      copied := 0;
      base[size] := x;
      size := size + 1;
      ghost var items := old(Items()) + [x];
      assert base[..size] == items;
      if copy != null || 4 * size >= 3 * maxSize {
        if copy == null { copy := new int[2 * maxSize]; }
        copied := CopySome(items);
        if copySize == size { Switch(items); }
      }
    }

    /** The loop of push: copies until four are done or all. */
    method CopySome(ghost items: seq<int>) returns (ghost copied: nat)
      requires base != null && copy != null && copy != base && size <= base.Length <= copy.Length && copySize <= size
      requires base[..size] == items && forall i :: 0 <= i < copySize ==> copy[i] == base[i]
      modifies `copySize, copy
      ensures base[..size] == items && copySize == (if old(copySize) + 4 < size then old(copySize) + 4 else size)
      ensures copied == copySize - old(copySize) <= 4 && forall i :: 0 <= i < copySize ==> copy[i] == base[i]
    {
      copied := 0;
      var additional := 4;
      while additional > 0 && copySize < size
        invariant 0 <= additional <= 4 && copied == 4 - additional && copySize == old(copySize) + copied <= size
        invariant base[..size] == items && forall i :: 0 <= i < copySize ==> copy[i] == base[i]
        decreases additional
      {
        copy[copySize] := base[copySize];
        copySize := copySize + 1;
        additional := additional - 1;
        copied := copied + 1;
      }
    }

    /** The copy is complete and takes the place of the buffer. */
    method Switch(ghost items: seq<int>)
      requires base != null && copy != null && size <= maxSize == base.Length && copy.Length == 2 * maxSize
      requires maxSize > 0
      requires copySize == size && base[..size] == items && forall i :: 0 <= i < copySize ==> copy[i] == base[i]
      modifies this
      ensures Valid() && Items() == items && base == old(copy) && copy == null
    {
      base := copy;
      maxSize := maxSize * 2;
      copy := null;
      copySize := 0;
    }

    /** Popping the last item while no copy is being made takes the buffer itself for a finished
        copy and loses it; every other pop is right. */
    method Pop() returns (x: int)
      requires Valid() && size > 0
      modifies this
      ensures x == old(Items()[size - 1])
      ensures Valid() <==> !(old(size) == 1 && old(copy) == null)
      ensures Valid() ==> Items() == old(Items()[..size - 1]) && (base == old(base) || base == old(copy))
      ensures copy == null || copy == old(copy)
      ensures var full := old(copySize) == old(size) - 1;
        && maxSize == (if full then 2 * old(maxSize) else old(maxSize))
        && copySize == (if full then 0 else old(copySize))
        && copy == (if full then null else old(copy)) && base == (if full then old(copy) else old(base))
    {
      size := size - 1;
      x := base[size];
      ghost var items := base[..size];
      assert items == old(Items()[..size - 1]);
      if copySize == size {
        base := copy;
        maxSize := maxSize * 2;
        copy := null;
        copySize := 0;
        assert base != null ==> base[..size] == items;
      }
    }
  }

  datatype Op = PushOp(x: int) | PopOp

  /** The ideal stack after a run; a pop of an empty stack does nothing. */
  function After(ops: seq<Op>): seq<int> {
    if ops == [] then [] else
      var s := After(ops[..|ops| - 1]);
      match ops[|ops| - 1]
      case PushOp(x) => s + [x]
      case PopOp => if s == [] then s else s[..|s| - 1]
  }

  /** No pop of the run empties the stack. */
  predicate Safe(ops: seq<Op>) {
    forall i :: 0 <= i < |ops| && ops[i].PopOp? ==> |After(ops[..i])| > 1
  }

  /** Over every such run, from any initial size, the stack agrees with the ideal one. */
  method RunAll(size: nat, ops: seq<Op>) returns (st: Stack)
    requires size > 0 && Safe(ops)
    ensures fresh(st) && st.Valid() && st.Items() == After(ops)
  {
    st := new Stack(size);
    for i := 0 to |ops|
      invariant fresh(st) && st.Valid() && fresh(st.base) && (st.copy != null ==> fresh(st.copy))
      invariant st.Items() == After(ops[..i])
    {
      assert ops[..i + 1][..i] == ops[..i];
      match ops[i] {
        case PushOp(x) => ghost var _ := st.Push(x);
        case PopOp => var _ := st.Pop();
      }
    }
    assert ops[..|ops|] == ops;
  }
}
