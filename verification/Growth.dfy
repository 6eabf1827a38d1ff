// The growable vector: doubling buffers, and what they cost over all pushes.
module Growth {
  class Vec<T(0)> {
    var data: array<T>
    var len: nat
    /** Pushes so far, elements copied by them, and slots taken from the heap for them. */
    ghost var pushes: nat
    ghost var copied: nat
    ghost var slots: nat

    ghost predicate Valid()
      reads this, data
    {
      && len <= data.Length && len <= pushes
      && if data.Length == 0 then copied == slots == pushes == 0
         else
           && data.Length >= 8 && copied + 8 == data.Length && slots + 8 == 2 * data.Length
           && (data.Length == 8 || data.Length < 2 * pushes) && pushes > 0
    }

    ghost function Contents(): seq<T>
      requires len <= data.Length
      reads this, data
    {
      data[..len]
    }

    constructor ()
      ensures Valid() && Contents() == [] && pushes == 0 && fresh(data)
    {
      data := new T[0];
      len, pushes, copied, slots := 0, 0, 0, 0;
    }

    /** All earlier elements stay in order; over all pushes fewer than two elements are copied for
        each, and at most four slots are taken for each, and eight. */
    method Push(x: T)
      requires Valid()
      modifies this, data
      ensures Valid() && Contents() == old(Contents()) + [x] && pushes == old(pushes) + 1
      ensures copied < 2 * pushes && slots <= 4 * pushes + 8
      ensures data == old(data) || fresh(data)
    {
      if len >= data.Length {
        Grow();
      }
      data[len] := x;
      len := len + 1;
      pushes := pushes + 1;
    }

    method Grow()
      requires Valid() && len == data.Length
      modifies this`data, this`copied, this`slots
      ensures fresh(data) && len < data.Length == (if old(data.Length) == 0 then 8 else 2 * old(data.Length))
      ensures Contents() == old(Contents())
      ensures copied == old(copied) + len && slots == old(slots) + data.Length
    {
      var cap := if data.Length > 0 then data.Length * 2 else 8;
      var bigger := new T[cap];
      ghost var before := copied;
      var i := 0;
      while i < len
        invariant i <= len && copied == before + i && slots == old(slots)
        invariant data == old(data) && bigger[..i] == data[..i]
      {
        bigger[i] := data[i];
        copied := copied + 1;
        i := i + 1;
      }
      slots := slots + cap;
      data := bigger;
    }
  }

  /** `n` pushes onto an empty vector. */
  method PushAll<T(0)>(xs: seq<T>) returns (v: Vec<T>)
    ensures fresh(v) && v.Valid() && v.Contents() == xs && v.pushes == |xs|
    ensures xs != [] ==> v.copied < 2 * |xs|
    ensures v.slots <= 4 * |xs| + 8
  {
    v := new Vec();
    var i := 0;
    while i < |xs|
      invariant i <= |xs| && fresh(v) && fresh(v.data) && v.Valid() && v.Contents() == xs[..i] && v.pushes == i
      invariant (i > 0 ==> v.copied < 2 * i) && v.slots <= 4 * i + 8
    {
      v.Push(xs[i]);
      assert xs[..i + 1] == xs[..i] + [xs[i]];
      i := i + 1;
    }
    assert xs[..i] == xs;
  }
}
