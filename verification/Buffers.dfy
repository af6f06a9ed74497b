/** memory_copy, memory_set and the two growing buffers of the kernel: array_list and string. */
module Buffers {
  import opened Machine

  /**
    Copies upwards, one element after the other. Where the destination lies behind the source in the same
    buffer, elements already overwritten are copied again: the result repeats itself with that distance.
   */
  method MemoryCopy<T>(src: array<T>, s: nat, dst: array<T>, d: nat, count: nat)
    requires s + count <= src.Length && d + count <= dst.Length
    modifies dst
    ensures forall k :: 0 <= k < dst.Length && !(d <= k < d + count) ==> dst[k] == old(dst[k])
    ensures src != dst || d <= s ==> forall k :: d <= k < d + count ==> dst[k] == old(src[k - d + s])
    ensures src == dst && s < d ==> forall k :: d <= k < d + count ==> dst[k] == dst[k - d + s]
  {
    for i := 0 to count
      invariant forall k :: 0 <= k < dst.Length && !(d <= k < d + i) ==> dst[k] == old(dst[k])
      invariant src != dst || d <= s ==> forall k :: d <= k < d + i ==> dst[k] == old(src[k - d + s])
      invariant src == dst && s < d ==> forall k :: d <= k < d + i ==> dst[k] == dst[k - d + s]
    {
      dst[d + i] := src[s + i];
    }
  }

  /** memory_set */
  method MemorySet(ram: array<byte>, p: nat, value: byte, count: nat)
    requires p + count <= ram.Length
    modifies ram
    ensures forall k | 0 <= k < ram.Length :: ram[k] == if p <= k < p + count then value else old(ram[k])
  {
    for i := 0 to count
      invariant forall k | 0 <= k < ram.Length :: ram[k] == if p <= k < p + i then value else old(ram[k])
    {
      ram[p + i] := value;
    }
  }

  /** What a copy within one buffer leaves when the two ranges may overlap. */
  ghost predicate CopiedWithin<T>(old_: seq<T>, new_: seq<T>, s: nat, d: nat, count: nat)
    requires s + count <= |old_| && d + count <= |old_| && |new_| == |old_|
  {
    && (forall k :: 0 <= k < |old_| && !(d <= k < d + count) ==> new_[k] == old_[k])
    && (d <= s ==> forall k :: d <= k < d + count ==> new_[k] == old_[k - d + s])
    && (s < d ==> forall k :: d <= k < d + count ==> new_[k] == new_[k - d + s])
  }

  /** A copy within one buffer moves the range intact exactly when it goes down, or the range was already periodic. */
  lemma {:induction false} CopyIsShift<T>(was: seq<T>, now: seq<T>, s: nat, d: nat, count: nat)
    requires s + count <= |was| && d + count <= |was| && |now| == |was|
    requires CopiedWithin(was, now, s, d, count)
    ensures now[d..d + count] == was[s..s + count] <==>
            d <= s || forall k :: d <= k < s + count ==> was[k] == was[k - d + s]
  {
    if s < d {
      if now[d..d + count] == was[s..s + count] {
        forall k | d <= k < s + count
          ensures was[k] == was[k - d + s]
        {
          assert now[d..d + count][k - d] == was[s..s + count][k - d];
          assert now[d..d + count][k - s] == was[s..s + count][k - s];
          assert now[d + (k - s)] == was[k];
          assert now[d + (k - s)] == now[k];
          assert now[k] == was[k - d + s];
        }
      }
      if forall k :: d <= k < s + count ==> was[k] == was[k - d + s] { PeriodicCopy(was, now, s, d, count); }
    }
  }

  lemma {:induction false} PeriodicCopy<T>(was: seq<T>, now: seq<T>, s: nat, d: nat, count: nat)
    requires s + count <= |was| && d + count <= |was| && |now| == |was| && s < d
    requires CopiedWithin(was, now, s, d, count)
    requires forall k :: d <= k < s + count ==> was[k] == was[k - d + s]
    ensures now[d..d + count] == was[s..s + count]
  {
    var i := 0;
    while i < count
      invariant i <= count && forall k :: d <= k < d + i ==> now[k] == was[k - d + s]
    {
      assert now[d + i] == now[s + i];
      if s + i >= d { assert now[s + i] == was[s + i - d + s] == was[s + i]; }
      i := i + 1;
    }
  }

  /** array_list<T>: elements in data[..size], with room for at least one more at all times. */
  class ArrayList<T(==,0)> {
    var data: array<T>
    var size: nat
    var reserved: nat

    ghost predicate Valid()
      reads this
    {
      size < reserved == data.Length
    }

    ghost function Contents(): seq<T>
      reads this, data
      requires Valid()
    {
      data[..size]
    }

    constructor (reserved: nat := 1)
      requires reserved > 0
      ensures Valid() && fresh(data) && Contents() == []
    {
      data := new T[reserved];
      size, this.reserved := 0, reserved;
    }

    method Add(value: T)
      requires Valid()
      modifies this, data
      ensures Valid() && (data == old(data) || fresh(data))
      ensures Contents() == old(Contents()) + [value]
    {
      ghost var before := Contents();
      data[size] := value;
      size := size + 1;
      assert data[..size] == before + [value];
      if size >= reserved { Grow(); }
    }

    /** The second half of add: twice the room for the same elements. */
    method Grow()
      requires 0 < size == reserved == data.Length
      modifies this`data, this`reserved
      ensures Valid() && fresh(data) && Contents() == old(data[..])
    {
      reserved := reserved * 2;
      var location := new T[reserved];
      MemoryCopy(data, 0, location, 0, size);
      data := location;
    }

    /** Nothing happens when there is no such element. */
    method Remove(i: nat)
      requires Valid()
      modifies this`size, data
      ensures Valid()
      ensures Contents() == if i < old(size) then old(Contents())[..i] + old(Contents())[i + 1..] else old(Contents())
    {
      if i < size {
        MemoryCopy(data, i + 1, data, i, size - i - 1);
        size := size - 1;
      }
    }

    /** The first index of the value, -1 if it is not there. */
    method Find(value: T) returns (i: int)
      requires Valid()
      ensures i == -1 ==> value !in Contents()
      ensures i != -1 ==> 0 <= i < |Contents()| && Contents()[i] == value && value !in Contents()[..i]
    {
      for k := 0 to size
        invariant value !in data[..k]
      {
        if data[k] == value { return k; }
      }
      return -1;
    }

    method Contains(value: T) returns (found: bool)
      requires Valid()
      ensures found <==> value in Contents()
    {
      for k := 0 to size
        invariant value !in data[..k]
      {
        if data[k] == value { return true; }
      }
      return false;
    }
  }

  /** The characters of a C string before its terminator. */
  function CString(s: seq<byte>): (r: seq<byte>)
    requires 0 in s
    ensures r < s && s[|r|] == 0 && 0 !in r
  {
    if s[0] == 0 then [] else [s[0]] + CString(s[1..])
  }

  /** string: its characters in data[..length], followed by a zero. */
  class KString {
    var data: array<byte>
    var length: nat
    var reserved: nat

    ghost predicate Valid()
      reads this, data
    {
      length < reserved == data.Length && data[length] == 0
    }

    ghost function Contents(): seq<byte>
      reads this, data
      requires Valid()
    {
      data[..length]
    }

    constructor ()
      ensures Valid() && fresh(data) && Contents() == []
    {
      data := new byte[1];
      length, reserved := 0, 1;
      new;
      data[0] := 0;
    }

    constructor FromChar(ch: byte)
      ensures Valid() && fresh(data) && Contents() == [ch]
    {
      data := new byte[2];
      length, reserved := 1, 2;
      new;
      data[0], data[1] := ch, 0;
    }

    constructor FromChars(s: seq<byte>)
      requires 0 in s
      ensures Valid() && fresh(data) && Contents() == CString(s)
    {
      data := new byte[1];
      length, reserved := 0, 1;
      new;
      data[0] := 0;
      var i := 0;
      while s[i] != 0
        invariant i <= |CString(s)| && Valid() && fresh(data) && Contents() == s[..i]
        decreases |s| - i
      {
        var one := new KString.FromChar(s[i]);
        Append(one);
        i := i + 1;
      }
      assert i == |CString(s)|;
    }

    constructor Copy(other: KString)
      requires other.Valid()
      ensures Valid() && fresh(data) && Contents() == other.Contents()
    {
      data := new byte[other.length + 1];
      length, reserved := other.length, other.length + 1;
      new;
      MemoryCopy(other.data, 0, data, 0, other.length);
      data[length] := 0;
    }

    /** operator+=; a string may be appended to itself. */
    method Append(other: KString)
      requires Valid() && other.Valid() && (other == this || other.data != data)
      modifies this, data
      ensures Valid() && (data == old(data) || fresh(data))
      ensures Contents() == old(Contents()) + old(other.Contents())
    {
      ghost var back := other.Contents();
      var more := other.length;
      Reserve(length + more);
      assert other.data[..more] == back;
      AppendBytes(other.data, more);
    }

    /**
      The second half of operator+=: count bytes and a terminator behind the text, which may be where they are
      from.
     */
    method AppendBytes(source: array<byte>, count: nat)
      requires Valid() && length + count < reserved && count <= source.Length
      requires source == data ==> count <= length
      modifies this`length, data
      ensures Valid() && Contents() == old(Contents()) + old(source[..count])
    {
      ghost var front, back := data[..length], source[..count];
      var n := length;
      MemoryCopy(source, 0, data, n, count);
      assert data[..n] == front;
      forall k | 0 <= k < count ensures data[n + k] == back[k] {
        assert back[k] == old(source[k]);
        if source == data && 0 < n {
          assert data[n + k] == data[n + k - n + 0] == data[k];
        } else {
          assert data[n + k] == old(source[n + k - n + 0]);
        }
      }
      assert data[n..n + count] == back;
      length := n + count;
      data[length] := 0;
      assert data[..length] == data[..n] + data[n..n + count];
    }

    /** The first half of operator+=: makes room for total characters. */
    method Reserve(total: nat)
      requires Valid() && length <= total
      modifies this`data, this`reserved
      ensures data == old(data) || fresh(data)
      ensures Valid() && total < reserved && Contents() == old(Contents())
    {
      if total >= reserved {
        reserved := total * 2;
        var location := new byte[reserved];
        MemoryCopy(data, 0, location, 0, length);
        location[length] := 0;
        data := location;
      }
    }

    method PopChar() returns (ch: byte)
      requires Valid() && length > 0
      modifies this`length, data
      ensures Valid() && old(Contents()) == Contents() + [ch]
    {
      length := length - 1;
      ch := data[length];
      data[length] := 0;
    }

    /** Despite its name it takes the first character out. */
    method PeekChar() returns (ch: byte)
      requires Valid() && length > 0
      modifies this`length, data
      ensures Valid() && old(Contents()) == [ch] + Contents()
    {
      ghost var text := Contents();
      ch := data[0];
      assert text == [ch] + text[1..];
      MemoryCopy(data, 1, data, 0, length);
      length := length - 1;
      forall k | 0 <= k < length ensures data[k] == text[1..][k] {
        assert data[k] == old(data[k - 0 + 1]);
      }
      assert data[..length] == text[1..];
    }
  }
}
