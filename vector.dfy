/**
 * Vector: the std::vector helpers every codec and edit uses. A vector is a
 * sequence; a raw pointer into element storage is `Some(elements)` (the
 * elements from the pointer on) and the null pointer is `None`.
 */
module Vector {
  import opened Bytes

  /** `Address`: the element storage, or null for an empty vector. */
  function Address<T>(v: seq<T>): (p: Option<seq<T>>)
    ensures p.None? <==> |v| == 0
    ensures p.Some? ==> p.value == v
  {
    if |v| == 0 then None else Some(v)
  }

  /** `Insert(vector, index, x)`: x lands at index, the elements before it
      stay, the elements from index on move up by one. The two-argument form
      is this one with the element type's default value as x. */
  function Insert<T>(v: seq<T>, index: nat, x: T): (r: seq<T>)
    requires index <= |v|
    ensures |r| == |v| + 1 && r[index] == x
    ensures forall i :: 0 <= i < index ==> r[i] == v[i]
    ensures forall i :: index <= i < |v| ==> r[i + 1] == v[i]
  {
    v[..index] + [x] + v[index..]
  }

  /** `Merge(vector, addr, count)`: the count elements at addr are appended
      one at a time. */
  method Merge<T>(v: seq<T>, addr: seq<T>, count: nat) returns (r: seq<T>)
    requires count <= |addr|
    ensures |r| == |v| + count
    ensures r[..|v|] == v
    ensures forall i :: 0 <= i < count ==> r[|v| + i] == addr[i]
  {
    r := v;
    var k := 0;
    while k < count
      invariant 0 <= k <= count
      invariant r == v + addr[..k]
    {
      r := r + [addr[k]];
      k := k + 1;
    }
  }

  /** `Set(vector, addr, sz)`: a null address empties the vector whatever
      sz is; otherwise the vector becomes the sz elements at addr. */
  function Set<T>(addr: Option<seq<T>>, sz: nat): (r: seq<T>)
    requires addr.Some? ==> sz <= |addr.value|
    ensures addr.None? ==> r == []
    ensures addr.Some? ==> |r| == sz && forall i :: 0 <= i < sz ==> r[i] == addr.value[i]
  {
    if addr.None? then [] else addr.value[..sz]
  }
}
