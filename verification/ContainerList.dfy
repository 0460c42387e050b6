/**
  The part of Go's container/list the policies use: a doubly linked list whose elements are
  handles. The links are replaced by the sequence of handles, front to back, so that a list is
  a field of the policy, or a value in its map, that the policy's methods reassign.
 */
module ContainerList {
  import opened Prelude

  /** s without the first occurrence of x. */
  function Without<T(==)>(s: seq<T>, x: T): seq<T> {
    if x in s then var i := IndexOf(s, x); s[..i] + s[i + 1..] else s
  }

  /** Without keeps every other entry, in order. */
  lemma WithoutAt<T>(s: seq<T>, x: T)
    requires x in s
    ensures |Without(s, x)| == |s| - 1
    ensures forall j :: 0 <= j < |s| - 1 ==> Without(s, x)[j] == s[if j < IndexOf(s, x) then j else j + 1]
  {
  }

  lemma WithoutMembers<T>(s: seq<T>, x: T)
    ensures forall y :: y in s && y != x ==> y in Without(s, x)
    ensures forall y :: y in Without(s, x) ==> y in s
  {
    if x in s {
      var i := IndexOf(s, x);
      assert s == s[..i] + [x] + s[i + 1..];
    }
  }

  class Element<T> {
    const Value: T

    constructor (value: T)
      ensures Value == value
    {
      Value := value;
    }
  }
}
