/** Small generic vocabulary shared by every component model. */
module Prelude {

  datatype Option<+T> = None | Some(value: T)

  /** An amount that may be absent counts as nothing. */
  function CostOf(c: Option<int>): int {
    if c.Some? then c.value else 0
  }

  /** The elements of a sequence, as a set. */
  function Elements<T>(s: seq<T>): set<T> {
    set x | x in s
  }

  /** Python's `"".join(parts)`, and list concatenation in general. */
  function Concat<T>(parts: seq<seq<T>>): seq<T> {
    if parts == [] then [] else Concat(parts[..|parts| - 1]) + parts[|parts| - 1]
  }

  lemma HeadIsElement<T>(s: seq<T>)
    ensures s != [] ==> s[0] in s
  {
  }

  lemma NoElements<T>(s: seq<T>)
    requires forall x :: x !in s
    ensures s == []
  {
    HeadIsElement(s);
  }

  lemma SliceSnoc<T>(s: seq<T>, lo: nat, hi: nat)
    requires lo <= hi < |s|
    ensures s[lo..hi + 1] == s[lo..hi] + [s[hi]]
  {
  }

  lemma ConcatSnoc<T>(parts: seq<seq<T>>, last: seq<T>)
    ensures Concat(parts + [last]) == Concat(parts) + last
  {
    assert (parts + [last])[..|parts|] == parts;
  }
}
