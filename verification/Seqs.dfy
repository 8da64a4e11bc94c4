/** Concatenation of a list of lists, shared by the models below. */
module Seqs {

  function Flatten<T>(parts: seq<seq<T>>): (r: seq<T>)
  {
    if parts == [] then [] else parts[0] + Flatten(parts[1..])
  }

  lemma TakeSnoc<T>(s: seq<T>, i: nat)
    requires i < |s|
    ensures s[..i + 1] == s[..i] + [s[i]]
  {
  }

  lemma {:induction false} FlattenAppend<T>(a: seq<seq<T>>, b: seq<seq<T>>)
    ensures Flatten(a + b) == Flatten(a) + Flatten(b)
  {
    if a == [] {
      assert a + b == b;
    } else {
      assert (a + b)[1..] == a[1..] + b;
      FlattenAppend(a[1..], b);
    }
  }

  lemma FlattenSnoc<T>(a: seq<seq<T>>, x: seq<T>)
    ensures Flatten(a + [x]) == Flatten(a) + x
  {
    FlattenAppend(a, [x]);
    assert Flatten([x]) == x + Flatten<T>([]);
  }

  /** Where part k begins inside the concatenation. */
  function Start<T>(parts: seq<seq<T>>, k: nat): nat
    requires k <= |parts|
  {
    |Flatten(parts[..k])|
  }

  lemma {:induction false} StartStep<T>(parts: seq<seq<T>>, k: nat)
    requires k < |parts|
    ensures Start(parts, k + 1) == Start(parts, k) + |parts[k]|
    ensures Start(parts, k + 1) <= |Flatten(parts)|
    ensures Flatten(parts)[Start(parts, k)..Start(parts, k + 1)] == parts[k]
  {
    assert parts[..k + 1] == parts[..k] + [parts[k]];
    FlattenSnoc(parts[..k], parts[k]);
    assert parts == parts[..k + 1] + parts[k + 1..];
    FlattenAppend(parts[..k + 1], parts[k + 1..]);
  }

  /** `w` stands in `s` at position `at`. */
  predicate Occurs<T(==)>(s: seq<T>, w: seq<T>, at: nat)
  {
    at + |w| <= |s| && s[at..at + |w|] == w
  }

  predicate Contains<T(==)>(s: seq<T>, w: seq<T>)
  {
    exists at | 0 <= at <= |s| :: Occurs(s, w, at)
  }
}
