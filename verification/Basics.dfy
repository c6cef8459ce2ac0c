/** Small vocabulary shared by the models. */
module Basics {

  type Byte = b: int | 0 <= b < 256
  type Bytes = seq<Byte>

  type Name = string

  datatype Option<T> = None | Some(value: T)

  function Pow2(k: nat): (r: nat)
    ensures r > 0
  {
    if k == 0 then 1 else 2 * Pow2(k - 1)
  }

  lemma {:induction false} SubsetSize<T>(a: set<T>, b: set<T>)
    requires a <= b
    ensures |a| <= |b|
  {
    if a != {} {
      var x :| x in a;
      SubsetSize(a - {x}, b - {x});
    }
  }

  // ------------------------------------------------------------- listings

  /** A directory listing, in whatever order the system returns it. */
  type Lister = set<Name> -> seq<Name>

  ghost predicate IsListing(names: seq<Name>, s: set<Name>) {
    && (forall n :: n in names <==> n in s)
    && (forall i, j | 0 <= i < j < |names| :: names[i] != names[j])
  }

  ghost predicate Lists(ls: Lister) {
    forall s: set<Name> :: IsListing(ls(s), s)
  }

  /** The elements of a set in some order. */
  ghost function Enumerated<T(!new)>(s: set<T>): (r: seq<T>)
    ensures multiset(r) == multiset(s)
    ensures forall x :: x in r <==> x in s
    ensures forall i, j | 0 <= i < j < |r| :: r[i] != r[j]
  {
    if s == {} then []
    else var x :| x in s; Enumerated(s - {x}) + [x]
  }

  /** There are listings. */
  lemma ListersExist()
    ensures Lists((s: set<Name>) => Enumerated(s))
  {
  }
}
