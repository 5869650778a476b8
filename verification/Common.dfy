/** What several of the models use. */
module Common {

  datatype Option<+T> = None | Some(value: T)

  ghost predicate Distinct<X>(xs: seq<X>) {
    forall i, j :: 0 <= i < j < |xs| ==> xs[i] != xs[j]
  }

  // ---------------------------------------------------------------- threads and their memory

  type Tid = nat

  /** Where a node is; 0 is the null handle. */
  type Handle = nat

  /** An atomic word: a handle with a tag against reuse. */
  datatype Tagged = Tagged(ptr: Handle, tag: nat)

  /** Thread `t` goes from status `was` to status `now`, and no other thread moves. */
  ghost predicate Moves<S>(a: map<Tid, S>, t: Tid, was: S, now: S, b: map<Tid, S>) {
    t in a && a[t] == was && b == a[t := now]
  }
}
