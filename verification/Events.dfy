// An event of the pool (struct eval of byedpi/conev.h), as far as the pool looks at it.

module Events {
  import opened Common

  datatype Item = Item(
    fd: int,
    index: int,            // place in links
    modIter: nat,          // iteration of the latest addition or deletion
    tvMs: int,             // deadline, or 0
    tvNext: Option<nat>,
    tvPrev: Option<nat>,
    pair: Option<nat>)

  ghost function Members(s: seq<nat>): set<nat> {
    set x | x in s
  }

  ghost predicate InRange(s: set<nat>, items: seq<Item>) {
    forall e :: e in s ==> e < |items|
  }
}
