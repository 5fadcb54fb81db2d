// The search tree of byedpi/kavl.h on values, and what it means as a set of keys.
//
// The vendored kavl.h never rotates, so this is a plain search tree.  Its comparator calls
// prefix-related keys equal; the theorems here say that the tree nevertheless behaves like a
// set in which no two keys are related.

module SearchTree {
  import opened Common
  import opened PrefixOrder

  datatype Tree<T> = Nil | Node(left: Tree<T>, elem: T, right: Tree<T>)

  function Size<T>(t: Tree<T>): nat {
    match t
    case Nil => 0
    case Node(l, _, r) => Size(l) + 1 + Size(r)
  }

  function Height<T>(t: Tree<T>): nat {
    match t
    case Nil => 0
    case Node(l, _, r) => 1 + Max(Height(l), Height(r))
  }

  ghost function Elems<T>(t: Tree<T>): set<T> {
    match t
    case Nil => {}
    case Node(l, e, r) => Elems(l) + {e} + Elems(r)
  }

  ghost predicate AllBacked(kind: Kind, t: Tree<Key>) {
    forall k :: k in Elems(t) ==> Backed(kind, k)
  }

  // kavl_find
  ghost function Find(kind: Kind, t: Tree<Key>, q: Key): Option<Key>
    requires AllBacked(kind, t) && Backed(kind, q)
  {
    match t
    case Nil => None
    case Node(l, e, r) =>
      assert e in Elems(t);
      var c := Compare(kind, q, e);
      if c == 0 then Some(e) else if c < 0 then Find(kind, l, q) else Find(kind, r, q)
  }

  // kavl_insert, when nothing on the way compares equal.
  ghost function Insert(kind: Kind, t: Tree<Key>, k: Key): Tree<Key>
    requires AllBacked(kind, t) && Backed(kind, k)
  {
    match t
    case Nil => Node(Nil, k, Nil)
    case Node(l, e, r) =>
      assert e in Elems(t);
      var c := Compare(kind, k, e);
      if c == 0 then t else if c < 0 then Node(Insert(kind, l, k), e, r) else Node(l, e, Insert(kind, r, k))
  }

  // The smallest element, and the tree without it.
  function Least<T>(t: Tree<T>): T
    requires t.Node?
  {
    if t.left.Nil? then t.elem else Least(t.left)
  }

  function WithoutLeast<T>(t: Tree<T>): Tree<T>
    requires t.Node?
  {
    if t.left.Nil? then t.right else Node(WithoutLeast(t.left), t.elem, t.right)
  }

  // What takes the place of a removed node.
  function Merged<T>(l: Tree<T>, r: Tree<T>): Tree<T> {
    if r.Nil? then l else Node(l, Least(r), WithoutLeast(r))
  }

  // kavl_erase
  ghost function Erase(kind: Kind, t: Tree<Key>, q: Key): Tree<Key>
    requires AllBacked(kind, t) && Backed(kind, q)
  {
    match t
    case Nil => Nil
    case Node(l, e, r) =>
      assert e in Elems(t);
      var c := Compare(kind, q, e);
      if c == 0 then Merged(l, r)
      else if c < 0 then Node(Erase(kind, l, q), e, r)
      else Node(l, e, Erase(kind, r, q))
  }

  // ---------------------------------------------------------------------------------------
  // Order
  // ---------------------------------------------------------------------------------------

  // In the total order behind the comparator.
  ghost predicate Before(kind: Kind, a: Key, b: Key) {
    Backed(kind, a) && Backed(kind, b) && Rank(kind, a, b) < 0
  }

  // As the comparator sees it.
  ghost predicate Below(kind: Kind, a: Key, b: Key) {
    Backed(kind, a) && Backed(kind, b) && Compare(kind, a, b) < 0
  }

  // A search tree for the total order.  The operations keep it whatever the keys are.
  ghost predicate Sorted(kind: Kind, t: Tree<Key>) {
    match t
    case Nil => true
    case Node(l, e, r) =>
      && Sorted(kind, l) && Sorted(kind, r)
      && (forall x :: x in Elems(l) ==> Before(kind, x, e))
      && (forall x :: x in Elems(r) ==> Before(kind, e, x))
  }

  lemma BeforeTransitive(kind: Kind, a: Key, b: Key, c: Key)
    requires Before(kind, a, b) && Before(kind, b, c)
    ensures Before(kind, a, c)
  {
    LexTransitive(Spine(kind, a), Spine(kind, b), Spine(kind, c));
  }

  lemma BeforeNotAfter(kind: Kind, a: Key, b: Key)
    requires Before(kind, a, b)
    ensures !Before(kind, b, a) && a != b
  {
    LexFlips(Spine(kind, a), Spine(kind, b));
  }

  lemma CompareFlips(kind: Kind, a: Key, b: Key)
    requires Backed(kind, a) && Backed(kind, b)
    ensures Compare(kind, a, b) == -Compare(kind, b, a)
    ensures Compare(kind, a, b) < 0 ==> Before(kind, a, b)
    ensures Compare(kind, a, b) > 0 ==> Before(kind, b, a)
  {
    ComparesByRank(kind, a, b);
    ComparesByRank(kind, b, a);
    LexFlips(Spine(kind, a), Spine(kind, b));
  }

  // What stands before a key compares below it, unless the two compare equal.
  lemma BeforeIsBelow(kind: Kind, a: Key, b: Key)
    requires Before(kind, a, b) && Compare(kind, a, b) != 0
    ensures Below(kind, a, b)
  {
    ComparesByRank(kind, a, b);
  }

  // The keys that compare equal are those whose codes are prefixes of one another, and the
  // shorter one is the prefix.
  lemma EqualMeansRelated(kind: Kind, a: Key, b: Key)
    requires Backed(kind, a) && Backed(kind, b)
    ensures Compare(kind, a, b) == 0 <==> Related(Code(kind, a), Code(kind, b))
    ensures Compare(kind, a, b) == 0 && a.len <= b.len ==> Code(kind, a) <= Code(kind, b)
    ensures Code(kind, a) <= Code(kind, b) ==> a.len <= b.len
  {
    ComparesByRank(kind, a, b);
    if Lex(Spine(kind, a), Spine(kind, b)) == 0 {
      LexZero(Spine(kind, a), Spine(kind, b));
    }
    if kind == Bytes { assert Code(kind, a)[0] == a.len && Code(kind, b)[0] == b.len; }
  }

  lemma {:induction false} LexZero(a: seq<nat>, b: seq<nat>)
    requires Lex(a, b) == 0
    ensures a == b
  {
    if a != [] {
      LexZero(a[1..], b[1..]);
      assert a == [a[0]] + a[1..] && b == [b[0]] + b[1..];
    }
  }

  // ---------------------------------------------------------------------------------------
  // The tree, whatever its keys are
  // ---------------------------------------------------------------------------------------

  // What a lookup finds compares equal to what is looked up.
  lemma {:induction false} FindIs(kind: Kind, t: Tree<Key>, q: Key)
    requires AllBacked(kind, t) && Backed(kind, q) && Find(kind, t, q).Some?
    ensures Find(kind, t, q).value in Elems(t) && Compare(kind, q, Find(kind, t, q).value) == 0
  {
    var (l, e, r) := (t.left, t.elem, t.right);
    assert e in Elems(t);
    var c := Compare(kind, q, e);
    if c < 0 { FindIs(kind, l, q); } else if c > 0 { FindIs(kind, r, q); }
  }

  // Looking a stored key up always finds something.
  lemma {:induction false} FindStored(kind: Kind, t: Tree<Key>, v: Key)
    requires AllBacked(kind, t) && Sorted(kind, t) && v in Elems(t)
    ensures Find(kind, t, v).Some?
  {
    var (l, e, r) := (t.left, t.elem, t.right);
    assert e in Elems(t);
    CompareFlips(kind, v, e);
    if v in Elems(l) { BeforeNotAfter(kind, v, e); }
    if v in Elems(r) { BeforeNotAfter(kind, e, v); }
    if Compare(kind, v, e) < 0 {
      if v !in Elems(l) { BeforeNotAfter(kind, v, e); }
      FindStored(kind, l, v);
    } else if Compare(kind, v, e) > 0 {
      if v !in Elems(r) { BeforeNotAfter(kind, e, v); }
      FindStored(kind, r, v);
    }
  }

  lemma {:induction false} InsertInserts(kind: Kind, t: Tree<Key>, k: Key)
    requires AllBacked(kind, t) && Sorted(kind, t) && Backed(kind, k) && Find(kind, t, k).None?
    ensures Elems(Insert(kind, t, k)) == Elems(t) + {k}
    ensures Sorted(kind, Insert(kind, t, k))
    ensures Size(Insert(kind, t, k)) == Size(t) + 1
  {
    hide Compare, Rank;
    match t
    case Nil =>
    case Node(l, e, r) =>
      assert e in Elems(t);
      CompareFlips(kind, k, e);
      if Compare(kind, k, e) < 0 { InsertInserts(kind, l, k); } else { InsertInserts(kind, r, k); }
  }

  lemma {:induction false} LeastIsLeast(kind: Kind, t: Tree<Key>)
    requires AllBacked(kind, t) && Sorted(kind, t) && t.Node?
    ensures Elems(t) == Elems(WithoutLeast(t)) + {Least(t)} && Least(t) !in Elems(WithoutLeast(t))
    ensures Sorted(kind, WithoutLeast(t))
    ensures forall x :: x in Elems(WithoutLeast(t)) ==> Before(kind, Least(t), x)
  {
    hide Rank;
    if t.left.Node? {
      LeastIsLeast(kind, t.left);
      var m := Least(t.left);
      forall x | x in Elems(t.right) ensures Before(kind, m, x) { BeforeTransitive(kind, m, t.elem, x); }
      if m in Elems(t.right) { BeforeNotAfter(kind, m, m); }
      if m == t.elem { BeforeNotAfter(kind, m, m); }
    } else {
      if t.elem in Elems(t.right) { BeforeNotAfter(kind, t.elem, t.elem); }
    }
  }

  lemma MergedIs(kind: Kind, t: Tree<Key>)
    requires AllBacked(kind, t) && Sorted(kind, t) && t.Node?
    ensures Elems(Merged(t.left, t.right)) == Elems(t) - {t.elem}
    ensures Sorted(kind, Merged(t.left, t.right))
  {
    hide Compare, Rank;
    var l, e, r := t.left, t.elem, t.right;
    NotBoth(kind, t);
    if r.Node? {
      LeastIsLeast(kind, r);
      forall x | x in Elems(l) ensures Before(kind, x, Least(r)) { BeforeTransitive(kind, x, e, Least(r)); }
    }
  }

  // Erasing takes out the key that a lookup finds, and nothing else.
  lemma {:induction false} EraseErases(kind: Kind, t: Tree<Key>, q: Key)
    requires AllBacked(kind, t) && Sorted(kind, t) && Backed(kind, q)
    ensures var f := Find(kind, t, q);
      Elems(Erase(kind, t, q)) == if f.Some? then Elems(t) - {f.value} else Elems(t)
    ensures Sorted(kind, Erase(kind, t, q))
  {
    hide Compare, Rank;
    match t
    case Nil =>
    case Node(l, e, r) =>
      assert e in Elems(t);
      var c := Compare(kind, q, e);
      if c == 0 {
        MergedIs(kind, t);
      } else if c < 0 {
        if Find(kind, l, q).Some? { FindIs(kind, l, q); }
        EraseErases(kind, l, q);
        NotBoth(kind, t);
      } else {
        if Find(kind, r, q).Some? { FindIs(kind, r, q); }
        EraseErases(kind, r, q);
        NotBoth(kind, t);
      }
  }

  lemma NotBoth(kind: Kind, t: Tree<Key>)
    requires AllBacked(kind, t) && Sorted(kind, t) && t.Node?
    ensures t.elem !in Elems(t.left) && t.elem !in Elems(t.right) && Elems(t.left) !! Elems(t.right)
  {
    hide Rank;
    if t.elem in Elems(t.left) || t.elem in Elems(t.right) { BeforeNotAfter(kind, t.elem, t.elem); }
    forall x | x in Elems(t.left) && x in Elems(t.right) ensures false {
      BeforeNotAfter(kind, x, t.elem);
    }
  }

  // Sizes and heights, for any tree whatever its order.
  lemma {:induction false} LeastSize<T>(t: Tree<T>)
    requires t.Node?
    ensures Size(WithoutLeast(t)) == Size(t) - 1 && Height(WithoutLeast(t)) <= Height(t)
    ensures Least(t) in Elems(t) && Elems(WithoutLeast(t)) <= Elems(t)
  {
    if t.left.Node? { LeastSize(t.left); }
  }

  lemma {:induction false} EraseElems(kind: Kind, t: Tree<Key>, q: Key)
    requires AllBacked(kind, t) && Backed(kind, q)
    ensures Elems(Erase(kind, t, q)) <= Elems(t)
  {
    hide Compare;
    match t
    case Nil =>
    case Node(l, e, r) =>
      EraseElems(kind, l, q);
      EraseElems(kind, r, q);
      if r.Node? { LeastSize(r); }
  }

  lemma {:induction false} EraseHeight(kind: Kind, t: Tree<Key>, q: Key)
    requires AllBacked(kind, t) && Backed(kind, q)
    ensures Height(Erase(kind, t, q)) <= Height(t)
  {
    hide Compare;
    match t
    case Nil =>
    case Node(l, e, r) =>
      EraseHeight(kind, l, q);
      EraseHeight(kind, r, q);
      if r.Node? { LeastSize(r); }
  }

  lemma {:induction false} EraseSize(kind: Kind, t: Tree<Key>, q: Key)
    requires AllBacked(kind, t) && Backed(kind, q)
    ensures Size(Erase(kind, t, q)) == if Find(kind, t, q).Some? then Size(t) - 1 else Size(t)
    ensures Height(Erase(kind, t, q)) <= Height(t)
    ensures Elems(Erase(kind, t, q)) <= Elems(t)
  {
    EraseElems(kind, t, q);
    EraseHeight(kind, t, q);
    hide Compare, Elems;
    match t
    case Nil =>
    case Node(l, e, r) =>
      EraseSize(kind, l, q);
      EraseSize(kind, r, q);
      if r.Node? { LeastSize(r); }
  }

  // ---------------------------------------------------------------------------------------
  // mem_add
  // ---------------------------------------------------------------------------------------

  // The loop of mem_add: the tree it leaves and the key it returns.
  ghost function Add(kind: Kind, t: Tree<Key>, k: Key): (Tree<Key>, Key)
    requires AllBacked(kind, t) && Sorted(kind, t) && Backed(kind, k)
    decreases Size(t)
  {
    var v := Find(kind, t, k);
    if v.None? then (Insert(kind, t, k), k)
    else if k.len < v.value.len then
      AddStep(kind, t, k);
      Add(kind, Erase(kind, t, v.value), k)
    else (t, v.value)
  }

  // One pass of the loop of mem_add: looking a stored key up finds a stored key, perhaps another
  // one, so erasing what it finds shrinks the tree.
  lemma AddStep(kind: Kind, t: Tree<Key>, k: Key)
    requires AllBacked(kind, t) && Sorted(kind, t) && Backed(kind, k) && Find(kind, t, k).Some?
    ensures var v := Find(kind, t, k).value;
      && Backed(kind, v) && v in Elems(t) && Compare(kind, k, v) == 0
      && var f := Find(kind, t, v);
      && f.Some? && f.value in Elems(t) && Compare(kind, v, f.value) == 0
      && AllBacked(kind, Erase(kind, t, v)) && Sorted(kind, Erase(kind, t, v))
      && Size(Erase(kind, t, v)) == Size(t) - 1
      && Elems(Erase(kind, t, v)) == Elems(t) - {f.value}
  {
    hide Compare, Rank;
    FindIs(kind, t, k);
    var v := Find(kind, t, k).value;
    FindStored(kind, t, v);
    FindIs(kind, t, v);
    EraseErases(kind, t, v);
    EraseSize(kind, t, v);
  }

  // mem_add keeps the search tree, and what it returns is stored; nothing else comes in.
  lemma {:induction false} AddKeepsOrder(kind: Kind, t: Tree<Key>, k: Key)
    requires AllBacked(kind, t) && Sorted(kind, t) && Backed(kind, k)
    ensures var (u, v) := Add(kind, t, k);
      Sorted(kind, u) && AllBacked(kind, u) && v in Elems(u) && Elems(u) <= Elems(t) + {k}
    decreases Size(t)
  {
    hide Compare, Rank;
    var v := Find(kind, t, k);
    if v.None? {
      InsertInserts(kind, t, k);
    } else if k.len < v.value.len {
      AddStep(kind, t, k);
      AddKeepsOrder(kind, Erase(kind, t, v.value), k);
    } else {
      FindIs(kind, t, k);
    }
  }

  lemma {:induction false} SizeIsCardinality(kind: Kind, t: Tree<Key>)
    requires AllBacked(kind, t) && Sorted(kind, t)
    ensures Size(t) == |Elems(t)|
  {
    match t
    case Nil =>
    case Node(l, e, r) =>
      SizeIsCardinality(kind, l);
      SizeIsCardinality(kind, r);
      NotBoth(kind, t);
  }

  // ---------------------------------------------------------------------------------------
  // Every run of the index
  // ---------------------------------------------------------------------------------------

  datatype Op = AddKey(key: Key) | DeleteKey(key: Key)  // mem_add, mem_delete

  ghost predicate BackedOps(kind: Kind, ops: seq<Op>) {
    forall i :: 0 <= i < |ops| ==> Backed(kind, ops[i].key)
  }

  // The tree after the operations, latest last.
  ghost function After(kind: Kind, ops: seq<Op>): (t: Tree<Key>)
    requires BackedOps(kind, ops)
    ensures AllBacked(kind, t) && Sorted(kind, t)
  {
    if ops == [] then Nil
    else
      var t := After(kind, ops[..|ops| - 1]);
      match ops[|ops| - 1]
      case AddKey(k) => AddKeepsOrder(kind, t, k); Add(kind, t, k).0
      case DeleteKey(k) =>
        EraseErases(kind, t, k);
        EraseSize(kind, t, k);
        Erase(kind, t, k)
  }

  // ---------------------------------------------------------------------------------------
  // The tree as a set
  // ---------------------------------------------------------------------------------------

  // No two keys of the set are related.
  ghost predicate PrefixFree(kind: Kind, s: set<Key>) {
    forall a, b :: a in s && b in s && a != b ==>
      Backed(kind, a) && Backed(kind, b) && Compare(kind, a, b) != 0
  }

  // No key of `u` sorts between two related ones.
  ghost predicate Coherent(kind: Kind, u: iset<Key>) {
    && (forall k :: k in u ==> Backed(kind, k))
    && forall x, y, z :: x in u && y in u && z in u && Below(kind, x, y) && Below(kind, y, z) ==>
      Compare(kind, x, z) != 0
  }

  // A search tree over such keys, of which no two are related.
  ghost predicate Indexes(kind: Kind, u: iset<Key>, t: Tree<Key>) {
    && Coherent(kind, u) && Sorted(kind, t) && PrefixFree(kind, Elems(t))
    && AllBacked(kind, t) && forall k :: k in Elems(t) ==> k in u
  }

  // A lookup succeeds exactly when some stored key is related to the one looked up, and then
  // yields such a key.
  lemma FindFinds(kind: Kind, u: iset<Key>, t: Tree<Key>, q: Key)
    requires Indexes(kind, u, t) && q in u
    ensures Find(kind, t, q).Some? <==> exists k :: k in Elems(t) && Compare(kind, q, k) == 0
    ensures Find(kind, t, q).Some? ==>
      Find(kind, t, q).value in Elems(t) && Compare(kind, q, Find(kind, t, q).value) == 0
  {
    hide Compare, Rank, Find, Sorted, Elems;
    if Find(kind, t, q).Some? { FindIs(kind, t, q); }
    forall k | k in Elems(t) && Compare(kind, q, k) == 0 ensures Find(kind, t, q).Some? {
      FindRelated(kind, u, t, q, k);
    }
  }

  // The walk for `q` does not go past a key related to it.
  lemma {:induction false} FindRelated(kind: Kind, u: iset<Key>, t: Tree<Key>, q: Key, k: Key)
    requires Indexes(kind, u, t) && q in u && k in Elems(t) && Compare(kind, q, k) == 0
    ensures Find(kind, t, q).Some?
  {
    hide Compare, Rank;
    var e := t.elem;
    assert e in Elems(t);
    NotBoth(kind, t);
    var c := Compare(kind, q, e);
    if c < 0 {
      if k in Elems(t.right) { RelatedGoLeft(kind, u, q, e, k); }
      IndexesParts(kind, u, t);
      FindRelated(kind, u, t.left, q, k);
    } else if c > 0 {
      if k in Elems(t.left) { RelatedGoRight(kind, u, q, e, k); }
      IndexesParts(kind, u, t);
      FindRelated(kind, u, t.right, q, k);
    }
  }

  lemma IndexesParts(kind: Kind, u: iset<Key>, t: Tree<Key>)
    requires Indexes(kind, u, t) && t.Node?
    ensures Indexes(kind, u, t.left) && Indexes(kind, u, t.right)
  {
    hide Compare, Coherent, PrefixFree, Rank;
    assert Elems(t.left) <= Elems(t) && Elems(t.right) <= Elems(t);
    PrefixFreeSubset(kind, Elems(t.left), Elems(t));
    PrefixFreeSubset(kind, Elems(t.right), Elems(t));
  }

  lemma PrefixFreeSubset(kind: Kind, a: set<Key>, b: set<Key>)
    requires PrefixFree(kind, b) && a <= b
    ensures PrefixFree(kind, a)
  {
    hide Compare;
  }

  lemma RelatedGoLeft(kind: Kind, u: iset<Key>, q: Key, e: Key, k: Key)
    requires Coherent(kind, u) && q in u && e in u && k in u && Below(kind, q, e)
    requires Before(kind, e, k) && Compare(kind, e, k) != 0
    ensures Compare(kind, q, k) != 0
  {
    hide Compare, Rank;
    BeforeIsBelow(kind, e, k);
  }

  lemma RelatedGoRight(kind: Kind, u: iset<Key>, q: Key, e: Key, k: Key)
    requires Coherent(kind, u) && q in u && e in u && k in u && Backed(kind, q) && Backed(kind, e)
    requires Compare(kind, q, e) > 0 && Before(kind, k, e) && Compare(kind, k, e) != 0
    ensures Compare(kind, q, k) != 0
  {
    hide Compare, Rank;
    BeforeIsBelow(kind, k, e);
    CompareFlips(kind, q, e);
    CompareFlips(kind, q, k);
  }

  lemma CoherentBacked(kind: Kind, u: iset<Key>, k: Key)
    requires Coherent(kind, u) && k in u
    ensures Backed(kind, k)
  {
  }

  // A stored key that is a prefix of `k` is the only stored key related to it.
  lemma PrefixIsAlone(kind: Kind, s: set<Key>, v: Key, k: Key, y: Key)
    requires PrefixFree(kind, s) && Backed(kind, k)
    requires v in s && y in s && Backed(kind, v) && Backed(kind, y)
    requires Compare(kind, k, v) == 0 && v.len <= k.len && Compare(kind, k, y) == 0
    ensures y == v
  {
    hide Compare;
    EqualMeansRelated(kind, v, k);
    EqualMeansRelated(kind, k, v);
    CompareFlips(kind, v, k);
    EqualMeansRelated(kind, k, y);
    EqualMeansRelated(kind, v, y);
    PrefixesOfOne(Code(kind, v), Code(kind, y), Code(kind, k));
  }

  lemma PrefixesOfOne(a: seq<nat>, b: seq<nat>, c: seq<nat>)
    requires a <= c && Related(b, c)
    ensures Related(a, b)
  {
    if c <= b { assert a <= b; } else if |a| <= |b| { assert a <= b; } else { assert b <= a; }
  }

  // The stored keys related to `k`.
  ghost function RelatedTo(kind: Kind, s: set<Key>, k: Key): set<Key>
    requires Backed(kind, k) && forall x :: x in s ==> Backed(kind, x)
  {
    set x | x in s && Compare(kind, k, x) == 0
  }

  // Some stored key is an equal or shorter prefix of `k`.
  ghost predicate HasPrefix(kind: Kind, s: set<Key>, k: Key)
    requires Backed(kind, k) && forall x :: x in s ==> Backed(kind, x)
  {
    exists y :: y in RelatedTo(kind, s, k) && y.len <= k.len
  }

  // mem_add, when a stored key is an equal or shorter prefix of `k`: it is returned, it is the
  // only stored key related to `k`, and nothing changes.
  lemma AddKeeps(kind: Kind, u: iset<Key>, t: Tree<Key>, k: Key)
    requires Indexes(kind, u, t) && k in u
    requires HasPrefix(kind, Elems(t), k)
    ensures var (w, v) := Add(kind, t, k);
      w == t && RelatedTo(kind, Elems(t), k) == {v} && v.len <= k.len
  {
    hide Compare, Code, Rank;
    FindFinds(kind, u, t, k);
    var y :| y in RelatedTo(kind, Elems(t), k) && y.len <= k.len;
    var v := Find(kind, t, k).value;
    forall x | x in RelatedTo(kind, Elems(t), k) ensures x == y {
      PrefixIsAlone(kind, Elems(t), y, k, x);
    }
    assert v in RelatedTo(kind, Elems(t), k);
  }

  // Otherwise exactly the strict extensions of `k` go, and `k` comes.
  lemma {:induction false} AddReplaces(kind: Kind, u: iset<Key>, t: Tree<Key>, k: Key)
    requires Indexes(kind, u, t) && k in u
    requires !HasPrefix(kind, Elems(t), k)
    ensures var (w, v) := Add(kind, t, k);
      && v == k && Indexes(kind, u, w)
      && Elems(w) == (Elems(t) - RelatedTo(kind, Elems(t), k)) + {k}
    decreases Size(t)
  {
    hide Compare, Code, Rank, Coherent, Find, Sorted, PrefixFree, Insert, Erase, Elems, Size;
    CoherentBacked(kind, u, k);
    FindFinds(kind, u, t, k);
    AddKeepsOrder(kind, t, k);
    if Find(kind, t, k).None? {
      InsertInserts(kind, t, k);
      assert RelatedTo(kind, Elems(t), k) == {};
      StaysPrefixFree(kind, Elems(t), k);
    } else {
      AddStep(kind, t, k);
      var v := Find(kind, t, k).value;
      var w := Erase(kind, t, v);
      FindsItself(kind, u, t, v);
      assert v in RelatedTo(kind, Elems(t), k);
      assert RelatedTo(kind, Elems(w), k) == RelatedTo(kind, Elems(t), k) - {v};
      PrefixFreeSubset(kind, Elems(w), Elems(t));
      AddReplaces(kind, u, w, k);
    }
  }

  // In a prefix-free tree the lookup of a stored key finds that key.
  lemma FindsItself(kind: Kind, u: iset<Key>, t: Tree<Key>, v: Key)
    requires Indexes(kind, u, t) && v in Elems(t)
    ensures Find(kind, t, v) == Some(v)
  {
    hide Compare, Coherent, Find, Sorted, Elems;
    FindStored(kind, t, v);
    FindIs(kind, t, v);
  }

  // Storing a key that is related to none keeps the set prefix-free.
  lemma StaysPrefixFree(kind: Kind, s: set<Key>, k: Key)
    requires PrefixFree(kind, s) && Backed(kind, k)
    requires forall x :: x in s ==> Backed(kind, x) && Compare(kind, k, x) != 0
    ensures PrefixFree(kind, s + {k})
  {
    hide Compare, Rank;
    forall a, b | a in s + {k} && b in s + {k} && a != b ensures Compare(kind, a, b) != 0 {
      CompareFlips(kind, a, b);
    }
  }

  // After mem_add what it has returned is what a lookup finds.
  lemma AddIndexes(kind: Kind, u: iset<Key>, t: Tree<Key>, k: Key)
    requires Indexes(kind, u, t) && k in u
    ensures var (w, v) := Add(kind, t, k); Indexes(kind, u, w) && Find(kind, w, k) == Some(v)
  {
    hide Compare, Rank, Coherent;
    CoherentBacked(kind, u, k);
    AddKeepsOrder(kind, t, k);
    var (w, v) := Add(kind, t, k);
    FindFinds(kind, u, t, k);
    if HasPrefix(kind, Elems(t), k) {
      AddKeeps(kind, u, t, k);
      assert v in RelatedTo(kind, Elems(t), k);
      assert Find(kind, t, k).value in RelatedTo(kind, Elems(t), k);
    } else {
      AddReplaces(kind, u, t, k);
      FindFinds(kind, u, w, k);
      CompareFlips(kind, k, k);
    }
  }

  // The operations are about keys of `u`.
  ghost predicate OpsOver(u: iset<Key>, ops: seq<Op>) {
    forall i :: 0 <= i < |ops| ==> ops[i].key in u
  }

  lemma {:induction false} AfterIndexes(kind: Kind, u: iset<Key>, ops: seq<Op>)
    requires Coherent(kind, u) && OpsOver(u, ops)
    ensures BackedOps(kind, ops) && Indexes(kind, u, After(kind, ops))
    decreases |ops|
  {
    hide Compare, Rank;
    if ops != [] {
      var front, k := ops[..|ops| - 1], ops[|ops| - 1].key;
      AfterIndexes(kind, u, front);
      AddIndexes(kind, u, After(kind, front), k);
      EraseErases(kind, After(kind, front), k);
    }
  }

  // After any additions and deletions of keys none of which sorts between two related ones, the
  // stored keys are prefix-free, as many as the tree has nodes, and a lookup succeeds exactly when a
  // stored key's code is a prefix of the code looked up or extends it.
  lemma IndexIsASet(kind: Kind, u: iset<Key>, ops: seq<Op>, q: Key)
    requires Coherent(kind, u) && OpsOver(u, ops) && q in u && BackedOps(kind, ops)
    ensures var t := After(kind, ops);
      && PrefixFree(kind, Elems(t)) && Size(t) == |Elems(t)|
      && (Find(kind, t, q).Some? <==>
            exists k :: k in Elems(t) && Related(Code(kind, q), Code(kind, k)))
  {
    hide Code, Compare, Rank;
    var t := After(kind, ops);
    AfterIndexes(kind, u, ops);
    SizeIsCardinality(kind, t);
    FindFinds(kind, u, t, q);
    forall k | k in Elems(t)
      ensures Compare(kind, q, k) == 0 <==> Related(Code(kind, q), Code(kind, k))
    {
      EqualMeansRelated(kind, q, k);
    }
  }

  // After these operations no two stored keys are related, and the query is answered as the set of
  // stored keys would answer it.
  ghost predicate Serves(kind: Kind, ops: seq<Op>, q: Key)
    requires BackedOps(kind, ops) && Backed(kind, q)
  {
    var t := After(kind, ops);
    && PrefixFree(kind, Elems(t))
    && (Find(kind, t, q).Some? <==> exists k :: k in Elems(t) && Compare(kind, q, k) == 0)
  }

  // The index serves every sequence of operations and every query over `u` if and only if no key of
  // `u` sorts between two related ones.
  lemma IndexServesExactly(kind: Kind, u: iset<Key>)
    requires forall k :: k in u ==> Backed(kind, k)
    ensures (forall ops, q :: OpsOver(u, ops) && q in u ==> BackedOps(kind, ops) && Serves(kind, ops, q))
      <==> Coherent(kind, u)
  {
    hide Compare, Rank;
    if Coherent(kind, u) {
      forall ops, q | OpsOver(u, ops) && q in u ensures BackedOps(kind, ops) && Serves(kind, ops, q) {
        AfterIndexes(kind, u, ops);
        FindFinds(kind, u, After(kind, ops), q);
      }
    } else {
      var x, y, z :| x in u && y in u && z in u && Below(kind, x, y) && Below(kind, y, z) && Compare(kind, x, z) == 0;
      BetweenHides(kind, x, y, z);
      assert OpsOver(u, [AddKey(y), AddKey(x)]);
    }
  }

  // With `y` and then `x` stored, the lookup of `z` misses, and adding `z` stores it beside `x`.
  lemma BetweenHides(kind: Kind, x: Key, y: Key, z: Key)
    requires Below(kind, x, y) && Below(kind, y, z) && Compare(kind, x, z) == 0
    ensures !Serves(kind, [AddKey(y), AddKey(x)], z)
    ensures !PrefixFree(kind, Elems(After(kind, [AddKey(y), AddKey(x), AddKey(z)])))
  {
    hide Compare, Rank;
    CompareFlips(kind, x, z);
    CompareFlips(kind, y, z);
    CompareFlips(kind, x, y);
    var none: seq<Op> := [];
    var one, two, three := [AddKey(y)], [AddKey(y), AddKey(x)], [AddKey(y), AddKey(x), AddKey(z)];
    assert one[..0] == none && two[..1] == one && three[..2] == two;
    assert After(kind, one) == Node(Nil, y, Nil);
    var t := Node(Node(Nil, x, Nil), y, Nil);
    InsertedLeft(kind, x, y);
    assert After(kind, two) == t;
    assert x in Elems(t) && Compare(kind, z, x) == 0;
    InsertedRight(kind, t, z);
    var w := Node(Node(Nil, x, Nil), y, Node(Nil, z, Nil));
    assert After(kind, three) == w;
    assert x in Elems(w) && z in Elems(w) && x != z;
  }

  lemma InsertedLeft(kind: Kind, x: Key, y: Key)
    requires Below(kind, x, y)
    ensures var t := Node(Nil, y, Nil);
      && AllBacked(kind, t) && Sorted(kind, t)
      && Add(kind, t, x) == (Node(Node(Nil, x, Nil), y, Nil), x)
  {
    hide Compare;
    var t := Node(Nil, y, Nil);
    assert Elems(t) == {y};
    assert Find(kind, t, x) == Find(kind, Nil, x);
    assert Insert(kind, t, x) == Node(Insert(kind, Nil, x), y, Nil);
  }

  lemma InsertedRight(kind: Kind, t: Tree<Key>, z: Key)
    requires AllBacked(kind, t) && Sorted(kind, t) && t.Node? && t.right.Nil?
    requires Backed(kind, t.elem) && Backed(kind, z) && Compare(kind, z, t.elem) > 0
    ensures Find(kind, t, z).None? && Add(kind, t, z) == (Node(t.left, t.elem, Node(Nil, z, Nil)), z)
  {
    hide Compare;
    assert Find(kind, t, z) == Find(kind, Nil, z);
    assert Insert(kind, t, z) == Node(t.left, t.elem, Insert(kind, Nil, z));
  }

  // ---------------------------------------------------------------------------------------
  // Host names
  // ---------------------------------------------------------------------------------------

  function Name(k: Key): seq<byte>
    requires Backed(Host, k)
  {
    k.data[..k.len]
  }

  // The names are the same or one lies below the other.
  predicate SameBranch(a: seq<byte>, b: seq<byte>) {
    IsSubdomain(a, b) || IsSubdomain(b, a)
  }

  // `y` is `x` with something in front that ends in a character below '.'.
  predicate Shadows(y: seq<byte>, x: seq<byte>) {
    |x| < |y| && y[|y| - |x|..] == x && y[|y| - |x| - 1] < DOT
  }

  // A name of the set shadows a domain of which it has a proper sub-domain as well.
  ghost predicate ShadowedBranch(x: seq<byte>, y: seq<byte>, z: seq<byte>) {
    Shadows(y, x) && IsSubdomain(z, x) && z != x
  }

  // Which sets of host names the index serves, in terms of the names: those in which no name is
  // another one behind a character below '.', of which there is a proper sub-domain too.
  lemma HostsCohereExactly(u: iset<Key>)
    requires forall k :: k in u ==> Backed(Host, k)
    ensures Coherent(Host, u) <==>
      !exists x, y, z :: x in u && y in u && z in u && ShadowedBranch(Name(x), Name(y), Name(z))
  {
    hide Compare, Rank, ShadowedBranch;
    forall x, y, z | x in u && y in u && z in u
      ensures ShadowedBranch(Name(x), Name(y), Name(z)) ==>
        Below(Host, x, y) && Below(Host, y, z) && Compare(Host, x, z) == 0
      ensures Below(Host, x, y) && Below(Host, y, z) && Compare(Host, x, z) == 0 ==>
        ShadowedBranch(Name(x), Name(y), Name(z))
    {
      if ShadowedBranch(Name(x), Name(y), Name(z)) { ShadowsSortBetween(x, y, z); }
      if Below(Host, x, y) && Below(Host, y, z) && Compare(Host, x, z) == 0 { BetweenIsShadowed(x, y, z); }
    }
  }

  lemma ShadowsSortBetween(x: Key, y: Key, z: Key)
    requires Backed(Host, x) && Backed(Host, y) && Backed(Host, z) && ShadowedBranch(Name(x), Name(y), Name(z))
    ensures Below(Host, x, y) && Below(Host, y, z) && Compare(Host, x, z) == 0
  {
    hide Reverse, HostOrder, Lex;
    var a, b, c: seq<nat> := Reverse(Name(x)), Reverse(Name(y)), Reverse(Name(z));
    EndsLike(Name(y), Name(x));
    EndsLike(Name(z), Name(x));
    ComparesByRank(Host, x, y);
    ComparesByRank(Host, y, z);
    HostZeroIsSubdomain(Name(x), Name(z));
    SortsBetween(a, b, c);
  }

  lemma SortsBetween(a: seq<nat>, b: seq<nat>, c: seq<nat>)
    requires |a| < |b| && |a| < |c| && b[..|a|] == a == c[..|a|] && b[|a|] < DOT == c[|a|]
    ensures Lex(a, b) < 0 && Lex(b, c) < 0
    ensures !Related(a + [DOT as nat], b + [DOT as nat]) && !Related(b + [DOT as nat], c + [DOT as nat])
  {
    var n := |a|;
    assert b == a + b[n..] && c == a + c[n..] && a == a + [];
    LexFront(a, [], b[n..]);
    LexFront(a, b[n..], c[n..]);
    assert (a + [DOT as nat])[n] == DOT && (b + [DOT as nat])[n] == b[n] && (c + [DOT as nat])[n] == DOT;
  }

  lemma BetweenIsShadowed(x: Key, y: Key, z: Key)
    requires Below(Host, x, y) && Below(Host, y, z) && Compare(Host, x, z) == 0
    ensures ShadowedBranch(Name(x), Name(y), Name(z))
  {
    hide HostOrder, Reverse, Lex;
    var a, b, c: seq<nat> := Reverse(Name(x)), Reverse(Name(y)), Reverse(Name(z));
    CompareFlips(Host, x, y);
    CompareFlips(Host, y, z);
    BeforeTransitive(Host, x, y, z);
    HostZeroIsSubdomain(Name(x), Name(z));
    if IsSubdomain(Name(x), Name(z)) { NotBeforeAbove(x, z); assert false; }
    EndsLike(Name(z), Name(x));
    var n := |a|;
    assert c == a + c[n..] && c[n] == DOT;
    LexBetween(a, b, c[n..]);
    HostZeroIsSubdomain(Name(x), Name(y));
    EndsLike(Name(y), Name(x));
  }

  // A sub-domain never stands before the domain.
  lemma NotBeforeAbove(x: Key, z: Key)
    requires Backed(Host, x) && Backed(Host, z) && IsSubdomain(Name(x), Name(z))
    ensures !Before(Host, x, z)
  {
    var a, c: seq<nat> := Reverse(Name(x)), Reverse(Name(z));
    if Name(x) == Name(z) {
      LexFront(a, [], []);
      assert a + [] == a;
    } else {
      EndsLike(Name(x), Name(z));
      assert a == c + a[|c|..] && c == c + [];
      LexFront(c, a[|c|..], []);
    }
  }

  // All keys may be mixed that have no character below '.'; addresses and byte strings always may.
  lemma OrderlyKeysCohere(kind: Kind)
    ensures Coherent(kind, iset k: Key | Orderly(kind, k))
  {
    var u := iset k: Key | Orderly(kind, k);
    if kind == Host {
      forall x, y, z | x in u && y in u && z in u ensures !ShadowedBranch(Name(x), Name(y), Name(z)) {
        NoShadows(Name(y), Name(x));
      }
      HostsCohereExactly(u);
    } else {
      forall x, y, z | x in u && y in u && z in u && Below(kind, x, y) && Below(kind, y, z)
        ensures Compare(kind, x, z) != 0
      {
        CompareIsPrefixCmp(kind, x, y);
        CompareIsPrefixCmp(kind, y, z);
        CompareIsPrefixCmp(kind, x, z);
        Transitive(Code(kind, x), Code(kind, y), Code(kind, z));
      }
    }
  }

  lemma NoShadows(y: seq<byte>, x: seq<byte>)
    requires forall i :: 0 <= i < |y| ==> y[i] >= DOT
    ensures !Shadows(y, x)
  {
  }

  // Looking a host up finds something exactly when the name itself, a domain above it or one
  // below it is stored.
  lemma HostLookup(u: iset<Key>, ops: seq<Op>, q: Key)
    requires Coherent(Host, u) && OpsOver(u, ops) && q in u && BackedOps(Host, ops)
    ensures var t := After(Host, ops);
      Find(Host, t, q).Some? <==> exists k :: k in Elems(t) && SameBranch(Name(q), Name(k))
  {
    hide IsSubdomain, HostOrder, Sorted, Find, After;
    var t := After(Host, ops);
    AfterIndexes(Host, u, ops);
    FindFinds(Host, u, t, q);
    forall k | k in Elems(t) ensures Compare(Host, q, k) == 0 <==> SameBranch(Name(q), Name(k)) {
      HostZeroIsSubdomain(Name(q), Name(k));
    }
  }

  // No domain is ever stored together with one of its sub-domains.
  lemma HostsPrefixFree(u: iset<Key>, ops: seq<Op>, a: Key, b: Key)
    requires Coherent(Host, u) && OpsOver(u, ops) && BackedOps(Host, ops)
    requires a in Elems(After(Host, ops)) && b in Elems(After(Host, ops)) && a != b
    ensures Backed(Host, a) && Backed(Host, b) && !SameBranch(Name(a), Name(b))
  {
    hide HostOrder, After, Coherent, Sorted, IsSubdomain;
    AfterIndexes(Host, u, ops);
    HostZeroIsSubdomain(Name(a), Name(b));
  }

  // check_host looks a name up and accepts what is no longer than the name: it answers whether
  // the name or a domain above it is stored.
  lemma StoredParentIsFound(u: iset<Key>, t: Tree<Key>, q: Key)
    requires Indexes(Host, u, t) && q in u
    ensures var f := Find(Host, t, q);
      f.Some? && f.value.len <= q.len <==> exists k :: k in Elems(t) && IsSubdomain(Name(q), Name(k))
  {
    hide HostOrder, IsSubdomain, Find, Sorted, Coherent, Elems;
    CoherentBacked(Host, u, q);
    var f := Find(Host, t, q);
    FindFinds(Host, u, t, q);
    forall k | k in Elems(t) && IsSubdomain(Name(q), Name(k)) ensures f == Some(k) && k.len <= q.len {
      HostZeroIsSubdomain(Name(q), Name(k));
      AboveIsShorter(Name(q), Name(k));
      assert Compare(Host, q, k) == 0;
      PrefixIsAlone(Host, Elems(t), k, q, f.value);
    }
    if f.Some? && f.value.len <= q.len {
      HostZeroIsSubdomain(Name(q), Name(f.value));
      AboveIsShorter(Name(q), Name(f.value));
    }
  }

  lemma AboveIsShorter(p: seq<byte>, q: seq<byte>)
    ensures IsSubdomain(p, q) <==> SameBranch(p, q) && |q| <= |p|
  {
  }

  // "-a", "a" and "x.a"
  const HYPHENATED := Key(2, [45, 97])
  const PARENT := Key(1, [97])
  const CHILD := Key(3, [120, 46, 97])

  // A hyphen sorts below '.', and then lookups miss: with "-a" and "a" stored in this order,
  // looking "x.a" up finds nothing although its parent domain "a" is stored; and adding "x.a"
  // stores a domain together with its sub-domain.
  lemma HyphenHidesParent()
    ensures !Serves(Host, [AddKey(HYPHENATED), AddKey(PARENT)], CHILD)
    ensures !PrefixFree(Host, Elems(After(Host, [AddKey(HYPHENATED), AddKey(PARENT), AddKey(CHILD)])))
  {
    assert Name(HYPHENATED)[1..] == [97] == Name(PARENT) && Name(HYPHENATED)[0] == 45;
    assert Name(CHILD)[2..] == [97] && Name(CHILD)[1] == DOT;
    ShadowsSortBetween(PARENT, HYPHENATED, CHILD);
    BetweenHides(Host, PARENT, HYPHENATED, CHILD);
  }

  // ---------------------------------------------------------------------------------------
  // Expiry
  // ---------------------------------------------------------------------------------------

  // The nodes a lookup visits, up to the one it finds.
  ghost function Way(kind: Kind, t: Tree<Key>, q: Key): seq<Key>
    requires AllBacked(kind, t) && Backed(kind, q)
  {
    match t
    case Nil => []
    case Node(l, e, r) =>
      assert e in Elems(t);
      var c := Compare(kind, q, e);
      if c == 0 then [e] else if c < 0 then [e] + Way(kind, l, q) else [e] + Way(kind, r, q)
  }

  // The element at place i of the way is the first that `short` is related to.
  ghost predicate FirstOn(way: seq<Key>, short: Key, i: nat) {
    && Backed(Bits, short) && (forall j :: 0 <= j < |way| ==> Backed(Bits, way[j]))
    && i < |way| && Related(Code(Bits, short), Code(Bits, way[i]))
    && forall j :: 0 <= j < i ==> !Related(Code(Bits, short), Code(Bits, way[j]))
  }

  // The lookup of a shorter prefix of a key goes the way of the key, and stops at the first element
  // that agrees with it.
  lemma {:induction false} ShortStopsFirst(t: Tree<Key>, q: Key, short: Key) returns (i: nat)
    requires AllBacked(Bits, t) && Backed(Bits, q) && Backed(Bits, short)
    requires Code(Bits, short) <= Code(Bits, q) && Find(Bits, t, q).Some?
    ensures var way := Way(Bits, t, q);
      && FirstOn(way, short, i) && Find(Bits, t, short) == Some(way[i])
      && way[|way| - 1] == Find(Bits, t, q).value
      && forall j :: 0 <= j < |way| - 1 ==> Backed(Bits, way[j]) && Compare(Bits, q, way[j]) != 0
  {
    hide Compare, Code, Related, FirstOn, Elems;
    var e := t.elem;
    ElemIn(t);
    assert e in Elems(t);
    var c := Compare(Bits, q, e);
    EqualMeansRelated(Bits, short, e);
    ShorterSortsAlike(q, short, e);
    if c == 0 {
      i := 0;
      JustOne(e, short);
    } else {
      var next := if c < 0 then t.left else t.right;
      var k := ShortStopsFirst(next, q, short);
      i := if Compare(Bits, short, e) == 0 then 0 else k + 1;
      OneStepMore(e, Way(Bits, next, q), short, k);
    }
  }

  lemma ElemIn<T>(t: Tree<T>)
    requires t.Node?
    ensures t.elem in Elems(t) && Elems(t.left) <= Elems(t) && Elems(t.right) <= Elems(t)
  {
  }

  lemma JustOne(e: Key, short: Key)
    requires Backed(Bits, e) && Backed(Bits, short) && Related(Code(Bits, short), Code(Bits, e))
    ensures FirstOn([e], short, 0)
  {
  }

  lemma OneStepMore(e: Key, rest: seq<Key>, short: Key, k: nat)
    requires FirstOn(rest, short, k) && Backed(Bits, e)
    ensures FirstOn([e] + rest, short, if Related(Code(Bits, short), Code(Bits, e)) then 0 else k + 1)
    ensures forall j :: 0 < j <= |rest| ==> ([e] + rest)[j] == rest[j - 1]
  {
    hide Code, Related;
  }

  lemma ShorterSortsAlike(q: Key, short: Key, e: Key)
    requires Backed(Bits, q) && Backed(Bits, short) && Backed(Bits, e) && Code(Bits, short) <= Code(Bits, q)
    ensures Compare(Bits, short, e) != 0 ==> Compare(Bits, q, e) == Compare(Bits, short, e)
    ensures Compare(Bits, q, e) == 0 ==> Compare(Bits, short, e) == 0
  {
    var a, b := Code(Bits, short), Code(Bits, q);
    CompareIsPrefixCmp(Bits, short, e);
    CompareIsPrefixCmp(Bits, q, e);
    assert b == a + b[|a|..];
    if PrefixCmp(a, Code(Bits, e)) != 0 { ExtensionSortsAlike(a, Code(Bits, e), b[|a|..]); }
  }

  // cache_get passes the length of an expired entry's address in bytes where mem_delete counts
  // bits.  What goes is the first element, on the way from the root to the expired one, that agrees
  // with the address in as many bits as it has bytes; so the expired entry goes exactly when no
  // element before it does.
  lemma ExpiryErasesTopmost(t: Tree<Key>, data: seq<byte>, expired: Key)
    requires AllBacked(Bits, t) && Sorted(Bits, t)
    requires Find(Bits, t, Key(8 * |data|, data)) == Some(expired)
    ensures var short, way := Key(|data|, data), Way(Bits, t, Key(8 * |data|, data));
      && (exists i: nat :: FirstOn(way, short, i) && Elems(Erase(Bits, t, short)) == Elems(t) - {way[i]})
      && (expired !in Elems(Erase(Bits, t, short)) <==> FirstOn(way, short, |way| - 1))
  {
    hide Compare, Code, Rank;
    var q, short := Key(8 * |data|, data), Key(|data|, data);
    assert Code(Bits, short) <= Code(Bits, q) by { LongerBits(data, |data|, 8 * |data|); ShortCode(data); }
    var i := ShortStopsFirst(t, q, short);
    FindIs(Bits, t, q);
    EraseErases(Bits, t, short);
  }

  // The addresses 10.0.0.2 and 10.0.0.1, with family and port before them.
  const TOPMOST := Key(64, [2, 0, 0, 80, 10, 0, 0, 2])
  const EXPIRED := Key(64, [2, 0, 0, 80, 10, 0, 0, 1])

  // With both stored in this order, it is the first that goes when the second has expired.
  lemma WrongEntryExpires()
    ensures var t := Node(Node(Nil, EXPIRED, Nil), TOPMOST, Nil);
      && BackedOps(Bits, [AddKey(TOPMOST), AddKey(EXPIRED)]) && t == After(Bits, [AddKey(TOPMOST), AddKey(EXPIRED)])
      && Find(Bits, t, Key(64, EXPIRED.data)) == Some(EXPIRED)
      && Erase(Bits, t, Key(8, EXPIRED.data)) == Node(Nil, EXPIRED, Nil)
  {
    hide Compare, Add;
    TopmostAndExpired();
    FirstStored(Bits, TOPMOST);
    InsertedLeft(Bits, EXPIRED, TOPMOST);
    var one, two := [AddKey(TOPMOST)], [AddKey(TOPMOST), AddKey(EXPIRED)];
    assert two[..1] == one;
    assert After(Bits, two) == Add(Bits, After(Bits, one), EXPIRED).0;
  }

  lemma TopmostAndExpired()
    ensures Compare(Bits, EXPIRED, TOPMOST) == -1 && Compare(Bits, EXPIRED, EXPIRED) == 0
    ensures Compare(Bits, Key(8, EXPIRED.data), TOPMOST) == 0
  {
    var a, b := EXPIRED.data, TOPMOST.data;
    MemCmpSkips(a, b, 8, 7);
    MemCmpSkips(a, a, 8, 7);
    assert a[7..] == [1] && b[7..] == [2];
    assert MemCmp([1], [2], 1) == -1 && MemCmp([1], [1], 1) == 0;
    assert MemCmp(a, b, 1) == 0;
  }

  lemma FirstStored(kind: Kind, k: Key)
    requires Backed(kind, k)
    ensures BackedOps(kind, [AddKey(k)]) && After(kind, [AddKey(k)]) == Node(Nil, k, Nil)
  {
    var none: seq<Op> := [];
    assert [AddKey(k)][..0] == none;
  }

  lemma {:induction false} MemCmpSkips(a: seq<byte>, b: seq<byte>, n: nat, k: nat)
    requires k <= n <= |a| && n <= |b| && a[..k] == b[..k]
    ensures MemCmp(a, b, n) == MemCmp(a[k..], b[k..], n - k)
  {
    if k > 0 {
      assert a[0] == a[..k][0] && b[0] == b[..k][0];
      assert a[1..][..k - 1] == a[..k][1..] && b[1..][..k - 1] == b[..k][1..];
      MemCmpSkips(a[1..], b[1..], n - 1, k - 1);
      assert a[1..][k - 1..] == a[k..] && b[1..][k - 1..] == b[k..];
    } else {
      assert a[0..] == a && b[0..] == b;
    }
  }

  lemma ShortCode(data: seq<byte>)
    ensures Code(Bits, Key(|data|, data)) <= Code(Bits, Key(8 * |data|, data))
  {
    LongerBits(data, |data|, 8 * |data|);
  }
}
