// The prefix index in memory: kavl.h's linked nodes and the operations of byedpi/mpool.c.
//
// The tree of values that the links spell out is kept in a ghost field.  A walk down the tree is
// described by the path it leaves behind, so that writing one link at the bottom replaces one
// subtree and nothing else.

module PrefixIndex {
  import opened Common
  import opened PrefixOrder
  import opened SearchTree

  const MAX_DEPTH: nat := 64  // KAVL_MAX_DEPTH

  class Elem {
    const kind: Kind
    const key: Key
    var left: Elem?
    var right: Elem?

    constructor (kind: Kind, key: Key)
      ensures this.kind == kind && this.key == key && left == null && right == null
    {
      this.kind, this.key := kind, key;
      left, right := null, null;
    }
  }

  // ---------------------------------------------------------------------------------------
  // Paths
  // ---------------------------------------------------------------------------------------

  // What surrounds a subtree, innermost node first.
  datatype Path<T> =
    | Top
    | InLeft(up: Path<T>, elem: T, right: Tree<T>)
    | InRight(up: Path<T>, left: Tree<T>, elem: T)

  ghost function Plug<T>(p: Path<T>, t: Tree<T>): Tree<T> {
    match p
    case Top => t
    case InLeft(up, e, r) => Plug(up, Node(t, e, r))
    case InRight(up, l, e) => Plug(up, Node(l, e, t))
  }

  lemma PlugTop<T>(t: Tree<T>)
    ensures Plug(Top, t) == t
  {
  }

  lemma PlugStep<T>(p: Path<T>, t: Tree<T>)
    requires t.Node?
    ensures Plug(InLeft(p, t.elem, t.right), t.left) == Plug(p, t)
    ensures Plug(InRight(p, t.left, t.elem), t.right) == Plug(p, t)
  {
  }

  ghost function PathElems<T>(p: Path<T>): set<T> {
    match p
    case Top => {}
    case InLeft(up, e, r) => PathElems(up) + {e} + Elems(r)
    case InRight(up, l, e) => PathElems(up) + {e} + Elems(l)
  }

  lemma {:induction false} PlugElems<T>(p: Path<T>, t: Tree<T>)
    ensures Elems(Plug(p, t)) == PathElems(p) + Elems(t)
  {
    match p
    case Top =>
    case InLeft(up, e, r) => PlugElems(up, Node(t, e, r));
    case InRight(up, l, e) => PlugElems(up, Node(l, e, t));
  }

  // No node occurs twice.
  ghost predicate Separate<T>(t: Tree<T>) {
    match t
    case Nil => true
    case Node(l, e, r) =>
      Separate(l) && Separate(r) && e !in Elems(l) && e !in Elems(r) && Elems(l) !! Elems(r)
  }

  ghost predicate DistinctPath<T>(p: Path<T>) {
    match p
    case Top => true
    case InLeft(up, e, r) =>
      DistinctPath(up) && Separate(r) && e !in Elems(r) && e !in PathElems(up) && Elems(r) !! PathElems(up)
    case InRight(up, l, e) =>
      DistinctPath(up) && Separate(l) && e !in Elems(l) && e !in PathElems(up) && Elems(l) !! PathElems(up)
  }

  lemma {:induction false} PlugDistinct<T>(p: Path<T>, t: Tree<T>)
    ensures Separate(Plug(p, t)) <==> DistinctPath(p) && Separate(t) && PathElems(p) !! Elems(t)
  {
    match p
    case Top =>
    case InLeft(up, e, r) => PlugDistinct(up, Node(t, e, r));
    case InRight(up, l, e) => PlugDistinct(up, Node(l, e, t));
  }

  // ---------------------------------------------------------------------------------------
  // Links
  // ---------------------------------------------------------------------------------------

  ghost function Root(t: Tree<Elem>): Elem? {
    if t.Nil? then null else t.elem
  }

  // The nodes are linked as the tree says.
  ghost predicate Linked(t: Tree<Elem>)
    reads Elems(t)
  {
    match t
    case Nil => true
    case Node(l, e, r) => e.left == Root(l) && e.right == Root(r) && Linked(l) && Linked(r)
  }

  // The nodes around a subtree with root `child` are linked as the path says.
  ghost predicate LinkedPath(p: Path<Elem>, child: Elem?)
    reads PathElems(p)
  {
    match p
    case Top => true
    case InLeft(up, e, r) => e.left == child && e.right == Root(r) && Linked(r) && LinkedPath(up, e)
    case InRight(up, l, e) => e.right == child && e.left == Root(l) && Linked(l) && LinkedPath(up, e)
  }

  lemma {:induction false} PlugLinked(p: Path<Elem>, t: Tree<Elem>)
    ensures Linked(Plug(p, t)) <==> LinkedPath(p, Root(t)) && Linked(t)
  {
    match p
    case Top =>
    case InLeft(up, e, r) => PlugLinked(up, Node(t, e, r));
    case InRight(up, l, e) => PlugLinked(up, Node(l, e, t));
  }

  // ---------------------------------------------------------------------------------------
  // Keys
  // ---------------------------------------------------------------------------------------

  ghost function Keys(t: Tree<Elem>): Tree<Key> {
    match t
    case Nil => Nil
    case Node(l, e, r) => Node(Keys(l), e.key, Keys(r))
  }

  ghost function PathKeys(p: Path<Elem>): Path<Key> {
    match p
    case Top => Top
    case InLeft(up, e, r) => InLeft(PathKeys(up), e.key, Keys(r))
    case InRight(up, l, e) => InRight(PathKeys(up), Keys(l), e.key)
  }

  lemma {:induction false} PlugKeys(p: Path<Elem>, t: Tree<Elem>)
    ensures Keys(Plug(p, t)) == Plug(PathKeys(p), Keys(t))
  {
    match p
    case Top =>
    case InLeft(up, e, r) => PlugKeys(up, Node(t, e, r));
    case InRight(up, l, e) => PlugKeys(up, Node(l, e, t));
  }

  lemma {:induction false} KeysElems(t: Tree<Elem>)
    ensures forall e :: e in Elems(t) ==> e.key in Elems(Keys(t))
    ensures forall k :: k in Elems(Keys(t)) ==> exists e :: e in Elems(t) && e.key == k
    ensures Size(Keys(t)) == Size(t) && Height(Keys(t)) == Height(t)
  {
    match t
    case Nil =>
    case Node(l, e, r) =>
      KeysElems(l);
      KeysElems(r);
      forall k | k in Elems(Keys(t)) ensures exists e :: e in Elems(t) && e.key == k {
        if k == e.key {
          assert e in Elems(t);
        } else if k in Elems(Keys(l)) {
          var x :| x in Elems(l) && x.key == k;
          assert x in Elems(t);
        } else {
          var x :| x in Elems(r) && x.key == k;
          assert x in Elems(t);
        }
      }
  }

  // The walk for `k` goes the way of the path.
  ghost predicate OnWay(kind: Kind, p: Path<Key>, k: Key) {
    match p
    case Top => true
    case InLeft(up, e, r) =>
      Backed(kind, e) && Backed(kind, k) && Compare(kind, k, e) < 0 && OnWay(kind, up, k)
    case InRight(up, l, e) =>
      Backed(kind, e) && Backed(kind, k) && Compare(kind, k, e) > 0 && OnWay(kind, up, k)
  }

  // A walk meets the same subtree whether it starts there or at the root.
  lemma {:induction false} OperateBelow(kind: Kind, p: Path<Key>, t: Tree<Key>, k: Key)
    requires OnWay(kind, p, k) && Backed(kind, k) && AllBacked(kind, Plug(p, t))
    ensures AllBacked(kind, t)
    ensures Find(kind, Plug(p, t), k) == Find(kind, t, k)
    ensures Insert(kind, Plug(p, t), k) == Plug(p, Insert(kind, t, k))
    ensures Erase(kind, Plug(p, t), k) == Plug(p, Erase(kind, t, k))
  {
    hide Compare;
    PlugElems(p, t);
    match p
    case Top =>
    case InLeft(up, e, r) =>
      OperateBelow(kind, up, Node(t, e, r), k);
    case InRight(up, l, e) =>
      OperateBelow(kind, up, Node(l, e, t), k);
  }

  // Replacing a subtree changes the root only when the subtree is everything.
  lemma {:induction false} PlugRoot(p: Path<Elem>, t: Tree<Elem>, u: Tree<Elem>)
    ensures !p.Top? ==> Plug(p, t).Node? && Root(Plug(p, t)) == Root(Plug(p, u))
  {
    match p
    case Top =>
    case InLeft(up, e, r) =>
      if up.Top? {} else { PlugRoot(up, Node(t, e, r), Node(u, e, r)); }
    case InRight(up, l, e) =>
      if up.Top? {} else { PlugRoot(up, Node(l, e, t), Node(l, e, u)); }
  }

  lemma {:induction false} InsertBacked(kind: Kind, t: Tree<Key>, k: Key)
    requires AllBacked(kind, t) && Backed(kind, k)
    ensures AllBacked(kind, Insert(kind, t, k))
  {
    match t
    case Nil =>
    case Node(l, e, r) =>
      InsertBacked(kind, l, k);
      InsertBacked(kind, r, k);
  }

  ghost predicate LeftOnly<T>(p: Path<T>) {
    match p
    case Top => true
    case InLeft(up, _, _) => LeftOnly(up)
    case InRight(_, _, _) => false
  }

  // A path of left links leads to the smallest element.
  lemma {:induction false} LeastAtTheEnd<T>(p: Path<T>, t: Tree<T>)
    requires LeftOnly(p) && t.Node?
    ensures Plug(p, t).Node? && Least(Plug(p, t)) == Least(t)
    ensures WithoutLeast(Plug(p, t)) == Plug(p, WithoutLeast(t))
  {
    match p
    case Top =>
    case InLeft(up, e, r) => LeastAtTheEnd(up, Node(t, e, r));
  }

  lemma {:induction false} LeastElems<T>(t: Tree<T>)
    requires Separate(t) && t.Node?
    ensures Separate(WithoutLeast(t))
    ensures Least(t) in Elems(t) && Elems(WithoutLeast(t)) == Elems(t) - {Least(t)}
  {
    if t.left.Node? { LeastElems(t.left); }
  }

  lemma {:induction false} LeastKeys(t: Tree<Elem>)
    requires t.Node?
    ensures Least(Keys(t)) == Least(t).key && WithoutLeast(Keys(t)) == Keys(WithoutLeast(t))
  {
    if t.left.Node? { LeastKeys(t.left); }
  }

  lemma MergedElems(t: Tree<Elem>)
    requires Separate(t) && t.Node?
    ensures var m := Merged(t.left, t.right);
      Separate(m) && Elems(m) == Elems(t) - {t.elem} && Keys(m) == Merged(Keys(t.left), Keys(t.right))
  {
    if t.right.Node? {
      LeastElems(t.right);
      LeastKeys(t.right);
    }
  }

  lemma MinusCommutes<T>(a: set<T>, b: set<T>, x: T)
    requires x !in a
    ensures a + (b - {x}) == (a + b) - {x}
  {
  }

  // `parent` holds the link at the bottom of the path, its left one or its right one.
  ghost predicate IsParent(p: Path<Elem>, parent: Elem?, wentLeft: bool) {
    match p
    case Top => parent == null
    case InLeft(_, e, _) => parent == e && wentLeft
    case InRight(_, _, e) => parent == e && !wentLeft
  }

  // What the next insertion of mem_add makes of the tree.
  lemma AddOnce(kind: Kind, t: Tree<Key>, k: Key)
    requires AllBacked(kind, t) && Sorted(kind, t) && Backed(kind, k) && Height(t) < MAX_DEPTH
    ensures var f := Find(kind, t, k);
      if f.None? then
        var u := Insert(kind, t, k);
        && Add(kind, t, k) == (u, k) && Sorted(kind, u) && AllBacked(kind, u)
        && Size(u) == Size(t) + 1 && Height(u) <= MAX_DEPTH
      else
        k.len >= f.value.len ==> Add(kind, t, k) == (t, f.value)
  {
    if Find(kind, t, k).None? {
      InsertInserts(kind, t, k);
      InsertHeight(kind, t, k);
    }
  }

  // One pass of its loop does not change where mem_add ends.
  lemma AddPass(kind: Kind, t: Tree<Key>, k: Key)
    requires AllBacked(kind, t) && Sorted(kind, t) && Backed(kind, k)
    requires Find(kind, t, k).Some? && k.len < Find(kind, t, k).value.len
    ensures var v := Find(kind, t, k).value;
      && Backed(kind, v)
      && AllBacked(kind, Erase(kind, t, v)) && Sorted(kind, Erase(kind, t, v))
      && Add(kind, t, k) == Add(kind, Erase(kind, t, v), k)
      && Height(Erase(kind, t, v)) <= Height(t)
  {
    AddStep(kind, t, k);
    EraseSize(kind, t, Find(kind, t, k).value);
  }

  lemma {:induction false} InsertHeight(kind: Kind, t: Tree<Key>, k: Key)
    requires AllBacked(kind, t) && Backed(kind, k)
    ensures Height(Insert(kind, t, k)) <= Height(t) + 1
  {
    match t
    case Nil =>
    case Node(l, e, r) =>
      InsertHeight(kind, l, k);
      InsertHeight(kind, r, k);
  }

  // ---------------------------------------------------------------------------------------
  // The code
  // ---------------------------------------------------------------------------------------

  class Index {
    const kind: Kind     // cmp_type
    var root: Elem?
    var count: nat
    ghost var shape: Tree<Elem>

    // The links from the root spell out `shape`.
    ghost predicate Valid()
      reads this, Elems(shape)
    {
      root == Root(shape) && Linked(shape) && Separate(shape) && AllBacked(kind, Keys(shape))
    }

    ghost function KeyTree(): Tree<Key>
      reads this
    {
      Keys(shape)
    }

    // mem_pool
    constructor (kind: Kind)
      ensures this.kind == kind && Valid() && KeyTree() == Nil && count == 0
    {
      this.kind := kind;
      root, count, shape := null, 0, Nil;
    }

    method KavlFind(key: Key) returns (r: Elem?)
      requires Valid() && Backed(kind, key)
      ensures r == null <==> Find(kind, KeyTree(), key).None?
      ensures r != null ==> r in Elems(shape) && Find(kind, KeyTree(), key) == Some(r.key)
    {
      var p := root;
      ghost var sub := shape;
      while p != null
        invariant p == Root(sub) && Elems(sub) <= Elems(shape) && Linked(sub)
        invariant AllBacked(kind, Keys(sub))
        invariant Find(kind, KeyTree(), key) == Find(kind, Keys(sub), key)
        decreases sub
      {
        assert p.key in Elems(Keys(sub));
        assert Linked(sub.left) && Linked(sub.right);
        assert allocated(Elems(sub.left)) && allocated(Elems(sub.right));
        var c := Scmp(kind, key, p.key);
        if c == 0 {
          return p;
        }
        if c < 0 {
          sub := sub.left;
          p := p.left;
        } else {
          sub := sub.right;
          p := p.right;
        }
      }
      return null;
    }

    // The walk that kavl_insert and kavl_erase begin with: down to a node that compares equal to
    // the key, or to the empty place where it would be.
    method Descend(key: Key) returns (cur: Elem?, parent: Elem?, wentLeft: bool, ghost path: Path<Elem>,
                                      ghost sub: Tree<Elem>)
      requires Valid() && Backed(kind, key)
      ensures Valid()
      ensures Plug(path, sub) == shape && cur == Root(sub) && Linked(sub) && LinkedPath(path, cur)
      ensures OnWay(kind, PathKeys(path), key) && IsParent(path, parent, wentLeft)
      ensures cur != null ==> Backed(kind, cur.key) && Compare(kind, key, cur.key) == 0
    {
      hide Compare, Find, Insert, Erase, Separate, Plug;
      cur, parent, wentLeft := root, null, false;
      sub, path := shape, Top;
      PlugTop(shape);
      while cur != null
        invariant Plug(path, sub) == shape && cur == Root(sub) && Linked(sub) && LinkedPath(path, cur)
        invariant OnWay(kind, PathKeys(path), key) && IsParent(path, parent, wentLeft)
        invariant root == Root(shape)
        decreases sub
      {
        WalkFacts(path, sub, key);
        assert cur.key in Elems(Keys(sub));
        assert Linked(sub.left) && Linked(sub.right);
        assert allocated(Elems(sub.left)) && allocated(Elems(sub.right)) && allocated(PathElems(path));
        var c := Scmp(kind, key, cur.key);
        if c == 0 {
          break;
        }
        parent, wentLeft := cur, c < 0;
        PlugStep(path, sub);
        if c < 0 {
          path, sub := InLeft(path, sub.elem, sub.right), sub.left;
        } else {
          path, sub := InRight(path, sub.left, sub.elem), sub.right;
        }
        cur := if c < 0 then cur.left else cur.right;
      }
      PlugLinked(path, sub);
    }

    // What a walk for `key` knows about the subtree it has reached.
    lemma WalkFacts(path: Path<Elem>, sub: Tree<Elem>, key: Key)
      requires Plug(path, sub) == shape && AllBacked(kind, Keys(shape))
      requires OnWay(kind, PathKeys(path), key) && Backed(kind, key)
      ensures AllBacked(kind, Keys(sub))
      ensures Find(kind, KeyTree(), key) == Find(kind, Keys(sub), key)
      ensures Insert(kind, KeyTree(), key) == Plug(PathKeys(path), Insert(kind, Keys(sub), key))
      ensures Erase(kind, KeyTree(), key) == Plug(PathKeys(path), Erase(kind, Keys(sub), key))
    {
      PlugKeys(path, sub);
      OperateBelow(kind, PathKeys(path), Keys(sub), key);
    }

    // Write the link at the bottom of a walk, which the parent or the root holds, and so put the
    // tree `now` in the place of the tree `was`.
    method SetSlot(ghost path: Path<Elem>, parent: Elem?, wentLeft: bool, child: Elem?,
                   ghost was: Tree<Elem>, ghost now: Tree<Elem>)
      requires DistinctPath(path) && IsParent(path, parent, wentLeft)
      requires LinkedPath(path, Root(was)) && root == Root(Plug(path, was))
      requires child == Root(now) && Linked(now) && Separate(now) && Elems(now) !! PathElems(path)
      modifies this`root, PathElems(path)
      ensures Linked(Plug(path, now)) && Separate(Plug(path, now)) && root == Root(Plug(path, now))
    {
      PlugRoot(path, was, now);
      PlugDistinct(path, now);
      if parent == null {
        root := child;
      } else if wentLeft {
        parent.left := child;
      } else {
        parent.right := child;
      }
      assert LinkedPath(path, child);
      PlugLinked(path, now);
    }

    // kavl_insert of an unlinked node: it is linked in unless a node on the way compares equal,
    // which is then returned instead.
    method KavlInsert(x: Elem) returns (t: Elem)
      requires Valid() && x !in Elems(shape) && x.left == null && x.right == null
      requires Backed(kind, x.key) && Height(shape) < MAX_DEPTH
      modifies this`root, this`shape, Elems(shape), x
      ensures Valid()
      ensures t != x ==> x.left == null && x.right == null
      ensures var f := Find(kind, old(KeyTree()), x.key);
        if f.Some? then t.key == f.value && t in Elems(shape) && t != x && shape == old(shape)
        else t == x && KeyTree() == Insert(kind, old(KeyTree()), x.key) && Elems(shape) == old(Elems(shape)) + {x}
    {
      hide Find, Insert, Separate, DistinctPath, OnWay, LinkedPath, Compare, AllBacked, Elems, Keys, Plug, PathElems;
      var cur, parent, wentLeft;
      ghost var path, sub;
      cur, parent, wentLeft, path, sub := Descend(x.key);
      if cur != null {
        FoundFacts(path, sub, x.key);
        return cur;
      }
      ghost var leaf := Node(Nil, x, Nil);
      InsertFacts(path, sub, x);
      x.left, x.right := null, null;
      SetSlot(path, parent, wentLeft, x, sub, leaf);
      shape := Plug(path, leaf);
      t := x;
    }

    lemma FoundFacts(path: Path<Elem>, sub: Tree<Elem>, key: Key)
      requires Separate(shape) && AllBacked(kind, Keys(shape)) && Backed(kind, key)
      requires Plug(path, sub) == shape && OnWay(kind, PathKeys(path), key)
      requires sub.Node? && Backed(kind, sub.elem.key) && Compare(kind, key, sub.elem.key) == 0
      ensures Find(kind, KeyTree(), key) == Some(sub.elem.key) && sub.elem in Elems(shape)
      ensures Erase(kind, KeyTree(), key) == Plug(PathKeys(path), Merged(Keys(sub.left), Keys(sub.right)))
      ensures DistinctPath(path) && Separate(sub) && PathElems(path) !! Elems(sub)
      ensures Separate(sub.right) && sub.elem !in Elems(sub.left) && sub.elem !in Elems(sub.right)
      ensures Elems(sub.left) !! Elems(sub.right)
      ensures Elems(shape) == PathElems(path) + Elems(sub)
    {
      WalkFacts(path, sub, key);
      PlugElems(path, sub);
      PlugDistinct(path, sub);
    }

    lemma InsertFacts(path: Path<Elem>, sub: Tree<Elem>, x: Elem)
      requires Separate(shape) && AllBacked(kind, Keys(shape)) && Backed(kind, x.key) && x !in Elems(shape)
      requires Plug(path, sub) == shape && OnWay(kind, PathKeys(path), x.key) && sub.Nil?
      ensures Find(kind, KeyTree(), x.key).None?
      ensures var leaf := Node(Nil, x, Nil);
        && DistinctPath(path) && PathElems(path) <= Elems(shape) && x !in PathElems(path)
        && Separate(leaf) && Elems(leaf) == {x}
        && Keys(Plug(path, leaf)) == Insert(kind, KeyTree(), x.key)
        && AllBacked(kind, Keys(Plug(path, leaf)))
        && Elems(Plug(path, leaf)) == Elems(shape) + {x}
    {
      var leaf := Node(Nil, x, Nil);
      WalkFacts(path, sub, x.key);
      PlugDistinct(path, sub);
      PlugElems(path, sub);
      PlugElems(path, leaf);
      PlugKeys(path, leaf);
      InsertBacked(kind, KeyTree(), x.key);
    }

    // The second loop of kavl_erase: unlink the smallest node to the right of the found one.
    method PopLeast(found: Elem, ghost r: Tree<Elem>) returns (rep: Elem)
      requires r.Node? && found.right == Root(r) && Linked(r) && Separate(r) && found !in Elems(r)
      modifies found`right, Elems(r)
      ensures rep == Least(r) && Linked(WithoutLeast(r)) && found.right == Root(WithoutLeast(r))
    {
      rep := found.right;
      var holder: Elem? := null;  // whose link leads to rep, if not the right link of found
      ghost var sub, path := r, Top;
      while rep.left != null
        invariant Plug(path, sub) == r && sub.Node? && rep == sub.elem && Linked(sub) && LinkedPath(path, rep)
        invariant LeftOnly(path) && IsParent(path, holder, true)
        invariant found.right == Root(r)
        decreases sub
      {
        assert Linked(sub.left) && Linked(sub.right);
        path, sub := InLeft(path, sub.elem, sub.right), sub.left;
        holder := rep;
        rep := rep.left;
      }
      ghost var rest := sub.right;
      assert sub == Node(Nil, rep, rest) && Linked(rest);
      PlugDistinct(path, sub);
      PlugElems(path, sub);
      LeastAtTheEnd(path, sub);
      PlugRoot(path, sub, rest);
      if holder == null {
        found.right := rep.right;
      } else {
        holder.left := rep.right;
      }
      assert LinkedPath(path, Root(rest));
      PlugLinked(path, rest);
    }

    // The smallest node to the right takes over the links of the found one.
    method Replace(found: Elem, ghost l: Tree<Elem>, ghost r: Tree<Elem>) returns (rep: Elem)
      requires found.left == Root(l) && found.right == Root(r) && Linked(l) && Linked(r) && Separate(r) && r.Node?
      requires found !in Elems(l) && found !in Elems(r) && Elems(l) !! Elems(r)
      modifies found`right, Elems(r)
      ensures rep == Least(r) && Linked(Merged(l, r))
    {
      LeastElems(r);
      assert allocated(Elems(l));
      rep := PopLeast(found, r);
      assert Linked(l);
      rep.left := found.left;
      rep.right := found.right;
    }

    // kavl_erase
    method KavlErase(key: Key) returns (found: Elem?)
      requires Valid() && Backed(kind, key) && Height(shape) <= MAX_DEPTH
      modifies this`root, this`shape, Elems(shape)
      ensures Valid() && KeyTree() == Erase(kind, old(KeyTree()), key)
      ensures if found == null then Find(kind, old(KeyTree()), key).None? && shape == old(shape)
        else Find(kind, old(KeyTree()), key) == Some(found.key) && Elems(shape) == old(Elems(shape)) - {found}
             && found in old(Elems(shape))
    {
      hide Find, Separate, DistinctPath, OnWay, Compare, AllBacked, Keys, PathElems;
      var cur, parent, wentLeft;
      ghost var path, sub;
      cur, parent, wentLeft, path, sub := Descend(key);
      if cur == null {
        MissFacts(path, sub, key);
        return null;
      }
      found := cur;
      FoundFacts(path, sub, key);
      EraseFacts(path, sub, key);
      ghost var now := Merged(sub.left, sub.right);
      TakeOut(found, parent, wentLeft, path, sub);
      shape := Plug(path, now);
    }

    // The end of kavl_erase: the found node's place goes to its left child or to the smallest node to
    // its right.
    method TakeOut(found: Elem, parent: Elem?, wentLeft: bool, ghost path: Path<Elem>, ghost sub: Tree<Elem>)
      requires sub.Node? && found == sub.elem && Linked(sub) && LinkedPath(path, found)
      requires DistinctPath(path) && IsParent(path, parent, wentLeft) && root == Root(Plug(path, sub))
      requires PathElems(path) !! Elems(sub) && Separate(sub.right) && Elems(sub.left) !! Elems(sub.right)
      requires found !in Elems(sub.left) && found !in Elems(sub.right)
      requires var now := Merged(sub.left, sub.right);
        Separate(now) && Elems(now) == Elems(sub) - {sub.elem} && Elems(now) !! PathElems(path)
      modifies this`root, Elems(sub), PathElems(path)
      ensures var t := Plug(path, Merged(sub.left, sub.right)); Linked(t) && Separate(t) && root == Root(t)
    {
      hide Separate, DistinctPath, PathElems, Plug;
      ghost var now := Merged(sub.left, sub.right);
      if found.right == null {
        SetSlot(path, parent, wentLeft, found.left, sub, now);
      } else {
        assert allocated(PathElems(path));
        var rep := Replace(found, sub.left, sub.right);
        SetSlot(path, parent, wentLeft, rep, sub, now);
      }
    }

    lemma MissFacts(path: Path<Elem>, sub: Tree<Elem>, key: Key)
      requires Plug(path, sub) == shape && AllBacked(kind, Keys(shape)) && sub.Nil?
      requires OnWay(kind, PathKeys(path), key) && Backed(kind, key)
      ensures Find(kind, KeyTree(), key).None? && Erase(kind, KeyTree(), key) == KeyTree()
    {
      WalkFacts(path, sub, key);
      PlugKeys(path, sub);
    }

    // Removing the node at the bottom of a walk.
    lemma EraseFacts(path: Path<Elem>, sub: Tree<Elem>, key: Key)
      requires Separate(shape) && AllBacked(kind, Keys(shape)) && Backed(kind, key)
      requires Plug(path, sub) == shape && OnWay(kind, PathKeys(path), key)
      requires sub.Node? && Backed(kind, sub.elem.key) && Compare(kind, key, sub.elem.key) == 0
      ensures var now := Merged(sub.left, sub.right);
        && Separate(now) && Elems(now) == Elems(sub) - {sub.elem} && Elems(now) !! PathElems(path)
        && Keys(Plug(path, now)) == Erase(kind, KeyTree(), key)
        && AllBacked(kind, Keys(Plug(path, now)))
        && Elems(Plug(path, now)) == Elems(shape) - {sub.elem}
    {
      hide Compare, OnWay, Separate, Backed;
      FoundFacts(path, sub, key);
      var now := Merged(sub.left, sub.right);
      MergedElems(sub);
      PlugElems(path, now);
      PlugKeys(path, now);
      EraseSize(kind, KeyTree(), key);
      MinusCommutes(PathElems(path), Elems(sub), sub.elem);
      hide Merged, Elems, Erase, PathElems;
    }

    // A search tree, with the right count.
    ghost predicate Ordered()
      reads this
    {
      Sorted(kind, KeyTree()) && AllBacked(kind, KeyTree()) && count == Size(KeyTree())
    }

    // mem_get
    method MemGet(key: Key) returns (r: Elem?)
      requires Valid() && Backed(kind, key)
      ensures r == null <==> Find(kind, KeyTree(), key).None?
      ensures r != null ==> r in Elems(shape) && Find(kind, KeyTree(), key) == Some(r.key)
    {
      r := KavlFind(key);
    }

    // mem_delete
    method MemDelete(key: Key)
      requires Valid() && Ordered() && Backed(kind, key) && Height(shape) <= MAX_DEPTH
      modifies this`root, this`shape, this`count, Elems(shape)
      ensures Valid() && Ordered() && KeyTree() == Erase(kind, old(KeyTree()), key)
      ensures Elems(shape) <= old(Elems(shape)) && Height(shape) <= old(Height(shape))
    {
      hide Find, Sorted, Compare, Erase;
      EraseErases(kind, KeyTree(), key);
      EraseSize(kind, KeyTree(), key);
      KeysElems(shape);
      var e := KavlErase(key);
      KeysElems(shape);
      if e == null {
        return;
      }
      count := count - 1;
    }

    // mem_add
    method MemAdd(key: Key) returns (v: Elem)
      requires Valid() && Ordered() && Backed(kind, key) && Height(shape) < MAX_DEPTH
      modifies this`root, this`shape, this`count, Elems(shape)
      ensures Valid() && Ordered() && (KeyTree(), v.key) == Add(kind, old(KeyTree()), key)
      ensures v in Elems(shape) && fresh(Elems(shape) - old(Elems(shape)))
    {
      hide Find, Sorted, Compare, Erase, Insert, Separate, Linked, Add, Height, Size, Elems, Keys;
      assert allocated(Elems(shape));
      KeysElems(shape);
      ghost var t := KeyTree();  // the tree before the latest insertion
      var e := new Elem(kind, key);
      AddOnce(kind, t, key);
      v := KavlInsert(e);
      while e != v && e.key.len < v.key.len
        invariant Valid() && count == Size(t) && v in Elems(shape) && Height(Keys(shape)) <= MAX_DEPTH
        invariant fresh(Elems(shape) - old(Elems(shape)))
        invariant Sorted(kind, t) && AllBacked(kind, t) && Height(t) < MAX_DEPTH
        invariant Add(kind, old(KeyTree()), key) == Add(kind, t, key)
        invariant e == v ==> Find(kind, t, key).None? && KeyTree() == Insert(kind, t, key)
        invariant e != v ==>
          && Find(kind, t, key) == Some(v.key) && KeyTree() == t
          && e !in Elems(shape) && e.left == null && e.right == null
        decreases Size(t)
      {
        AddStep(kind, t, key);
        AddPass(kind, t, key);
        KeysElems(shape);
        MemDelete(v.key);
        KeysElems(shape);
        t := KeyTree();
        AddOnce(kind, t, key);
        v := KavlInsert(e);
      }
      AddOnce(kind, t, key);
      if e == v {
        count := count + 1;
      }
    }
  }
}