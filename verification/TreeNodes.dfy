/** `bbtree.js` in place: nodes whose children, levels and contents are overwritten. */
module TreeNodes {
  import opened BalancedTree

  // The nodes are kept under numbers, and refer to each other by them. Number 0 is `nil`.
  datatype Cell = Cell(left: nat, right: nat, level: nat, size: nat, item: Item)

  type Store = map<nat, Cell>

  // Which nodes stand where.
  datatype Shape = Leaf | Branch(node: nat, left: Shape, right: Shape)

  ghost function Nodes(s: Shape): set<nat> {
    if s.Leaf? then {} else {s.node} + Nodes(s.left) + Nodes(s.right)
  }

  function Top(s: Shape): nat { if s.Leaf? then 0 else s.node }

  // The shape is laid out in the store, and no node stands in two places.
  ghost predicate LaidOut(m: Store, s: Shape) {
    s.Branch? ==>
      && s.node in m && s.node != 0 && m[s.node].left == Top(s.left) && m[s.node].right == Top(s.right)
      && s.node !in Nodes(s.left) && s.node !in Nodes(s.right) && Nodes(s.left) !! Nodes(s.right)
      && LaidOut(m, s.left) && LaidOut(m, s.right)
  }

  // The tree that is stored.
  ghost function Stored(m: Store, s: Shape): Tree
    requires LaidOut(m, s)
  {
    if s.Leaf? then Nil
    else Node(Stored(m, s.left), m[s.node].item, m[s.node].level, m[s.node].size, Stored(m, s.right))
  }

  // `t` is the root of `tree`, laid out as `s`.
  ghost predicate Holds(m: Store, t: nat, s: Shape, tree: Tree) {
    t == Top(s) && LaidOut(m, s) && Stored(m, s) == tree
  }

  // Outside of `ns` nothing was changed.
  ghost predicate SameBut(m: Store, m': Store, ns: set<nat>) {
    m.Keys <= m'.Keys && forall n :: n in m && n !in ns ==> m'[n] == m[n]
  }

  ghost predicate SameItems(m: Store, m': Store) {
    forall n :: n in m ==> n in m' && m'[n].item == m[n].item
  }

  lemma Opened(m: Store, t: nat, s: Shape, tree: Tree)
    requires Holds(m, t, s, tree)
    ensures t == 0 <==> s.Leaf?
    ensures tree.Nil? <==> s.Leaf?
    ensures Size(tree) == (if t == 0 || t !in m then 0 else m[t].size) && Level(tree) == if t == 0 || t !in m then 0
        else m[t].level
    ensures s.Leaf? ==> Nodes(s) == {}
    ensures s.Branch? ==>
              && t == s.node && t in m && t in Nodes(s) && Nodes(s) == {t} + Nodes(s.left) + Nodes(s.right)
              && t !in Nodes(s.left) && t !in Nodes(s.right) && Nodes(s.left) !! Nodes(s.right)
              && Holds(m, m[t].left, s.left, tree.left) && Holds(m, m[t].right, s.right, tree.right)
              && tree == Node(tree.left, m[t].item, m[t].level, m[t].size, tree.right)
  {}

  lemma Closed(m: Store, s: Shape, l: Tree, r: Tree)
    requires s.Branch? && s.node in m && s.node != 0
    requires s.node !in Nodes(s.left) && s.node !in Nodes(s.right) && Nodes(s.left) !! Nodes(s.right)
    requires Holds(m, m[s.node].left, s.left, l) && Holds(m, m[s.node].right, s.right, r)
    ensures Nodes(s) == {s.node} + Nodes(s.left) + Nodes(s.right)
    ensures Holds(m, s.node, s, Node(l, m[s.node].item, m[s.node].level, m[s.node].size, r))
  {}

  lemma Empty(m: Store)
    ensures Holds(m, 0, Leaf, Nil) && Nodes(Leaf) == {}
  {}

  // A tree is not affected by changes to other nodes.
  lemma {:induction false} Framed(m: Store, m': Store, t: nat, s: Shape, tree: Tree, ns: set<nat>)
    requires Holds(m, t, s, tree) && SameBut(m, m', ns) && Nodes(s) !! ns
    ensures Holds(m', t, s, tree)
    decreases s
  {
    if s.Branch? {
      assert s.node in Nodes(s);
      Framed(m, m', m[t].left, s.left, tree.left, ns);
      Framed(m, m', m[t].right, s.right, tree.right, ns);
    }
  }

  class BBTree {
    var store: Store
    var root: nat
    // the number for the next node
    var next: nat
    ghost var shape: Shape
    ghost var tree: Tree
    // used while removing
    var deleted: nat
    var last: nat
    var deletedEqual: bool

    function LevelAt(n: nat): nat
      reads this`store
      requires n == 0 || n in store
    {
      if n == 0 then 0 else store[n].level
    }

    function SizeAt(n: nat): nat
      reads this`store
    {
      if n != 0 && n in store then store[n].size else 0
    }

    method Reaugment(n: nat)
      requires n in store
      modifies this`store
      ensures store == old(store)[n := old(store[n]).(size := old(SizeAt(store[n].left) + SizeAt(store[n].right) + 1))]
    {
      store := store[n := store[n].(size := SizeAt(store[n].left) + SizeAt(store[n].right) + 1)];
    }

    method RotateRight(t0: nat, ghost s: Shape, ghost tree0: Tree) returns (t: nat, ghost s': Shape)
      requires Holds(store, t0, s, tree0)
      modifies this`store
      ensures Holds(store, t, s', Skew(tree0)) && Nodes(s') == Nodes(s) && SameBut(old(store), store, Nodes(s))
      ensures SameItems(old(store), store) && store.Keys == old(store).Keys
    {
      hide Holds, Nodes, Skew;
      t, s' := t0, s;
      NoSkew(tree0);
      Opened(store, t0, s, tree0);
      if t != 0 {
        Opened(store, store[t].left, s.left, tree0.left);
        if store[t].left != 0 && LevelAt(store[t].left) == LevelAt(t) {
          Opened(store, store[t].right, s.right, tree0.right);
          Opened(store, store[store[t].left].left, s.left.left, tree0.left.left);
          Opened(store, store[store[t].left].right, s.left.right, tree0.left.right);
          ghost var m := store;
          var tmp := t;
          t := store[t].left;
          store := store[tmp := store[tmp].(left := store[t].right)];
          store := store[t := store[t].(right := tmp)];
          Reaugment(tmp);
          Reaugment(t);
          s' := RotatedRight(m, tmp, t, s, tree0, store);
        }
      }
    }

    method TurnLeft(tmp: nat) returns (t: nat)
      requires tmp in store && store[tmp].right in store && store[tmp].right != tmp && tmp != 0 && store[tmp].right != 0
      requires tmp !in {store[tmp].left, store[store[tmp].right].left, store[store[tmp].right].right}
      requires store[tmp].right !in {store[tmp].left, store[store[tmp].right].left, store[store[tmp].right].right}
      modifies this`store
      ensures t == old(store[tmp].right) && SameBut(old(store), store, {tmp, t}) && store.Keys == old(store).Keys
      ensures var x, y := old(store[tmp]), old(store)[t];
              var size := old(SizeAt(x.left) + SizeAt(y.left)) + 1;
              && store[tmp] == Cell(x.left, y.left, x.level, size, x.item)
              && store[t] == Cell(tmp, y.right, y.level + 1, size + old(SizeAt(y.right)) + 1, y.item)
    {
      t := store[tmp].right;
      store := store[tmp := store[tmp].(right := store[t].left)];
      store := store[t := store[t].(left := tmp)];
      store := store[t := store[t].(level := store[t].level + 1)];
      Reaugment(tmp);
      Reaugment(t);
    }

    method RotateLeft(t0: nat, ghost s: Shape, ghost tree0: Tree) returns (t: nat, ghost s': Shape)
      requires Holds(store, t0, s, tree0)
      modifies this`store
      ensures Holds(store, t, s', Split(tree0)) && Nodes(s') == Nodes(s) && SameBut(old(store), store, Nodes(s))
      ensures SameItems(old(store), store) && store.Keys == old(store).Keys
    {
      hide Holds, Nodes, Split;
      t, s' := t0, s;
      NoSplit(tree0);
      Opened(store, t0, s, tree0);
      if t != 0 {
        Opened(store, store[t].right, s.right, tree0.right);
        if store[t].right != 0 {
          Opened(store, store[store[t].right].right, s.right.right, tree0.right.right);
          if LevelAt(store[store[t].right].right) == LevelAt(t) {
            Opened(store, store[t].left, s.left, tree0.left);
            Opened(store, store[store[t].right].left, s.right.left, tree0.right.left);
            ghost var m := store;
            var tmp := t;
            t := TurnLeft(tmp);
            s' := RotatedLeft(m, tmp, t, s, tree0, store);
          }
        }
      }
    }

    // `t[1] = skew(t[1])`
    method RotateChildRight(t: nat, ghost s: Shape, ghost tree0: Tree) returns (ghost s': Shape)
      requires Holds(store, t, s, tree0) && tree0.Node?
      modifies this`store
      ensures Holds(store, t, s', tree0.(right := Skew(tree0.right))) && Nodes(s') == Nodes(s)
      ensures SameBut(old(store), store, Nodes(s)) && SameItems(old(store), store) && store.Keys == old(store).Keys
    {
      hide Holds, Nodes, Skew;
      Opened(store, t, s, tree0);
      ghost var m := store;
      var c, sr := RotateRight(store[t].right, s.right, tree0.right);
      ghost var m1 := store;
      store := store[t := store[t].(right := c)];
      s' := RightReplaced(m, t, s, tree0, m1, c, sr, Skew(tree0.right));
    }

    // `t[1] = split(t[1])`
    method RotateChildLeft(t: nat, ghost s: Shape, ghost tree0: Tree) returns (ghost s': Shape)
      requires Holds(store, t, s, tree0) && tree0.Node?
      modifies this`store
      ensures Holds(store, t, s', tree0.(right := Split(tree0.right))) && Nodes(s') == Nodes(s)
      ensures SameBut(old(store), store, Nodes(s)) && SameItems(old(store), store) && store.Keys == old(store).Keys
    {
      hide Holds, Nodes, Split;
      Opened(store, t, s, tree0);
      ghost var m := store;
      var c, sr := RotateLeft(store[t].right, s.right, tree0.right);
      ghost var m1 := store;
      store := store[t := store[t].(right := c)];
      s' := RightReplaced(m, t, s, tree0, m1, c, sr, Split(tree0.right));
    }

    // `t[1][1] = skew(t[1][1])`
    method RotateGrandchildRight(t: nat, ghost s: Shape, ghost tree0: Tree) returns (ghost s': Shape)
      requires Holds(store, t, s, tree0) && tree0.Node?
      modifies this`store
      ensures Nodes(s') == Nodes(s)
      ensures Holds(store, t, s', if tree0.right.Nil? then tree0
          else tree0.(right := tree0.right.(right := Skew(tree0.right.right))))
      ensures SameBut(old(store), store, Nodes(s)) && SameItems(old(store), store) && store.Keys == old(store).Keys
    {
      hide Holds, Nodes, Skew;
      s' := s;
      Opened(store, t, s, tree0);
      Opened(store, store[t].right, s.right, tree0.right);
      if store[t].right != 0 {
        ghost var m := store;
        var c := store[t].right;
        ghost var sr := RotateChildRight(c, s.right, tree0.right);
        ghost var right := tree0.right.(right := Skew(tree0.right.right));
        assert store[t := store[t].(right := c)] == store;
        s' := RightReplaced(m, t, s, tree0, store, c, sr, right);
      }
    }

    method Lower(t: nat, ghost s: Shape, ghost tree0: Tree) returns (ghost tree1: Tree)
      requires Holds(store, t, s, tree0) && tree0.Node? && tree0.level >= 1
      modifies this`store
      ensures var level := tree0.level - 1;
              var right := if Level(tree0.right) > level then tree0.right.(level := level) else tree0.right;
              tree1 == tree0.(level := level, right := right) && Holds(store, t, s, tree1)
      ensures SameBut(old(store), store, Nodes(s)) && SameItems(old(store), store) && store.Keys == old(store).Keys
    {
      hide Holds, Nodes;
      ghost var m := store;
      Opened(m, t, s, tree0);
      Opened(m, store[t].right, s.right, tree0.right);
      store := store[t := store[t].(level := store[t].level - 1)];
      tree1 := tree0.(level := tree0.level - 1);
      Relabelled(m, t, s, tree0, store);
      if LevelAt(store[t].right) > store[t].level {
        ghost var m1 := store;
        store := store[store[t].right := store[store[t].right].(level := store[t].level)];
        Opened(m1, t, s, tree1);
        Relabelled(m1, m1[t].right, s.right, tree1.right, store);
        Framed(m1, store, m1[t].left, s.left, tree1.left, {m1[t].right});
        tree1 := tree1.(right := tree1.right.(level := tree1.level));
        Closed(store, s, tree1.left, tree1.right);
      }
    }

    // A node whose children may have fallen behind.
    method Rebalance(t0: nat, ghost s: Shape, ghost tree0: Tree) returns (t: nat, ghost s': Shape)
      requires Holds(store, t0, s, tree0) && tree0.Node?
      modifies this`store
      ensures Holds(store, t, s', Rebalanced(tree0)) && Nodes(s') == Nodes(s)
      ensures SameBut(old(store), store, Nodes(s)) && SameItems(old(store), store) && store.Keys == old(store).Keys
    {
      hide Holds, Nodes, Skew, Split;
      t, s' := t0, s;
      ghost var m := store;
      Opened(store, t, s, tree0);
      Opened(store, store[t].left, s.left, tree0.left);
      Opened(store, store[t].right, s.right, tree0.right);
      Reaugment(t);
      ghost var tree1 := Reaugmented(tree0);
      Relabelled(m, t, s, tree0, store);
      if LevelAt(store[t].left) + 1 < LevelAt(t) || LevelAt(store[t].right) + 1 < LevelAt(t) {
        tree1 := Lower(t, s, tree1);
        t, s' := Reorder(t, s, tree1);
      }
    }

    method Reorder(t0: nat, ghost s: Shape, ghost tree0: Tree) returns (t: nat, ghost s': Shape)
      requires Holds(store, t0, s, tree0) && tree0.Node?
      modifies this`store
      ensures Holds(store, t, s', Resplit(Reskew(tree0))) && Nodes(s') == Nodes(s)
      ensures SameBut(old(store), store, Nodes(s)) && SameItems(old(store), store) && store.Keys == old(store).Keys
    {
      hide Holds, Nodes, Skew, Split;
      StillNode(tree0);
      t, s' := RotateRight(t0, s, tree0);
      ghost var tree1 := Skew(tree0);
      s' := RotateChildRight(t, s', tree1);
      tree1 := tree1.(right := Skew(tree1.right));
      s' := RotateGrandchildRight(t, s', tree1);
      tree1 := Reskew(tree0);
      StillNode(tree1);
      t, s' := RotateLeft(t, s', tree1);
      s' := RotateChildLeft(t, s', Split(tree1));
    }

    // ---------- insertion

    method InsertBelow(t0: nat, item: Item, ghost s: Shape, ghost tree0: Tree) returns (t: nat, n: nat, ghost s': Shape)
      requires Holds(store, t0, s, tree0) && 0 !in store && next !in store && next != 0
      modifies this`store
      ensures Holds(store, t, s', Inserted(tree0, item)) && Nodes(s') <= Nodes(s) + {next}
      ensures SameBut(old(store), store, Nodes(s)) && SameItems(old(store), store)
          && store.Keys <= old(store).Keys + {next}
      ensures if FoundIn(tree0, item.key) == Nothing then n == next && n in store && store[n].item == item
          else n == 0 && next !in store
      decreases tree0
    {
      hide Holds, Nodes, Skew, Split;
      Opened(store, t0, s, tree0);
      if t0 == 0 {
        t, n := next, next;
        store := store[t := Cell(0, 0, 1, 1, item)];
        Empty(store);
        s' := Branch(t, Leaf, Leaf);
        Closed(store, s', Nil, Nil);
      } else {
        t, n, s' := t0, 0, s;
        ghost var m := store;
        ghost var tree1 := tree0;
        if item.key < store[t].item.key {
          var c, k, sl := InsertBelow(store[t].left, item, s.left, tree0.left);
          n, tree1 := k, tree0.(left := Inserted(tree0.left, item));
          ghost var m1 := store;
          store := store[t := store[t].(left := c)];
          s' := LeftGrown(m, t, s, tree0, m1, c, sl, tree1.left, next);
        } else if item.key > store[t].item.key {
          var c, k, sr := InsertBelow(store[t].right, item, s.right, tree0.right);
          n, tree1 := k, tree0.(right := Inserted(tree0.right, item));
          ghost var m1 := store;
          store := store[t := store[t].(right := c)];
          s' := RightGrown(m, t, s, tree0, m1, c, sr, tree1.right, next);
        }
        t, s' := Settle(t, s', tree1);
      }
    }

    // `t = skew(t); t = split(t); reaugment(t)`
    method Settle(t0: nat, ghost s: Shape, ghost tree0: Tree) returns (t: nat, ghost s': Shape)
      requires Holds(store, t0, s, tree0) && tree0.Node?
      modifies this`store
      ensures Holds(store, t, s', Reaugmented(Split(Skew(tree0)))) && Nodes(s') == Nodes(s)
      ensures SameBut(old(store), store, Nodes(s)) && SameItems(old(store), store) && store.Keys == old(store).Keys
    {
      hide Holds, Nodes, Skew, Split;
      StillNode(tree0);
      t, s' := RotateRight(t0, s, tree0);
      StillNode(Skew(tree0));
      t, s' := RotateLeft(t, s', Skew(tree0));
      ghost var m, tree1 := store, Split(Skew(tree0));
      Opened(m, t, s', tree1);
      Opened(m, m[t].left, s'.left, tree1.left);
      Opened(m, m[t].right, s'.right, tree1.right);
      Reaugment(t);
      Relabelled(m, t, s', tree1, store);
    }

    // ---------- removal

    method TransferContents(from: nat, to: nat)
      requires from in store && to in store
      modifies this`store
      ensures store == old(store)[to := old(store[to]).(item := old(store[from].item))]
    {
      store := store[to := store[to].(item := store[from].item)];
    }

    // The last node of the path gives its item to the one to be deleted, and goes.
    method Unlink(t0: nat, ghost s: Shape, ghost tree0: Tree) returns (t: nat, ghost s': Shape)
      requires Holds(store, t0, s, tree0) && tree0.Node?
      requires deleted in store && (deleted == t0 || deleted !in Nodes(s))
      modifies this`store, this`deleted
      ensures Holds(store, t, s', tree0.right) && Nodes(s') <= Nodes(s) && deleted == 0
      ensures SameBut(old(store), store, {old(deleted)}) && store.Keys == old(store).Keys
      ensures Received(old(store), store, old(deleted), Moved(tree0.item))
    {
      hide Holds, Nodes;
      ghost var m, d := store, deleted;
      Opened(m, t0, s, tree0);
      s' := s.right;
      TransferContents(t0, deleted);
      t := store[t0].right;
      Reaugment(deleted);
      deleted := 0;
      Framed(m, store, m[t0].right, s.right, tree0.right, {d});
    }

    // `found` says that `deleted`, a node further up, has the key.
    method RemoveBelow(t0: nat, key: int, ghost s: Shape, ghost tree0: Tree, ghost found: bool)
        returns (t: nat, ghost s': Shape)
      requires Holds(store, t0, s, tree0)
      requires found == (deleted != 0 && deletedEqual) && (deleted != 0 ==> deleted in store && deleted !in Nodes(s))
      modifies this`store, this`deleted, this`last, this`deletedEqual
      ensures Holds(store, t, s', RemovedFrom(tree0, key, found).tree) && Nodes(s') <= Nodes(s)
      ensures SameBut(old(store), store, Nodes(s) + {old(deleted)}) && store.Keys == old(store).Keys
      ensures old(deleted) != 0 ==> Received(old(store), store, old(deleted), RemovedFrom(tree0, key, found).moved)
      ensures t0 == 0 ==>
                && last == old(last) && deleted == old(deleted) && deletedEqual == old(deletedEqual)
                && store == old(store)
      ensures t0 != 0 ==> last in Nodes(s)
      decreases tree0, 1
    {
      hide Holds, Nodes, RemovedFrom;
      t, s' := t0, s;
      Opened(store, t, s, tree0);
      NodesInside(store, t, s, tree0);
      if t == 0 {
        RemovedNil(key, found);
      } else {
        last := t;
        if key < store[t].item.key {
          t, s' := RemoveLeft(t, key, s, tree0, found);
        } else {
          t, s' := RemoveRight(t, key, s, tree0, found);
        }
      }
    }

    method RemoveLeft(t0: nat, key: int, ghost s: Shape, ghost tree0: Tree, ghost found: bool)
        returns (t: nat, ghost s': Shape)
      requires Holds(store, t0, s, tree0) && tree0.Node? && last == t0 && key < tree0.item.key
      requires found == (deleted != 0 && deletedEqual) && (deleted != 0 ==> deleted in store) && deleted !in Nodes(s)
      modifies this`store, this`deleted, this`last, this`deletedEqual
      ensures Holds(store, t, s', RemovedFrom(tree0, key, found).tree) && Nodes(s') <= Nodes(s)
      ensures SameBut(old(store), store, Nodes(s) + {old(deleted)}) && store.Keys == old(store).Keys
      ensures old(deleted) != 0 ==> Received(old(store), store, old(deleted), RemovedFrom(tree0, key, found).moved)
      ensures last in Nodes(s)
      decreases tree0, 0
    {
      hide Holds, Nodes, Rebalanced, RemovedFrom;
      t := t0;
      ghost var m := store;
      Opened(m, t, s, tree0);
      Opened(m, m[t].left, s.left, tree0.left);
      ghost var r := RemovedFrom(tree0.left, key, found);
      RemovedLeft(tree0, key, found);
      var c, sl := RemoveBelow(store[t].left, key, s.left, tree0.left, found);
      ghost var m1 := store;
      store := store[t := store[t].(left := c)];
      ghost var tree1 := tree0.(left := r.tree);
      s' := LeftShrunk(m, t, s, tree0, m1, c, sl, r.tree, old(deleted));
      if t == last && deleted != 0 && deletedEqual {
        t, s' := Unlink(t, s', tree1);
      } else {
        t, s' := Rebalance(t, s', tree1);
      }
    }

    method RemoveRight(t0: nat, key: int, ghost s: Shape, ghost tree0: Tree, ghost found: bool)
        returns (t: nat, ghost s': Shape)
      requires Holds(store, t0, s, tree0) && tree0.Node? && last == t0 && key >= tree0.item.key
      requires deleted != 0 ==> deleted in store && deleted !in Nodes(s)
      modifies this`store, this`deleted, this`last, this`deletedEqual
      ensures Holds(store, t, s', RemovedFrom(tree0, key, found).tree) && Nodes(s') <= Nodes(s)
      ensures SameBut(old(store), store, Nodes(s)) && store.Keys == old(store).Keys
      ensures RemovedFrom(tree0, key, found).moved == Nothing && last in Nodes(s)
      decreases tree0, 0
    {
      hide Holds, Nodes, Rebalanced, RemovedFrom;
      t := t0;
      ghost var m := store;
      Opened(m, t, s, tree0);
      NodesInside(m, t, s, tree0);
      Opened(m, m[t].right, s.right, tree0.right);
      ghost var found' := key == tree0.item.key;
      ghost var r := RemovedFrom(tree0.right, key, found');
      deleted := t;
      deletedEqual := key == store[t].item.key;
      var c, sr := RemoveBelow(store[t].right, key, s.right, tree0.right, found');
      ghost var m1 := store;
      store := store[t := store[t].(right := c)];
      ghost var tree1 := tree0.(right := r.tree, item := store[t].item, size := store[t].size);
      RemovedRight(tree0, key, found, store[t].size);
      s' := RightShrunk(m, t, s, tree0, m1, c, sr, r.tree);
      if t == last && deleted != 0 && deletedEqual {
        t, s' := Unlink(t, s', tree1);
      } else {
        t, s' := Rebalance(t, s', tree1);
      }
    }

    // ---------- the operations

    ghost predicate Valid()
      reads this
    {
      Holds(store, root, shape, tree) && IsSearchTree(tree) && 0 < next && forall n :: n in store ==> 0 < n < next
    }

    constructor ()
      ensures Valid() && tree == Nil
    {
      store := map[];
      root := 0;
      next := 1;
      shape := Leaf;
      tree := Nil;
      deleted, last, deletedEqual := 0, 0, false;
    }

    // The number of the new node; none if the key is there already.
    method Insert(item: Item) returns (n: nat)
      requires Valid()
      modifies this
      ensures Valid() && Inorder(tree) == Placed(old(Inorder(tree)), item)
      ensures if NoKey(old(Inorder(tree)), item.key) then n in store && n !in old(store) && store[n].item == item
          else n == 0
    {
      hide Holds, Nodes, Inserted, Balanced, Sized, Inorder, Placed, FoundIn, Increasing;
      InsertionKeeps(tree, item);
      InsertedContents(tree, item);
      LookupIsRight(tree, item.key);
      ghost var s';
      root, n, s' := InsertBelow(root, item, shape, tree);
      if n != 0 { next := next + 1; }
      shape := s';
      tree := Inserted(tree, item);
    }

    method Remove(key: int)
      requires Valid()
      modifies this
      ensures Valid() && Inorder(tree) == Without(old(Inorder(tree)), key)
    {
      hide Holds, Nodes, RemovedFrom, Balanced, Sized, Inorder, Without, Increasing;
      RemovalKeeps(tree, key);
      RemovedContents(tree, key, false);
      deleted, deletedEqual := 0, false;
      ghost var s';
      root, s' := RemoveBelow(root, key, shape, tree, false);
      shape := s';
      tree := RemovedFrom(tree, key, false).tree;
      RemovesMeans(old(tree), key);
    }

    // `steps`: how many nodes were looked at.
    method FindBelow(t: nat, key: int, ghost s: Shape, ghost tree0: Tree) returns (n: nat, ghost steps: nat)
      requires Holds(store, t, s, tree0)
      ensures if FoundIn(tree0, key) == Nothing then n == 0
          else n in store && Moved(store[n].item) == FoundIn(tree0, key)
      ensures steps <= Height(tree0)
      decreases tree0
    {
      hide Holds, Nodes, FoundIn;
      Opened(store, t, s, tree0);
      FoundStep(tree0, key);
      steps := 0;
      if t == 0 {
        n := t;
      } else if key < store[t].item.key {
        n, steps := FindBelow(store[t].left, key, s.left, tree0.left);
        steps := steps + 1;
      } else if key > store[t].item.key {
        n, steps := FindBelow(store[t].right, key, s.right, tree0.right);
        steps := steps + 1;
      } else {
        n, steps := t, 1;
      }
    }

    // Looks at no more nodes than twice the logarithm of their number.
    method Find(key: int) returns (n: nat, ghost steps: nat)
      requires Valid()
      ensures if NoKey(Inorder(tree), key) then n == 0
              else n in store && store[n].item in Inorder(tree) && store[n].item.key == key
      ensures Pow2(steps / 2) <= |Inorder(tree)| + 1
    {
      hide Holds, Nodes, FoundIn, Inorder, Balanced, Sized, Increasing;
      LookupIsRight(tree, key);
      n, steps := FindBelow(root, key, shape, tree);
      DepthIsLogarithmic(tree);
      PowersGrow(steps / 2, Height(tree) / 2);
    }
  }

  lemma FoundStep(t: Tree, key: int)
    ensures t.Nil? ==> FoundIn(t, key) == Nothing
    ensures t.Node? && key < t.item.key ==> FoundIn(t, key) == FoundIn(t.left, key)
    ensures t.Node? && key > t.item.key ==> FoundIn(t, key) == FoundIn(t.right, key)
    ensures t.Node? && key == t.item.key ==> FoundIn(t, key) == Moved(t.item)
  {}

  lemma RemovesMeans(t: Tree, key: int)
    requires RemovesRight(t, key, false)
    ensures Inorder(RemovedFrom(t, key, false).tree) == Without(Inorder(t), key)
  {}

  lemma RemovedNil(key: int, found: bool)
    ensures RemovedFrom(Nil, key, found) == Removal(Nil, Nothing)
  {}

  lemma RemovedLeft(t: Tree, key: int, found: bool)
    requires t.Node? && key < t.item.key
    ensures var r := RemovedFrom(t.left, key, found);
            RemovedFrom(t, key, found) == if t.left.Nil? && found then Removal(t.right, Moved(t.item))
                                          else Removal(Rebalanced(t.(left := r.tree)), r.moved)
    ensures t.left.Nil? ==> RemovedFrom(t.left, key, found) == Removal(Nil, Nothing)
  {}

  // The size that the node has in between does not matter.
  lemma RemovedRight(t: Tree, key: int, found: bool, size: nat)
    requires t.Node? && key >= t.item.key
    ensures var r := RemovedFrom(t.right, key, key == t.item.key);
            var item := if r.moved.Moved? then r.moved.item else t.item;
            RemovedFrom(t, key, found) == Removal(if t.right.Nil? && key == t.item.key then r.tree
                                                  else Rebalanced(t.(right := r.tree, item := item, size := size)),
                                                      Nothing)
    ensures t.right.Nil? ==> RemovedFrom(t.right, key, key == t.item.key) == Removal(Nil, Nothing)
  {
    hide Lowered;
    var r := RemovedFrom(t.right, key, key == t.item.key);
    var item := if r.moved.Moved? then r.moved.item else t.item;
    assert Reaugmented(t.(right := r.tree, item := item, size := size))
        == Reaugmented(t.(right := r.tree, item := item));
  }

  // The node has got the item that was moved to it, if one was; its size may be anything.
  ghost predicate Received(m: Store, m': Store, n: nat, moved: Transfer) {
    n in m && n in m' && m'[n] == m[n].(item := if moved.Moved? then moved.item else m[n].item, size := m'[n].size)
  }

  lemma LeftShrunk(m: Store, t: nat, s: Shape, tree: Tree, m': Store, c: nat, sl: Shape, left: Tree, d: nat)
      returns (s': Shape)
    requires Holds(m, t, s, tree) && tree.Node? && SameBut(m, m', Nodes(s.left) + {d}) && Holds(m', c, sl, left)
    requires Nodes(sl) <= Nodes(s.left) && d !in Nodes(s)
    ensures t in m' && t in m && m'[t] == m[t]
    ensures var m'' := m'[t := m'[t].(left := c)];
            && Holds(m'', t, s', tree.(left := left)) && SameBut(m, m'', Nodes(s) + {d}) && Nodes(s') <= Nodes(s)
  {
    hide Holds, Nodes;
    Opened(m, t, s, tree);
    var m'' := m'[t := m'[t].(left := c)];
    Framed(m', m'', c, sl, left, {t});
    Framed(m, m'', m[t].right, s.right, tree.right, Nodes(s.left) + {t} + {d});
    s' := Branch(t, sl, s.right);
    Closed(m'', s', left, tree.right);
  }

  lemma RightShrunk(m: Store, t: nat, s: Shape, tree: Tree, m': Store, c: nat, sr: Shape, right: Tree)
      returns (s': Shape)
    requires Holds(m, t, s, tree) && tree.Node? && SameBut(m, m', Nodes(s.right) + {t}) && Holds(m', c, sr, right)
    requires Nodes(sr) <= Nodes(s.right) && t in m && t in m' && m'[t].left == m[t].left && m'[t].level == m[t].level
    ensures var m'' := m'[t := m'[t].(right := c)];
            && Holds(m'', t, s', tree.(right := right, item := m'[t].item, size := m'[t].size))
            && SameBut(m, m'', Nodes(s)) && Nodes(s') <= Nodes(s)
  {
    hide Holds, Nodes;
    Opened(m, t, s, tree);
    var m'' := m'[t := m'[t].(right := c)];
    Framed(m', m'', c, sr, right, {t});
    Framed(m, m'', m[t].left, s.left, tree.left, Nodes(s.right) + {t});
    s' := Branch(t, s.left, sr);
    Closed(m'', s', tree.left, right);
  }

  lemma LeftGrown(m: Store, t: nat, s: Shape, tree: Tree, m': Store, c: nat, sl: Shape, left: Tree, fresh_: nat)
      returns (s': Shape)
    requires Holds(m, t, s, tree) && tree.Node? && SameBut(m, m', Nodes(s.left)) && Holds(m', c, sl, left)
    requires Nodes(sl) <= Nodes(s.left) + {fresh_} && fresh_ !in m
    ensures t in m' && t in m && m'[t] == m[t]
    ensures var m'' := m'[t := m'[t].(left := c)];
            && Holds(m'', t, s', tree.(left := left)) && SameBut(m, m'', Nodes(s)) && Nodes(s') <= Nodes(s) + {fresh_}
  {
    hide Holds, Nodes;
    Opened(m, t, s, tree);
    NodesInside(m, m[t].right, s.right, tree.right);
    var m'' := m'[t := m'[t].(left := c)];
    Framed(m', m'', c, sl, left, {t});
    Framed(m, m'', m[t].right, s.right, tree.right, Nodes(s.left) + {t});
    s' := Branch(t, sl, s.right);
    Closed(m'', s', left, tree.right);
  }

  lemma RightGrown(m: Store, t: nat, s: Shape, tree: Tree, m': Store, c: nat, sr: Shape, right: Tree, fresh_: nat)
      returns (s': Shape)
    requires Holds(m, t, s, tree) && tree.Node? && SameBut(m, m', Nodes(s.right)) && Holds(m', c, sr, right)
    requires Nodes(sr) <= Nodes(s.right) + {fresh_} && fresh_ !in m
    ensures t in m' && t in m && m'[t] == m[t]
    ensures var m'' := m'[t := m'[t].(right := c)];
            && Holds(m'', t, s', tree.(right := right)) && SameBut(m, m'', Nodes(s)) && Nodes(s') <= Nodes(s) + {fresh_}
  {
    hide Holds, Nodes;
    Opened(m, t, s, tree);
    NodesInside(m, m[t].left, s.left, tree.left);
    var m'' := m'[t := m'[t].(right := c)];
    Framed(m', m'', c, sr, right, {t});
    Framed(m, m'', m[t].left, s.left, tree.left, Nodes(s.right) + {t});
    s' := Branch(t, s.left, sr);
    Closed(m'', s', tree.left, right);
  }

  lemma {:induction false} NodesInside(m: Store, t: nat, s: Shape, tree: Tree)
    requires Holds(m, t, s, tree)
    ensures Nodes(s) <= m.Keys && 0 !in Nodes(s)
    decreases s
  {
    if s.Branch? {
      NodesInside(m, m[t].left, s.left, tree.left);
      NodesInside(m, m[t].right, s.right, tree.right);
    }
  }

  lemma NoSkew(t: Tree)
    ensures !(t.Node? && t.left.Node? && t.left.level == t.level) ==> Skew(t) == t
  {}

  lemma NoSplit(t: Tree)
    ensures !(t.Node? && t.right.Node? && Level(t.right.right) == t.level) ==> Split(t) == t
  {}

  lemma StillNode(t: Tree)
    ensures t.Node? ==> Skew(t).Node? && Split(t).Node?
  {}

  lemma RightReplaced(m: Store, t: nat, s: Shape, tree: Tree, m': Store, c: nat, sr: Shape, right: Tree)
      returns (s': Shape)
    requires Holds(m, t, s, tree) && tree.Node? && SameBut(m, m', Nodes(s.right)) && Holds(m', c, sr, right)
        && Nodes(sr) <= Nodes(s.right)
    ensures t in m' && t in m && m'[t] == m[t]
    ensures var m'' := m'[t := m'[t].(right := c)];
            && Holds(m'', t, s', tree.(right := right)) && SameBut(m, m'', Nodes(s))
            && (Nodes(sr) == Nodes(s.right) ==> Nodes(s') == Nodes(s)) && Nodes(s') <= Nodes(s)
  {
    hide Holds, Nodes;
    Opened(m, t, s, tree);
    var m'' := m'[t := m'[t].(right := c)];
    Framed(m', m'', c, sr, right, {t});
    Framed(m, m'', m[t].left, s.left, tree.left, Nodes(s.right) + {t});
    s' := Branch(t, s.left, sr);
    Closed(m'', s', tree.left, right);
  }

  // A change of the root's level, size or item.
  lemma Relabelled(m: Store, t: nat, s: Shape, tree: Tree, m': Store)
    requires Holds(m, t, s, tree) && tree.Node? && SameBut(m, m', {t}) && t in m' && t in m
    requires m'[t].left == m[t].left && m'[t].right == m[t].right
    ensures Holds(m', t, s, tree.(item := m'[t].item, level := m'[t].level, size := m'[t].size))
  {
    hide Holds, Nodes;
    Opened(m, t, s, tree);
    Framed(m, m', m[t].left, s.left, tree.left, {t});
    Framed(m, m', m[t].right, s.right, tree.right, {t});
    Closed(m', s, tree.left, tree.right);
  }

  lemma RotatedRight(m: Store, tmp: nat, t: nat, s: Shape, tree: Tree, m': Store) returns (s': Shape)
    requires Holds(m, tmp, s, tree) && tree.Node? && tree.left.Node? && tree.left.level == tree.level
    requires tmp in m && t == m[tmp].left && t in m && SameBut(m, m', {tmp, t}) && tmp in m' && t in m'
    requires var size := Size(tree.left.right) + Size(tree.right) + 1;
             && m'[tmp] == Cell(m[t].right, m[tmp].right, m[tmp].level, size, m[tmp].item)
             && m'[t] == Cell(m[t].left, tmp, m[t].level, Size(tree.left.left) + size + 1, m[t].item)
    ensures Holds(m', t, s', Skew(tree)) && Nodes(s') == Nodes(s) && SameBut(m, m', Nodes(s))
  {
    hide Holds, Nodes;
    Opened(m, tmp, s, tree);
    Opened(m, t, s.left, tree.left);
    Framed(m, m', m[t].left, s.left.left, tree.left.left, {tmp, t});
    Framed(m, m', m[t].right, s.left.right, tree.left.right, {tmp, t});
    Framed(m, m', m[tmp].right, s.right, tree.right, {tmp, t});
    var low := Branch(tmp, s.left.right, s.right);
    Closed(m', low, tree.left.right, tree.right);
    s' := Branch(t, s.left.left, low);
    Closed(m', s', tree.left.left, Reaugmented(tree.(left := tree.left.right)));
  }

  lemma RotatedLeft(m: Store, tmp: nat, t: nat, s: Shape, tree: Tree, m': Store) returns (s': Shape)
    requires Holds(m, tmp, s, tree) && tree.Node? && tree.right.Node? && Level(tree.right.right) == tree.level
    requires tmp in m && t == m[tmp].right && t in m && SameBut(m, m', {tmp, t}) && tmp in m' && t in m'
    requires var size := Size(tree.left) + Size(tree.right.left) + 1;
             && m'[tmp] == Cell(m[tmp].left, m[t].left, m[tmp].level, size, m[tmp].item)
             && m'[t] == Cell(tmp, m[t].right, m[t].level + 1, size + Size(tree.right.right) + 1, m[t].item)
    ensures Holds(m', t, s', Split(tree)) && Nodes(s') == Nodes(s) && SameBut(m, m', Nodes(s))
  {
    hide Holds, Nodes;
    Opened(m, tmp, s, tree);
    Opened(m, t, s.right, tree.right);
    Framed(m, m', m[tmp].left, s.left, tree.left, {tmp, t});
    Framed(m, m', m[t].left, s.right.left, tree.right.left, {tmp, t});
    Framed(m, m', m[t].right, s.right.right, tree.right.right, {tmp, t});
    var low := Branch(tmp, s.left, s.right.left);
    Closed(m', low, tree.left, tree.right.left);
    s' := Branch(t, low, s.right.right);
    Closed(m', s', Reaugmented(tree.(right := tree.right.left)), tree.right.right);
  }
}
