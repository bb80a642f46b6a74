/** `bbtree.js`: the rotations of an AA tree and what insertion and removal make of it, as values. */
module BalancedTree {

  datatype Item = Item(key: int, entry: int)

  // `level` and `size` are stored in the nodes.
  datatype Tree = Nil | Node(left: Tree, item: Item, level: nat, size: nat, right: Tree)

  function Level(t: Tree): nat { if t.Nil? then 0 else t.level }

  function Size(t: Tree): nat { if t.Nil? then 0 else t.size }

  // The size that `augment` computes from the children.
  function Reaugmented(t: Tree): Tree {
    if t.Nil? then t else t.(size := Size(t.left) + Size(t.right) + 1)
  }

  function Inorder(t: Tree): seq<Item> {
    if t.Nil? then [] else Inorder(t.left) + [t.item] + Inorder(t.right)
  }

  // ---------- what a tree keeps

  // Left children are one level down, right ones at most one, and no two right links in a
  // row stay on a level.
  ghost predicate Balanced(t: Tree) {
    t.Node? ==>
      && Balanced(t.left) && Balanced(t.right) && t.level >= 1
      && Level(t.left) == t.level - 1
      && t.level - 1 <= Level(t.right) <= t.level
      && (t.right.Node? ==> Level(t.right.right) < t.level)
  }

  // Sizes are those of the subtrees.
  ghost predicate Sized(t: Tree) {
    t.Node? ==> Sized(t.left) && Sized(t.right) && t.size == |Inorder(t)|
  }

  ghost predicate Increasing(s: seq<Item>) {
    forall i, j :: 0 <= i < j < |s| ==> s[i].key < s[j].key
  }

  // ---------- rotations

  function Skew(t: Tree): Tree {
    if t.Node? && t.left.Node? && t.left.level == t.level then
      var tmp := Reaugmented(t.(left := t.left.right));
      Reaugmented(t.left.(right := tmp))
    else t
  }

  function Split(t: Tree): Tree {
    if t.Node? && t.right.Node? && Level(t.right.right) == t.level then
      var tmp := Reaugmented(t.(right := t.right.left));
      Reaugmented(t.right.(left := tmp, level := t.right.level + 1))
    else t
  }

  // A subtree with sound sizes below its root.
  ghost predicate SizedBelow(t: Tree) { t.Node? ==> Sized(t.left) && Sized(t.right) }

  lemma ReaugmentedIs(t: Tree)
    requires SizedBelow(t)
    ensures Sized(Reaugmented(t)) && Inorder(Reaugmented(t)) == Inorder(t)
  {
    if t.Node? {
      SizeIs(t.left);
      SizeIs(t.right);
    }
  }

  lemma SizeIs(t: Tree)
    requires Sized(t)
    ensures Size(t) == |Inorder(t)|
  {}

  // Rotations keep the order, whatever the levels.
  lemma SkewKeeps(t: Tree)
    requires SizedBelow(t)
    ensures Inorder(Skew(t)) == Inorder(t) && SizedBelow(Skew(t)) && (Sized(t) ==> Sized(Skew(t)))
  {
    if t.Node? && t.left.Node? && t.left.level == t.level {
      var low := t.(left := t.left.right);
      ReaugmentedIs(low);
      ReaugmentedIs(t.left.(right := Reaugmented(low)));
      InThree(Inorder(t.left.left), [t.left.item], Inorder(t.left.right), [t.item], Inorder(t.right));
    }
  }

  lemma SplitKeeps(t: Tree)
    requires SizedBelow(t)
    ensures Inorder(Split(t)) == Inorder(t) && SizedBelow(Split(t)) && (Sized(t) ==> Sized(Split(t)))
  {
    if t.Node? && t.right.Node? && Level(t.right.right) == t.level {
      var low := t.(right := t.right.left);
      ReaugmentedIs(low);
      ReaugmentedIs(t.right.(left := Reaugmented(low), level := t.right.level + 1));
      InThree(Inorder(t.left), [t.item], Inorder(t.right.left), [t.right.item], Inorder(t.right.right));
    }
  }

  lemma InThree<T>(a: seq<T>, b: seq<T>, c: seq<T>, d: seq<T>, e: seq<T>)
    ensures a + b + c + d + e == a + b + (c + d + e)
  {}

  lemma Parts(t: Tree)
    requires Balanced(t) && t.Node?
    ensures Balanced(t.left) && Balanced(t.right) && t.level >= 1
    ensures Level(t.left) == t.level - 1 && t.level - 1 <= Level(t.right) <= t.level
    ensures t.right.Node? ==> Level(t.right.right) < t.level
  {}

  lemma Whole(t: Tree)
    requires t.Node? && Balanced(t.left) && Balanced(t.right) && t.level >= 1
    requires Level(t.left) == t.level - 1 && t.level - 1 <= Level(t.right) <= t.level
    requires t.right.Node? ==> Level(t.right.right) < t.level
    ensures Balanced(t)
  {}

  // ---------- insertion

  function Inserted(t: Tree, item: Item): Tree {
    if t.Nil? then Node(Nil, item, 1, 1, Nil)
    else
      var t1 := if item.key < t.item.key then t.(left := Inserted(t.left, item))
                else if item.key > t.item.key then t.(right := Inserted(t.right, item))
                else t;
      Reaugmented(Split(Skew(t1)))
  }

  // An insertion leaves the level of the tree alone, or raises a root that had a right link
  // on its level to a new one that has not.
  ghost predicate Grown(t: Tree, t': Tree) {
    && Balanced(t') && t'.Node?
    && (Level(t') == Level(t)
        || (Level(t') == Level(t) + 1 && Level(t'.right) == Level(t) && (t.Node? ==> Level(t.right) == Level(t))))
  }

  // The level of `t'` is `level`, or one more, with a right child one down.
  ghost predicate GrownTo(t': Tree, level: nat, raisable: bool) {
    && Balanced(t') && t'.Node?
    && (t'.level == level || (raisable && t'.level == level + 1 && Level(t'.right) == level))
  }

  lemma LeftGrew(t: Tree)
    requires t.Node? && t.level >= 1 && Balanced(t.left) && Balanced(t.right)
    requires t.left.Node? && t.left.level == t.level && Level(t.left.right) == t.level - 1
    requires t.level - 1 <= Level(t.right) <= t.level && (t.right.Node? ==> Level(t.right.right) < t.level)
    ensures GrownTo(Reaugmented(Split(Skew(t))), t.level, Level(t.right) == t.level)
  {
    hide Balanced;
    Parts(t.left);
    var low := Reaugmented(t.(left := t.left.right));
    Whole(low);
    var s := Skew(t);
    assert s == Reaugmented(t.left.(right := low));
    if Level(t.right) == t.level {
      Whole(Reaugmented(s.(right := low.left)));
    }
    Whole(Reaugmented(Split(s)));
  }

  lemma RightGrew(t: Tree)
    requires t.Node? && t.level >= 1 && Balanced(t.left) && Balanced(t.right)
    requires Level(t.left) == t.level - 1 && t.level - 1 <= Level(t.right) <= t.level
    ensures GrownTo(Reaugmented(Split(Skew(t))), t.level, t.right.Node? && Level(t.right.right) == t.level)
  {
    hide Balanced;
    if t.right.Node? { Parts(t.right); }
    assert Skew(t) == t;
    if t.right.Node? && Level(t.right.right) == t.level {
      Parts(t.right.right);
      Whole(Reaugmented(t.(right := t.right.left)));
    }
    Whole(Reaugmented(Split(t)));
  }

  lemma SplitSkewBalances(t: Tree, t1: Tree)
    requires Balanced(t) && t.Node? && t1.Node? && t1.level == t.level
    requires || (t1.right == t.right && Grown(t.left, t1.left))
             || (t1.left == t.left && Grown(t.right, t1.right))
             || (t1.left == t.left && t1.right == t.right)
    ensures Grown(t, Reaugmented(Split(Skew(t1))))
  {
    hide Balanced, Skew, Split;
    Parts(t);
    if t.right.Node? { Parts(t.right); }
    if t1.right.Node? { Parts(t1.right); }
    if Level(t1.left) == t1.level { LeftGrew(t1); } else { RightGrew(t1); }
  }

  lemma {:induction false} InsertedIsBalanced(t: Tree, item: Item)
    requires Balanced(t)
    ensures Grown(t, Inserted(t, item))
  {
    hide Skew, Split;
    if t.Node? {
      InsertedIsBalanced(t.left, item);
      InsertedIsBalanced(t.right, item);
      var t1 := if item.key < t.item.key then t.(left := Inserted(t.left, item))
                else if item.key > t.item.key then t.(right := Inserted(t.right, item))
                else t;
      SplitSkewBalances(t, t1);
    }
  }

  // ---------- removal

  // An item, or none.
  datatype Transfer = Nothing | Moved(item: Item)

  datatype Removal = Removal(tree: Tree, moved: Transfer)

  // A level that a child has fallen behind is given up, and the right links it leaves are
  // put in order again.
  function Rebalanced(t: Tree): Tree
    requires t.Node?
  {
    var t0 := Reaugmented(t);
    if Level(t0.left) + 1 < t0.level || Level(t0.right) + 1 < t0.level then Lowered(t0) else t0
  }

  function Lowered(t: Tree): Tree
    requires t.Node? && t.level >= 1
  {
    var level := t.level - 1;
    var right := if Level(t.right) > level then t.right.(level := level) else t.right;
    Resplit(Reskew(t.(level := level, right := right)))
  }

  function Reskew(t: Tree): Tree
    requires t.Node?
  {
    var t1 := Skew(t);
    var t2 := t1.(right := Skew(t1.right));
    if t2.right.Nil? then t2 else t2.(right := t2.right.(right := Skew(t2.right.right)))
  }

  function Resplit(t: Tree): Tree
    requires t.Node?
  {
    var t1 := Split(t);
    t1.(right := Split(t1.right))
  }

  // `found` says that a node above has the key: the first item of this tree is then moved up
  // to it. Otherwise the key is looked for here.
  function RemovedFrom(t: Tree, key: int, found: bool): Removal {
    if t.Nil? then Removal(t, Nothing)
    else
      var found' := if key < t.item.key then found else key == t.item.key;
      var goesLeft := key < t.item.key;
      var child := if goesLeft then t.left else t.right;
      var r := RemovedFrom(child, key, found');
      var t1 := if goesLeft then t.(left := r.tree) else t.(right := r.tree);
      if child.Nil? && found' then
        Removal(t1.right, if goesLeft then Moved(t.item) else Nothing)
      else
        Removal(Rebalanced(if !goesLeft && r.moved.Moved? then t1.(item := r.moved.item) else t1),
                if goesLeft then r.moved else Nothing)
  }

  // A removal leaves the level alone, or lowers it by one; and it makes no right link on the
  // root's level.
  ghost predicate Shrunk(t: Tree, t': Tree) {
    && Balanced(t')
    && (Level(t') == Level(t) || Level(t') + 1 == Level(t))
    && (Level(t') == Level(t) && t.Node? && t'.Node? && Level(t.right) < Level(t) ==> Level(t'.right) < Level(t'))
  }

  // Both children of the lowered root are below its new level, or the right one is on it.
  lemma LeftFell(t: Tree)
    requires t.Node? && t.level >= 2 && Balanced(t.left) && Balanced(t.right)
    requires Level(t.left) == t.level - 2 && Level(t.right) == t.level - 1
    ensures var t' := Lowered(t);
            Balanced(t') && t'.Node? && t.level - 1 <= t'.level <= t.level
                && (t'.level == t.level ==> Level(t'.right) < t.level)
  {
    hide Balanced;
    var r := t.right;
    Parts(r);
    var s := t.(level := t.level - 1);
    if r.left.Node? { Parts(r.left); }
    if r.right.Node? { Parts(r.right); if r.right.left.Node? { Parts(r.right.left); } }
    assert Reskew(s) == s;
    if Level(r.right) == s.level {
      Whole(Reaugmented(s.(right := r.left)));
      Whole(Split(s));
      assert Split(r.right) == r.right;
    } else {
      Whole(s);
      assert Split(s) == s && Split(r) == r;
    }
  }

  // The right child was on the root's level, and is lowered with it. Its left child comes to
  // stand between the two, and the right child of that one may follow.
  ghost predicate DeepRight(t: Tree, k: nat) {
    && t.Node? && t.level == k + 1 && k >= 1 && Balanced(t.left) && Balanced(t.right)
    && Level(t.left) == k - 1 && Level(t.right) == k + 1 && Level(t.right.right) == k
  }

  lemma LoweredDeep(t: Tree, k: nat, r1: Tree)
    requires DeepRight(t, k) && r1 == Reaugmented(t.right.(level := k, left := t.right.left.right))
    ensures t.right.left.Node?
    ensures var rl := t.right.left;
            var low := Reaugmented(t.(level := k, right := rl.left));
            Lowered(t) == Reaugmented(rl.(left := low, level := k + 1, right := Skew(r1))).(right := Split(Skew(r1)))
    ensures Balanced(Reaugmented(t.(level := k, right := t.right.left.left)))
  {
    hide Balanced;
    Parts(t.right);
    var rl := t.right.left;
    Parts(rl);
    var s := t.(level := k, right := t.right.(level := k));
    assert Skew(s) == s && Skew(s.right) == Reaugmented(rl.(right := r1));
    Whole(Reaugmented(t.(level := k, right := rl.left)));
  }

  lemma DeepRightSplits(t: Tree, k: nat, r1: Tree)
    requires DeepRight(t, k) && t.right.left.Node?
        && r1 == Reaugmented(t.right.(level := k, left := t.right.left.right))
    ensures var r := Split(Skew(r1)); Balanced(r) && k <= Level(r) <= k + 1 && r.Node? && Level(r.right) <= k
  {
    hide Balanced;
    Parts(t.right);
    Parts(t.right.left);
    var rr := t.right.right;
    Parts(rr);
    if Level(r1.left) == k {
      var x := r1.left;
      Parts(x);
      var r2 := Reaugmented(r1.(left := x.right));
      assert Skew(r1) == Reaugmented(x.(right := r2));
      var low := Reaugmented(x.(right := x.right));
      Whole(low);
      Whole(Reaugmented(r2.(left := Reaugmented(x.(right := r2.left)), level := k + 1)));
    } else if Level(rr.right) == k {
      var low := Reaugmented(r1.(right := rr.left));
      Whole(low);
      Whole(Reaugmented(rr.(left := low, level := k + 1)));
    } else {
      Whole(r1);
    }
  }

  lemma LeftFellDeep(t: Tree)
    requires t.Node? && t.level >= 2 && DeepRight(t, t.level - 1)
    ensures var t' := Lowered(t); Balanced(t') && t'.Node? && t'.level == t.level
  {
    hide Balanced, Lowered, Skew, Split;
    var k := t.level - 1;
    Parts(t.right);
    Parts(t.right.left);
    var r1 := Reaugmented(t.right.(level := k, left := t.right.left.right));
    LoweredDeep(t, k, r1);
    DeepRightSplits(t, k, r1);
    Whole(Lowered(t));
  }

  lemma RightFell(t: Tree)
    requires t.Node? && t.level >= 2 && Balanced(t.left) && Balanced(t.right)
    requires Level(t.left) == t.level - 1 && Level(t.right) == t.level - 2
    ensures var t' := Lowered(t);
            Balanced(t') && t'.Node? && t.level - 1 <= t'.level <= t.level
                && (t'.level == t.level ==> Level(t'.right) < t.level)
  {
    hide Balanced;
    var k := t.level - 1;
    var s := t.(level := k);
    var l := t.left;
    Parts(l);
    if t.right.Node? { Parts(t.right); if t.right.left.Node? { Parts(t.right.left); } }
    var s1 := Reaugmented(s.(left := l.right));
    assert Skew(s) == Reaugmented(l.(right := s1));
    if Level(l.right) == k {
      var x := l.right;
      Parts(x);
      var s2 := Reaugmented(s1.(left := x.right));
      Whole(s2);
      assert Skew(s1) == Reaugmented(x.(right := s2));
      assert Skew(s2) == s2 && Split(s2) == s2;
      var low := Reaugmented(l.(right := x.left));
      Whole(low);
      Whole(Lowered(t));
    } else {
      Whole(s1);
      assert Skew(s1) == s1 && Skew(t.right) == t.right;
      Whole(Lowered(t));
    }
  }

  lemma RebalancedShrinks(t: Tree, t1: Tree)
    requires Balanced(t) && t.Node? && t1.Node? && t1.level == t.level
    requires || (t1.right == t.right && Shrunk(t.left, t1.left)) || (t1.left == t.left && Shrunk(t.right, t1.right))
    ensures Shrunk(t, Rebalanced(t1))
  {
    hide Balanced, Lowered;
    Parts(t);
    var t0 := Reaugmented(t1);
    if t.right.Node? { Parts(t.right); }
    if t0.right.Node? { Parts(t0.right); }
    if Level(t0.left) + 1 < t0.level {
      if Level(t0.right) == t0.level { LeftFellDeep(t0); } else { LeftFell(t0); }
    } else if Level(t0.right) + 1 < t0.level {
      RightFell(t0);
    } else {
      Whole(t0);
    }
  }

  lemma {:induction false} RemovedIsBalanced(t: Tree, key: int, found: bool)
    requires Balanced(t)
    ensures Shrunk(t, RemovedFrom(t, key, found).tree)
  {
    hide Rebalanced;
    if t.Node? {
      RemovedIsBalanced(t.left, key, found);
      RemovedIsBalanced(t.right, key, key == t.item.key);
      var r := RemovedFrom(if key < t.item.key then t.left else t.right, key, if key < t.item.key then found
          else key == t.item.key);
      var t1 := if key < t.item.key then t.(left := r.tree) else t.(right := r.tree);
      RebalancedShrinks(t, if key >= t.item.key && r.moved.Moved? then t1.(item := r.moved.item) else t1);
    }
  }

  // ---------- contents

  // `item` at its place, unless its key is there already.
  function Placed(s: seq<Item>, item: Item): seq<Item> {
    if s == [] || item.key < s[0].key then [item] + s
    else if item.key == s[0].key then s
    else [s[0]] + Placed(s[1..], item)
  }

  function Without(s: seq<Item>, key: int): seq<Item> {
    if s == [] then [] else if key == s[0].key then s[1..] else [s[0]] + Without(s[1..], key)
  }

  ghost predicate AllBelow(s: seq<Item>, key: int) { forall i :: 0 <= i < |s| ==> s[i].key < key }

  ghost predicate AllAbove(s: seq<Item>, key: int) { forall i :: 0 <= i < |s| ==> key < s[i].key }

  ghost predicate NoKey(s: seq<Item>, key: int) { forall y :: y in s ==> y.key != key }

  lemma IncreasingCons(x: Item, s: seq<Item>)
    ensures Increasing([x] + s) <==> Increasing(s) && AllAbove(s, x.key)
  {
    var t := [x] + s;
    if Increasing(t) {
      forall i, j | 0 <= i < j < |s| ensures s[i].key < s[j].key { assert t[i + 1] == s[i] && t[j + 1] == s[j]; }
      forall i | 0 <= i < |s| ensures x.key < s[i].key { assert t[0] == x && t[i + 1] == s[i]; }
    }
  }

  lemma {:induction false} PlacedHas(s: seq<Item>, item: Item, x: Item)
    requires Increasing(s)
    ensures x in Placed(s, item) <==> x in s || (x == item && NoKey(s, item.key))
  {
    if s != [] {
      assert s == [s[0]] + s[1..];
      IncreasingCons(s[0], s[1..]);
      if item.key > s[0].key { PlacedHas(s[1..], item, x); }
    }
  }

  // The item is put in order, and is the only thing that is new.
  lemma {:induction false} PlacedMeans(s: seq<Item>, item: Item)
    requires Increasing(s)
    ensures Increasing(Placed(s, item))
    ensures forall x :: x in Placed(s, item) <==> x in s || (x == item && NoKey(s, item.key))
  {
    forall x ensures x in Placed(s, item) <==> x in s || (x == item && NoKey(s, item.key)) { PlacedHas(s, item, x); }
    hide Increasing;
    if s == [] {
      IncreasingCons(item, []);
      assert Increasing([]) by { OneIncreases(); }
    } else {
      assert s == [s[0]] + s[1..];
      IncreasingCons(s[0], s[1..]);
      if item.key > s[0].key {
        PlacedMeans(s[1..], item);
        var placed := Placed(s[1..], item);
        forall i | 0 <= i < |placed| ensures s[0].key < placed[i].key { PlacedHas(s[1..], item, placed[i]); }
        IncreasingCons(s[0], placed);
      } else {
        IncreasingCons(item, s);
      }
    }
  }

  lemma OneIncreases()
    ensures Increasing([])
  {}

  lemma {:induction false} WithoutHas(s: seq<Item>, key: int, x: Item)
    requires Increasing(s)
    ensures x in Without(s, key) <==> x in s && x.key != key
  {
    hide Increasing;
    if s != [] {
      assert s == [s[0]] + s[1..];
      IncreasingCons(s[0], s[1..]);
      if key != s[0].key { WithoutHas(s[1..], key, x); }
    }
  }

  // What has the key is taken out, and nothing else.
  lemma {:induction false} WithoutMeans(s: seq<Item>, key: int)
    requires Increasing(s)
    ensures Increasing(Without(s, key))
    ensures forall x :: x in Without(s, key) <==> x in s && x.key != key
  {
    forall x ensures x in Without(s, key) <==> x in s && x.key != key { WithoutHas(s, key, x); }
    hide Increasing;
    if s != [] {
      assert s == [s[0]] + s[1..];
      IncreasingCons(s[0], s[1..]);
      if key != s[0].key {
        WithoutMeans(s[1..], key);
        IncreasingCons(s[0], Without(s[1..], key));
      }
    }
  }

  lemma {:induction false} Around(a: seq<Item>, x: Item, b: seq<Item>)
    requires Increasing(a + [x] + b)
    ensures Increasing(a) && Increasing(b) && AllBelow(a, x.key) && AllAbove(b, x.key)
  {
    if a == [] {
      assert a + [x] + b == [x] + b;
      IncreasingCons(x, b);
    } else {
      assert a + [x] + b == [a[0]] + (a[1..] + [x] + b) && a == [a[0]] + a[1..];
      IncreasingCons(a[0], a[1..] + [x] + b);
      Around(a[1..], x, b);
      assert (a[1..] + [x] + b)[|a| - 1] == x;
      AboveParts(a[1..], x, b, a[0].key);
      IncreasingCons(a[0], a[1..]);
    }
  }

  lemma AboveParts(a: seq<Item>, x: Item, b: seq<Item>, key: int)
    requires AllAbove(a + [x] + b, key)
    ensures AllAbove(a, key) && AllAbove(b, key) && key < x.key
  {
    var s := a + [x] + b;
    forall i | 0 <= i < |a| ensures key < a[i].key { assert s[i] == a[i]; }
    assert s[|a|] == x;
    forall i | 0 <= i < |b| ensures key < b[i].key { assert s[|a| + 1 + i] == b[i]; }
  }

  lemma BelowTail(a: seq<Item>, key: int)
    requires AllBelow(a, key) && a != []
    ensures a[0].key < key && AllBelow(a[1..], key)
  {}

  lemma TailsAround<T>(a: seq<T>, x: T, b: seq<T>)
    ensures a == [] ==> a + [x] + b == [x] + b && ([x] + b)[1..] == b
    ensures a != [] ==> var s := a + [x] + b; s[1..] == a[1..] + [x] + b && s[0] == a[0] && a == [a[0]] + a[1..]
  {}

  lemma {:induction false} PlacedAround(a: seq<Item>, x: Item, b: seq<Item>, item: Item)
    requires AllBelow(a, x.key)
    ensures item.key < x.key ==> Placed(a + [x] + b, item) == Placed(a, item) + [x] + b
    ensures item.key == x.key ==> Placed(a + [x] + b, item) == a + [x] + b
    ensures item.key > x.key ==> Placed(a + [x] + b, item) == a + [x] + Placed(b, item)
  {
    hide AllBelow;
    TailsAround(a, x, b);
    if a != [] {
      BelowTail(a, x.key);
      PlacedAround(a[1..], x, b, item);
      InFront(a[0], Placed(a[1..], item), [x], b);
      InFront(a[0], a[1..], [x], Placed(b, item));
    }
  }

  lemma InFront<T>(h: T, a: seq<T>, x: seq<T>, b: seq<T>)
    ensures [h] + (a + x + b) == [h] + a + x + b
  {}

  lemma {:induction false} WithoutAround(a: seq<Item>, x: Item, b: seq<Item>, key: int)
    requires AllBelow(a, x.key) && AllAbove(b, x.key)
    ensures key < x.key ==> Without(a + [x] + b, key) == Without(a, key) + [x] + b
    ensures key == x.key ==> Without(a + [x] + b, key) == a + b
    ensures key > x.key ==> Without(a + [x] + b, key) == a + [x] + Without(b, key)
  {
    hide AllBelow;
    TailsAround(a, x, b);
    if a == [] {
      if key < x.key { NotIn(b, key); }
    } else {
      BelowTail(a, x.key);
      WithoutAround(a[1..], x, b, key);
      InFront(a[0], Without(a[1..], key), [x], b);
      InFront(a[0], a[1..], [x], Without(b, key));
      InFront(a[0], a[1..], [], b);
    }
  }

  lemma {:induction false} NotIn(s: seq<Item>, key: int)
    requires AllAbove(s, key)
    ensures Without(s, key) == s
  {
    if s != [] {
      NotIn(s[1..], key);
      assert s == [s[0]] + s[1..];
    }
  }

  lemma PlacedAlone(item: Item)
    ensures Placed([], item) == [item]
  {}

  // Insertion puts the item at its place, and leaves the sizes true.
  lemma {:induction false} InsertedContents(t: Tree, item: Item)
    requires Sized(t) && Increasing(Inorder(t))
    ensures Sized(Inserted(t, item)) && Inorder(Inserted(t, item)) == Placed(Inorder(t), item)
  {
    hide Skew, Split, Placed, Reaugmented;
    if t.Nil? {
      PlacedAlone(item);
    } else {
      Around(Inorder(t.left), t.item, Inorder(t.right));
      PlacedAround(Inorder(t.left), t.item, Inorder(t.right), item);
      var t1 := if item.key < t.item.key then t.(left := Inserted(t.left, item))
                else if item.key > t.item.key then t.(right := Inserted(t.right, item))
                else t;
      if item.key < t.item.key { InsertedContents(t.left, item); }
      if item.key > t.item.key { InsertedContents(t.right, item); }
      SkewKeeps(t1);
      SplitKeeps(Skew(t1));
      ReaugmentedIs(Split(Skew(t1)));
    }
  }

  lemma SkewSized(t: Tree)
    requires Sized(t)
    ensures Sized(Skew(t)) && Inorder(Skew(t)) == Inorder(t) && (Skew(t).Node? <==> t.Node?)
  {
    SkewKeeps(t);
  }

  lemma SplitSized(t: Tree)
    requires Sized(t)
    ensures Sized(Split(t)) && Inorder(Split(t)) == Inorder(t) && (Split(t).Node? <==> t.Node?)
  {
    SplitKeeps(t);
  }

  lemma ReplaceRight(t: Tree, right: Tree)
    requires Sized(t) && t.Node? && Sized(right) && Inorder(right) == Inorder(t.right)
    ensures Sized(t.(right := right)) && Inorder(t.(right := right)) == Inorder(t)
  {}

  lemma RebalancedKeeps(t: Tree)
    requires t.Node? && SizedBelow(t)
    ensures Sized(Rebalanced(t)) && Inorder(Rebalanced(t)) == Inorder(t)
  {
    hide Skew, Split, Inorder, Sized;
    ReaugmentedIs(t);
    var t0 := Reaugmented(t);
    if Level(t0.left) + 1 < t0.level || Level(t0.right) + 1 < t0.level {
      var level := t0.level - 1;
      var right := if Level(t0.right) > level then t0.right.(level := level) else t0.right;
      LoweredKeeps(t0, level, right);
      var s := t0.(level := level, right := right);
      ReskewKeeps(s);
      ResplitKeeps(Reskew(s));
    }
  }

  lemma LoweredKeeps(t: Tree, level: nat, right: Tree)
    requires t.Node? && Sized(t) && (right == t.right || (t.right.Node? && right == t.right.(level := level)))
    ensures Sized(t.(level := level, right := right)) && Inorder(t.(level := level, right := right)) == Inorder(t)
  {}

  lemma ReskewKeeps(t: Tree)
    requires t.Node? && Sized(t)
    ensures Sized(Reskew(t)) && Inorder(Reskew(t)) == Inorder(t)
  {
    hide Skew, Inorder, Sized;
    SkewSized(t);
    SizedParts(t);
    var t1 := Skew(t);
    SizedParts(t1);
    SkewSized(t1.right);
    ReplaceRight(t1, Skew(t1.right));
    var t2 := t1.(right := Skew(t1.right));
    if t2.right.Node? {
      SizedParts(t2.right);
      SkewSized(t2.right.right);
      ReplaceRight(t2.right, Skew(t2.right.right));
      ReplaceRight(t2, t2.right.(right := Skew(t2.right.right)));
    }
  }

  lemma SizedParts(t: Tree)
    requires Sized(t) && t.Node?
    ensures Sized(t.left) && Sized(t.right)
  {}

  lemma ResplitKeeps(t: Tree)
    requires t.Node? && Sized(t)
    ensures Sized(Resplit(t)) && Inorder(Resplit(t)) == Inorder(t)
  {
    hide Split, Inorder, Sized;
    SplitSized(t);
    SizedParts(Split(t));
    SplitSized(Split(t).right);
    ReplaceRight(Split(t), Split(Split(t).right));
  }

  // What removal is to do: take out the item with the key, if there is one; or, where a node
  // above had the key, the first item, which moves up.
  ghost predicate RemovesRight(t: Tree, key: int, found: bool) {
    var r := RemovedFrom(t, key, found);
    && Sized(r.tree)
    && (if found && t.Node? then
          Inorder(t) != [] && r.moved == Moved(Inorder(t)[0]) && Inorder(r.tree) == Inorder(t)[1..]
        else r.moved == Nothing && Inorder(r.tree) == Without(Inorder(t), key))
  }

  lemma NothingRemoved(key: int, found: bool)
    ensures RemovesRight(Nil, key, found)
  {}

  lemma InorderIs(t: Tree)
    requires t.Node?
    ensures Inorder(t) == Inorder(t.left) + [t.item] + Inorder(t.right)
    ensures Sized(t) ==> Sized(t.left) && Sized(t.right)
    ensures Sized(t.left) && Sized(t.right) ==> SizedBelow(t)
  {}

  lemma LeftRemoved(t: Tree, key: int, found: bool)
    requires t.Node? && key < t.item.key && Sized(t) && Balanced(t) && RemovesRight(t.left, key, found)
    requires AllBelow(Inorder(t.left), t.item.key) && AllAbove(Inorder(t.right), t.item.key)
    ensures RemovesRight(t, key, found)
  {
    hide Rebalanced, Without, Balanced, Inorder, Sized;
    var a, b := Inorder(t.left), Inorder(t.right);
    var l := RemovedFrom(t.left, key, found);
    var t1 := t.(left := l.tree);
    InorderIs(t);
    InorderIs(t1);
    WithoutAround(a, t.item, b, key);
    RebalancedKeeps(t1);
    if t.left.Nil? { EmptyTree(key); }
    TailsAround(a, t.item, b);
  }

  lemma EmptyTree(key: int)
    ensures Inorder(Nil) == [] && Without([], key) == []
  {}

  lemma RightRemoved(t: Tree, key: int, found: bool)
    requires t.Node? && key >= t.item.key && !found && Sized(t) && Balanced(t)
    requires RemovesRight(t.right, key, key == t.item.key)
    requires AllBelow(Inorder(t.left), t.item.key) && AllAbove(Inorder(t.right), t.item.key)
    ensures RemovesRight(t, key, found)
  {
    hide Rebalanced, Without, Balanced, Inorder, Sized;
    var a, b := Inorder(t.left), Inorder(t.right);
    var r := RemovedFrom(t.right, key, key == t.item.key);
    var t1 := t.(right := r.tree);
    var t2 := if r.moved.Moved? then t1.(item := r.moved.item) else t1;
    InorderIs(t);
    InorderIs(t2);
    WithoutAround(a, t.item, b, key);
    RebalancedKeeps(t2);
    Parts(t);
    if t.right.Nil? { EmptyTree(key); }
    if b != [] { Without1(a, b); }
    NoText(a, b);
  }

  lemma Without1<T>(a: seq<T>, b: seq<T>)
    requires b != []
    ensures a + [b[0]] + b[1..] == a + b
  {}

  lemma NoText<T>(a: seq<T>, b: seq<T>)
    ensures a == [] && b == [] ==> a + b == []
  {}

  lemma {:induction false} RemovedContents(t: Tree, key: int, found: bool)
    requires Balanced(t) && Sized(t) && Increasing(Inorder(t)) && (found ==> AllAbove(Inorder(t), key))
    ensures RemovesRight(t, key, found)
  {
    hide RemovedFrom, RemovesRight, Inorder, Sized, Increasing, AllAbove, AllBelow, Balanced;
    if t.Nil? {
      NothingRemoved(key, found);
    } else {
      InorderIs(t);
      Parts(t);
      Around(Inorder(t.left), t.item, Inorder(t.right));
      if found { AboveParts(Inorder(t.left), t.item, Inorder(t.right), key); }
      if key < t.item.key {
        RemovedContents(t.left, key, found);
        LeftRemoved(t, key, found);
      } else {
        if key == t.item.key { assert AllAbove(Inorder(t.right), key); }
        RemovedContents(t.right, key, key == t.item.key);
        RightRemoved(t, key, found);
      }
    }
  }

  // ---------- height and size

  function Height(t: Tree): nat {
    if t.Nil? then 0 else 1 + if Height(t.left) > Height(t.right) then Height(t.left) else Height(t.right)
  }

  function Pow2(n: nat): nat { if n == 0 then 1 else 2 * Pow2(n - 1) }

  // No path is longer than twice the level, and a tree has enough items for its level.
  lemma {:induction false} HeightIsBounded(t: Tree)
    requires Balanced(t)
    ensures Height(t) <= 2 * Level(t)
    ensures t.Node? && Level(t.right) < t.level ==> Height(t) < 2 * Level(t)
  {
    if t.Node? {
      HeightIsBounded(t.left);
      HeightIsBounded(t.right);
    }
  }

  lemma {:induction false} LevelIsBounded(t: Tree)
    requires Balanced(t)
    ensures Pow2(Level(t)) <= |Inorder(t)| + 1
  {
    if t.Node? {
      LevelIsBounded(t.left);
      LevelIsBounded(t.right);
    }
  }

  lemma {:induction false} PowersGrow(m: nat, n: nat)
    requires m <= n
    ensures Pow2(m) <= Pow2(n)
  {
    if m < n { PowersGrow(m, n - 1); }
  }

  // So no path is longer than twice the logarithm of the number of items.
  lemma DepthIsLogarithmic(t: Tree)
    requires Balanced(t)
    ensures Pow2(Height(t) / 2) <= |Inorder(t)| + 1
  {
    HeightIsBounded(t);
    LevelIsBounded(t);
    PowersGrow(Height(t) / 2, Level(t));
  }

  // ---------- what every operation keeps

  ghost predicate IsSearchTree(t: Tree) {
    Balanced(t) && Sized(t) && Increasing(Inorder(t))
  }

  lemma InsertionKeeps(t: Tree, item: Item)
    requires IsSearchTree(t)
    ensures var t' := Inserted(t, item);
            && IsSearchTree(t')
            && forall x :: x in Inorder(t') <==> x in Inorder(t) || (x == item && NoKey(Inorder(t), item.key))
  {
    hide Balanced, Sized, Increasing, Inorder, Inserted, NoKey;
    InsertedIsBalanced(t, item);
    InsertedContents(t, item);
    PlacedMeans(Inorder(t), item);
  }

  lemma RemovalKeeps(t: Tree, key: int)
    requires IsSearchTree(t)
    ensures var t' := RemovedFrom(t, key, false).tree;
            && IsSearchTree(t')
            && forall x :: x in Inorder(t') <==> x in Inorder(t) && x.key != key
  {
    hide Balanced, Sized, Increasing, Inorder, RemovedFrom;
    RemovedIsBalanced(t, key, false);
    RemovedContents(t, key, false);
    WithoutMeans(Inorder(t), key);
  }

  // ---------- looking up

  function FoundIn(t: Tree, key: int): Transfer {
    if t.Nil? then Nothing
    else if key < t.item.key then FoundIn(t.left, key)
    else if key > t.item.key then FoundIn(t.right, key)
    else Moved(t.item)
  }

  lemma {:induction false} LookupIsRight(t: Tree, key: int)
    requires Increasing(Inorder(t))
    ensures var r := FoundIn(t, key);
            if r == Nothing then NoKey(Inorder(t), key) else r.item in Inorder(t) && r.item.key == key
  {
    hide Increasing;
    if t.Node? {
      Around(Inorder(t.left), t.item, Inorder(t.right));
      LookupIsRight(t.left, key);
      LookupIsRight(t.right, key);
    }
  }
}
