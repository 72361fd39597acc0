/** Where two chains of the node's block tree meet. */
module Forks {
  import opened Wire
  import opened Chain

  /** The block where the chains of x and y meet, found by stepping back from the higher one. */
  ghost function ForkPoint(n: Node, x: Hash, y: Hash): (r: Hash)
    requires InNode(n, x) && InNode(n, y)
    ensures InNode(n, r) && Height(n, r) <= Height(n, x) && Height(n, r) <= Height(n, y)
    decreases Height(n, x) + Height(n, y)
  {
    if Height(n, x) > Height(n, y) then ForkPoint(n, Parent(n, x), y)
    else if Height(n, x) < Height(n, y) then ForkPoint(n, x, Parent(n, y))
    else if x == y then x
    else ForkPoint(n, Parent(n, x), Parent(n, y))
  }

  ghost predicate IsAncestor(n: Node, a: Hash, h: Hash)
    requires InNode(n, a) && InNode(n, h)
  {
    Height(n, a) <= Height(n, h) && Ancestor(n, h, Height(n, a)) == a
  }

  lemma IsAncestorIs(n: Node, a: Hash, h: Hash)
    requires InNode(n, a) && InNode(n, h) && IsAncestor(n, a, h)
    ensures Height(n, a) <= Height(n, h) && Ancestor(n, h, Height(n, a)) == a
  {
  }

  lemma {:induction false} AncestorOfParent(n: Node, a: Hash, h: Hash)
    requires InNode(n, a) && InNode(n, h) && Height(n, h) > 0
    ensures IsAncestor(n, a, h) <==> a == h || IsAncestor(n, a, Parent(n, h))
  {
  }

  /** The fork point is on both chains, and no other common block is higher: common blocks are its ancestors. */
  lemma {:induction false} ForkPointIsHighest(n: Node, x: Hash, y: Hash, a: Hash)
    requires InNode(n, x) && InNode(n, y) && InNode(n, a)
    ensures var f := ForkPoint(n, x, y);
            && IsAncestor(n, f, x) && IsAncestor(n, f, y)
            && (IsAncestor(n, a, x) && IsAncestor(n, a, y) <==> IsAncestor(n, a, f))
    decreases Height(n, x) + Height(n, y)
  {
    if Height(n, x) > Height(n, y) {
      ForkPointIsHighest(n, Parent(n, x), y, a);
      AncestorOfParent(n, a, x);
      AncestorOfParent(n, ForkPoint(n, x, y), x);
    } else if Height(n, x) < Height(n, y) {
      ForkPointIsHighest(n, x, Parent(n, y), a);
      AncestorOfParent(n, a, y);
      AncestorOfParent(n, ForkPoint(n, x, y), y);
    } else if x != y {
      ForkPointIsHighest(n, Parent(n, x), Parent(n, y), a);
      AncestorOfParent(n, a, x);
      AncestorOfParent(n, a, y);
      AncestorOfParent(n, ForkPoint(n, x, y), x);
      AncestorOfParent(n, ForkPoint(n, x, y), y);
    }
  }

  /** The blocks from h down to, but excluding, height low; newest first. */
  ghost function PathDown(n: Node, h: Hash, low: nat): (r: seq<Hash>)
    requires InNode(n, h) && low <= Height(n, h)
    ensures |r| == Height(n, h) - low
    decreases Height(n, h)
  {
    if Height(n, h) == low then [] else [h] + PathDown(n, Parent(n, h), low)
  }

  lemma PathDownCons(n: Node, h: Hash, low: nat)
    requires InNode(n, h) && low < Height(n, h)
    ensures PathDown(n, h, low) == [h] + PathDown(n, Parent(n, h), low)
  {
  }

  lemma {:induction false} PathDownIs(n: Node, h: Hash, low: nat, i: nat)
    requires InNode(n, h) && low <= Height(n, h) && i < Height(n, h) - low
    ensures PathDown(n, h, low)[i] == Ancestor(n, h, Height(n, h) - i)
    decreases Height(n, h)
  {
    hide PathDown, ValidNode;
    PathDownCons(n, h, low);
    if i > 0 {
      PathDownIs(n, Parent(n, h), low, i - 1);
    }
  }

  /** Rolling back h's chain down to height low, block by block. */
  ghost function Dropped(n: Node, h: Hash, low: nat): seq<Move>
    requires InNode(n, h)
    decreases Height(n, h)
  {
    if Height(n, h) <= low then [] else [Down(h)] + Dropped(n, Parent(n, h), low)
  }

  lemma {:induction false} DroppedIs(n: Node, h: Hash, low: nat, i: nat)
    requires InNode(n, h) && low <= Height(n, h)
    ensures |Dropped(n, h, low)| == Height(n, h) - low
    ensures i < Height(n, h) - low ==> Dropped(n, h, low)[i] == Down(Ancestor(n, h, Height(n, h) - i))
    decreases Height(n, h)
  {
    hide ValidNode;
    if Height(n, h) > low {
      DroppedIs(n, Parent(n, h), low, if i > 0 then i - 1 else 0);
    }
  }

  lemma {:induction false} DroppedSplits(n: Node, h: Hash, mid: nat, low: nat)
    requires InNode(n, h) && low <= mid <= Height(n, h)
    ensures Dropped(n, h, low) == Dropped(n, h, mid) + Dropped(n, Ancestor(n, h, mid), low)
    decreases Height(n, h)
  {
    if mid < Height(n, h) {
      DroppedSplits(n, Parent(n, h), mid, low);
    }
  }

  lemma DroppedSnoc(n: Node, h: Hash, i: nat)
    requires InNode(n, h) && 0 < i <= Height(n, h)
    ensures Dropped(n, h, i - 1) == Dropped(n, h, i) + [Down(Ancestor(n, h, i))]
  {
    var a := Ancestor(n, h, i);
    DroppedSplits(n, h, i, i - 1);
    assert Dropped(n, a, i - 1) == [Down(a)] + Dropped(n, Parent(n, a), i - 1);
    assert Dropped(n, Parent(n, a), i - 1) == [];
  }

  lemma NoneDropped(n: Node, h: Hash)
    requires InNode(n, h)
    ensures Dropped(n, h, Height(n, h)) == []
  {
  }

  /** Stepping back the higher of two chains does not move their fork point. */
  lemma {:induction false} ForkPointFromAncestor(n: Node, x: Hash, y: Hash, i: nat)
    requires InNode(n, x) && InNode(n, y) && Height(n, y) <= i <= Height(n, x)
    ensures ForkPoint(n, Ancestor(n, x, i), y) == ForkPoint(n, x, y)
    ensures ForkPoint(n, y, Ancestor(n, x, i)) == ForkPoint(n, y, x)
    decreases Height(n, x)
  {
    if i < Height(n, x) {
      ForkPointFromAncestor(n, Parent(n, x), y, i);
    }
  }

  lemma {:induction false} ForkPointOfGenesis(n: Node, x: Hash, y: Hash)
    requires InNode(n, x) && InNode(n, y) && (Height(n, x) == 0 || Height(n, y) == 0)
    ensures ForkPoint(n, x, y) == n.genesis
    decreases Height(n, x) + Height(n, y)
  {
    if Height(n, x) > 0 {
      ForkPointOfGenesis(n, Parent(n, x), y);
    } else if Height(n, y) > 0 {
      ForkPointOfGenesis(n, x, Parent(n, y));
    }
  }

  /** A path down splits at any height in between. */
  lemma {:induction false} PathDownSplits(n: Node, h: Hash, mid: nat, low: nat)
    requires InNode(n, h) && low <= mid <= Height(n, h)
    ensures PathDown(n, h, low) == PathDown(n, h, mid) + PathDown(n, Ancestor(n, h, mid), low)
    decreases Height(n, h)
  {
    if mid < Height(n, h) {
      PathDownSplits(n, Parent(n, h), mid, low);
    }
  }

  lemma {:induction false} ParentOfAncestor(n: Node, h: Hash, i: nat)
    requires InNode(n, h) && 0 < i <= Height(n, h)
    ensures Parent(n, Ancestor(n, h, i)) == Ancestor(n, h, i - 1)
    decreases Height(n, h)
  {
    if i < Height(n, h) {
      ParentOfAncestor(n, Parent(n, h), i);
    }
  }

  lemma ForkPointStep(n: Node, x: Hash, y: Hash)
    requires InNode(n, x) && InNode(n, y) && Height(n, x) == Height(n, y) && x != y
    ensures Height(n, x) > 0 && ForkPoint(n, x, y) == ForkPoint(n, Parent(n, x), Parent(n, y))
  {
  }

  lemma ForkPointSelf(n: Node, h: Hash)
    requires InNode(n, h)
    ensures ForkPoint(n, h, h) == h && PathDown(n, h, Height(n, h)) == []
  {
  }

  lemma AncestorSelf(n: Node, h: Hash)
    requires InNode(n, h)
    ensures Ancestor(n, h, Height(n, h)) == h
  {
  }

  /** Appending the block at the lower end of a path. */
  lemma PathDownSnoc(n: Node, h: Hash, i: nat)
    requires InNode(n, h) && 0 < i <= Height(n, h)
    ensures PathDown(n, h, i - 1) == PathDown(n, h, i) + [Ancestor(n, h, i)]
  {
    var a := Ancestor(n, h, i);
    PathDownSplits(n, h, i, i - 1);
    assert PathDown(n, a, i - 1) == [a] + PathDown(n, Parent(n, a), i - 1);
    assert PathDown(n, Parent(n, a), i - 1) == [];
  }
}
