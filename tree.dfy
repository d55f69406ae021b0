/**
 * The decision tree in implicit-array form.  Position 0 is the root; the
 * child reached by a negative answer at position p is 2p+1 and the child
 * reached by a positive answer is 2p+2.  A slot that holds no prompt is
 * absent, which is a normal outcome of a lookup, not an error.
 */
module Tree {
  import opened Wrappers

  /** The slot sequence of a tree, position 0 first. */
  type Slots = seq<Option<string>>

  /** The two answer classes; a negative answer leads left, a positive one right. */
  datatype Side = Negative | Positive

  /** The position reached from p by an answer of the given side. */
  function Child(p: nat, side: Side): (c: nat)
    ensures c > p
    ensures (c - 1) / 2 == p
    ensures c % 2 == (if side == Negative then 1 else 0)
  {
    match side
    case Negative => 2 * p + 1
    case Positive => 2 * p + 2
  }

  function Parent(i: nat): nat
    requires i > 0
  {
    (i - 1) / 2
  }

  function SideOf(i: nat): Side
    requires i > 0
  {
    if i % 2 == 1 then Negative else Positive
  }

  /** Every non-root position is the child of exactly one (position, side) pair. */
  lemma ChildOfParent(i: nat)
    requires i > 0
    ensures Child(Parent(i), SideOf(i)) == i
    ensures forall p: nat, side: Side :: Child(p, side) == i ==> p == Parent(i) && side == SideOf(i)
  {
  }

  /** The prompt stored at position i, or None when that slot is absent. */
  function ValueAt(t: Slots, i: nat): (r: Option<string>)
    ensures i >= |t| ==> r == None
  {
    if i < |t| then t[i] else None
  }

  predicate Occupied(t: Slots, i: nat) {
    ValueAt(t, i).Some?
  }

  /** The set of occupied positions. */
  function OccupiedSet(t: Slots): (s: set<nat>)
    ensures forall i: nat :: i in s <==> Occupied(t, i)
  {
    set i: nat | i < |t| && t[i].Some?
  }

  /**
   * The structural invariant: the root is occupied and every occupied
   * slot other than the root has an occupied parent.
   */
  predicate WellFormed(t: Slots) {
    && |t| > 0
    && t[0].Some?
    && forall i: nat :: 0 < i < |t| && t[i].Some? ==> Occupied(t, Parent(i))
  }

  /** t' keeps every prompt t holds, at the same position. */
  ghost predicate Extends(t: Slots, t': Slots) {
    forall i: nat :: Occupied(t, i) ==> ValueAt(t', i) == ValueAt(t, i)
  }

  /**
   * Graft: occupy the absent child slot on the given side of the occupied
   * position p with a new prompt.  The slot sequence grows with absent
   * slots when the child lies beyond its end.
   */
  function Grafted(t: Slots, p: nat, side: Side, text: string): (r: Slots)
    requires WellFormed(t) && Occupied(t, p) && !Occupied(t, Child(p, side))
    ensures forall i: nat :: ValueAt(r, i) == if i == Child(p, side) then Some(text) else ValueAt(t, i)
    ensures OccupiedSet(r) == OccupiedSet(t) + {Child(p, side)}
    ensures Child(p, side) !in OccupiedSet(t)
    ensures WellFormed(r)
  {
    var c := Child(p, side);
    var r := if c < |t| then t[c := Some(text)] else t + seq(c - |t|, _ => None) + [Some(text)];
    assert forall i: nat :: ValueAt(r, i) == if i == c then Some(text) else ValueAt(t, i);
    r
  }

  /** A graft keeps every old prompt and adds exactly one occupied slot. */
  lemma GraftGrowsByOne(t: Slots, p: nat, side: Side, text: string)
    requires WellFormed(t) && Occupied(t, p) && !Occupied(t, Child(p, side))
    ensures Extends(t, Grafted(t, p, side, text))
    ensures |OccupiedSet(Grafted(t, p, side, text))| == |OccupiedSet(t)| + 1
  {
  }

  /** Position i lies in the subtree rooted at c (c itself included). */
  predicate InSubtree(i: nat, c: nat)
    decreases i
  {
    i == c || (i > c && InSubtree(Parent(i), c))
  }

  lemma {:induction false} SubtreeIsAbove(i: nat, c: nat)
    requires InSubtree(i, c)
    ensures i >= c
  {
  }

  /** In a well-formed tree the whole subtree below an absent slot is absent. */
  lemma {:induction false} AbsentSubtree(t: Slots, c: nat, i: nat)
    requires WellFormed(t) && !Occupied(t, c) && InSubtree(i, c)
    ensures !Occupied(t, i)
    decreases i
  {
    if i != c {
      AbsentSubtree(t, c, Parent(i));
    }
  }

  /**
   * The effect of binarytree's `node.left = Node(x)` / `node.right = Node(x)`
   * on the slot sequence: the child slot gets the new prompt and the whole
   * subtree that hung there before is dropped.
   */
  function ReplacedChild(t: Slots, p: nat, side: Side, text: string): (r: Slots)
    requires WellFormed(t) && Occupied(t, p)
    ensures ValueAt(r, Child(p, side)) == Some(text)
    ensures forall i: nat :: !InSubtree(i, Child(p, side)) ==> ValueAt(r, i) == ValueAt(t, i)
    ensures forall i: nat :: i != Child(p, side) && InSubtree(i, Child(p, side)) ==> ValueAt(r, i) == None
    ensures WellFormed(r)
  {
    var c := Child(p, side);
    var pruned := seq(|t|, i requires 0 <= i < |t| => if InSubtree(i, c) then None else t[i]);
    var r := if c < |t| then pruned[c := Some(text)] else pruned + seq(c - |t|, _ => None) + [Some(text)];
    assert forall i: nat :: ValueAt(r, i) == if i == c then Some(text) else if InSubtree(i, c) then None else ValueAt(t, i);
    assert WellFormed(r) by {
      forall i: nat | 0 < i < |r| && r[i].Some?
        ensures Occupied(r, Parent(i))
      {
        if i != c {
          assert !InSubtree(i, c);
          if InSubtree(Parent(i), c) {
            SubtreeIsAbove(Parent(i), c);
          }
        }
      }
    }
    r
  }

  /** Where the child slot is absent, replacing it is exactly a graft. */
  lemma ReplacedChildOnAbsentIsGraft(t: Slots, p: nat, side: Side, text: string)
    requires WellFormed(t) && Occupied(t, p) && !Occupied(t, Child(p, side))
    ensures ReplacedChild(t, p, side, text) == Grafted(t, p, side, text)
  {
    var r, g := ReplacedChild(t, p, side, text), Grafted(t, p, side, text);
    var c := Child(p, side);
    forall i: nat
      ensures ValueAt(r, i) == ValueAt(g, i)
    {
      if i != c && InSubtree(i, c) {
        AbsentSubtree(t, c, i);
      }
    }
    assert |r| == |g|;
    assert forall i :: 0 <= i < |r| ==> r[i] == ValueAt(r, i) == ValueAt(g, i) == g[i];
  }
}
