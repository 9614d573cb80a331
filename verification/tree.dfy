/**
 * The search tree of the Monte-Carlo tree search, kept as an arena: a
 * sequence of nodes addressed by their index. A node names its parent and its
 * children by index; a parent is always created before its children, so a
 * parent's index is smaller than its child's, which makes the parent links
 * acyclic.
 */
module ActionTree {
  import opened Wrappers
  import opened Grid

  /** One node: the move reaching it, its children, its parent and its counters. */
  datatype Node = Node(move: Point, children: seq<nat>, parent: Option<nat>, wins: int, plays: int)

  type Tree = seq<Node>

  /**
   * A node as freshly created for `move`. The program's constructor sets only
   * the move and leaves the counters and the parent link uninitialised; the
   * model assumes them to start at 0, 0 and no parent.
   */
  function NewNode(move: Point): (n: Node)
    ensures n.move == move && n.children == [] && n.parent == None
    ensures 0 <= n.wins <= n.plays && !IsLeaf(n)
  {
    Node(move, [], None, 0, 0)
  }

  /** A node with results recorded and no children yet. */
  predicate IsLeaf(n: Node)
  {
    n.plays > 0 && |n.children| == 0
  }

  /** Every parent link points to an earlier node. */
  predicate ParentsPrecede(t: Tree)
  {
    forall i :: 0 <= i < |t| && t[i].parent.Some? ==> t[i].parent.value < i
  }

  /** Parent links precede, and every child is a later node that names its parent. */
  predicate WellFormed(t: Tree)
  {
    && ParentsPrecede(t)
    && forall i :: 0 <= i < |t| ==>
         forall c :: c in t[i].children ==> i < c < |t| && t[c].parent == Some(i)
  }

  /** Every node has recorded no more wins than plays, and no negative counts. */
  predicate ValidStats(t: Tree)
  {
    forall i :: 0 <= i < |t| ==> 0 <= t[i].wins <= t[i].plays
  }

  /** `r` differs from `t` at most in the counters. */
  predicate SameShape(t: Tree, r: Tree)
  {
    && |r| == |t|
    && forall n :: 0 <= n < |t| ==>
         r[n].move == t[n].move && r[n].children == t[n].children && r[n].parent == t[n].parent
  }

  /** The node `id` and all its ancestors, up to the root of its chain. */
  function Ancestors(t: Tree, id: nat): (r: set<nat>)
    requires ParentsPrecede(t) && id < |t|
    ensures id in r
    ensures forall a :: a in r ==> a <= id
    ensures Root(t, id) in r
    decreases id
  {
    if t[id].parent.None? then {id} else {id} + Ancestors(t, t[id].parent.value)
  }

  /** The parentless node at the top of `id`'s parent chain. */
  function Root(t: Tree, id: nat): (r: nat)
    requires ParentsPrecede(t) && id < |t|
    ensures r <= id && t[r].parent.None?
    decreases id
  {
    if t[id].parent.None? then id else Root(t, t[id].parent.value)
  }

  /** Ancestry depends on the parent links only. */
  lemma {:induction false} AncestorsFollowParents(t: Tree, r: Tree, id: nat)
    requires ParentsPrecede(t) && SameShape(t, r) && id < |t|
    ensures ParentsPrecede(r)
    ensures Ancestors(r, id) == Ancestors(t, id)
    decreases id
  {
    if t[id].parent.Some? {
      AncestorsFollowParents(t, r, t[id].parent.value);
    }
  }

  /**
   * Records a win at `id`: adds one win and one play to `id` and to every
   * ancestor up to the root, and changes nothing else.
   */
  function Win(t: Tree, id: nat): (r: Tree)
    requires ParentsPrecede(t) && id < |t|
    ensures SameShape(t, r)
    ensures forall n :: 0 <= n < |t| ==>
              r[n].wins == t[n].wins + (if n in Ancestors(t, id) then 1 else 0) &&
              r[n].plays == t[n].plays + (if n in Ancestors(t, id) then 1 else 0)
    ensures forall n :: 0 <= n < |t| && n !in Ancestors(t, id) ==> r[n] == t[n]
    ensures ValidStats(t) ==> ValidStats(r)
    decreases id
  {
    var bumped := t[id := t[id].(wins := t[id].wins + 1, plays := t[id].plays + 1)];
    if t[id].parent.None? then
      bumped
    else
      AncestorsFollowParents(t, bumped, t[id].parent.value);
      Win(bumped, t[id].parent.value)
  }

  /**
   * Records a loss at `id`: adds one play to `id` and to every ancestor up to
   * the root, leaves every win count as it was, and changes nothing else.
   */
  function Loss(t: Tree, id: nat): (r: Tree)
    requires ParentsPrecede(t) && id < |t|
    ensures SameShape(t, r)
    ensures forall n :: 0 <= n < |t| ==>
              r[n].wins == t[n].wins &&
              r[n].plays == t[n].plays + (if n in Ancestors(t, id) then 1 else 0)
    ensures forall n :: 0 <= n < |t| && n !in Ancestors(t, id) ==> r[n] == t[n]
    ensures ValidStats(t) ==> ValidStats(r)
    decreases id
  {
    var bumped := t[id := t[id].(plays := t[id].plays + 1)];
    if t[id].parent.None? then
      bumped
    else
      AncestorsFollowParents(t, bumped, t[id].parent.value);
      Loss(bumped, t[id].parent.value)
  }

  /**
   * Appends a fresh node for `move` as the last child of `parent`, linked
   * both ways. The program has no such operation (its search driver replaces
   * a node's whole child list); its contract shows how a well-formed tree grows.
   */
  function AddChild(t: Tree, parent: nat, move: Point): (r: Tree)
    requires WellFormed(t) && parent < |t|
    ensures WellFormed(r) && |r| == |t| + 1
    ensures r[|t|] == NewNode(move).(parent := Some(parent))
    ensures r[parent].children == t[parent].children + [|t|]
    ensures forall n :: 0 <= n < |t| && n != parent ==> r[n] == t[n]
    ensures ValidStats(t) ==> ValidStats(r)
  {
    var linked := t[parent := t[parent].(children := t[parent].children + [|t|])];
    linked + [NewNode(move).(parent := Some(parent))]
  }

  /** Win and loss records commute: the final counters do not depend on their order. */
  lemma WinLossCommute(t: Tree, a: nat, b: nat)
    requires ParentsPrecede(t) && a < |t| && b < |t|
    ensures ParentsPrecede(Loss(t, a)) && ParentsPrecede(Win(t, b))
    ensures Win(Loss(t, a), b) == Loss(Win(t, b), a)
  {
    var l := Loss(t, a);
    var w := Win(t, b);
    AncestorsFollowParents(t, l, b);
    AncestorsFollowParents(t, w, a);
    var lw := Win(l, b);
    var wl := Loss(w, a);
    assert |lw| == |wl|;
    forall n | 0 <= n < |lw|
      ensures lw[n] == wl[n]
    {
    }
  }

  /** A childless node becomes a leaf once its first result is recorded. */
  lemma FirstResultMakesLeaf(t: Tree, id: nat, won: bool)
    requires ParentsPrecede(t) && id < |t| && t[id].children == [] && t[id].plays == 0
    ensures !IsLeaf(t[id])
    ensures IsLeaf((if won then Win(t, id) else Loss(t, id))[id])
  {
  }

  /**
   * The selection loop shared by both selectors: scanning left to right, keep
   * the index of a score strictly above the best so far, starting from 0.
   * The result is the first index holding the maximum score, when that
   * maximum is positive, and `None` when no score is positive.
   */
  method FirstBest(scores: seq<real>) returns (best: Option<nat>)
    ensures best.None? <==> forall k :: 0 <= k < |scores| ==> scores[k] <= 0.0
    ensures best.Some? ==> FirstMaxAt(scores, best.value)
  {
    best := None;
    var bestScore := 0.0;
    var i := 0;
    while i < |scores|
      invariant 0 <= i <= |scores|
      invariant best.None? ==> bestScore == 0.0
      invariant best.Some? ==> best.value < i && bestScore == scores[best.value] && bestScore > 0.0
      invariant forall k :: 0 <= k < i ==> scores[k] <= bestScore
      invariant best.Some? ==> forall k :: 0 <= k < best.value ==> scores[k] < bestScore
    {
      if bestScore < scores[i] {
        bestScore := scores[i];
        best := Some(i);
      }
      i := i + 1;
    }
  }

  /** Index `k` holds a positive maximum of `scores` and no earlier index reaches it. */
  predicate FirstMaxAt(scores: seq<real>, k: nat)
  {
    && k < |scores|
    && scores[k] > 0.0
    && (forall j :: 0 <= j < |scores| ==> scores[j] <= scores[k])
    && (forall j :: 0 <= j < k ==> scores[j] < scores[k])
  }

  /** The `k`-th child of `id`; well-formedness keeps it inside the tree. */
  function Child(t: Tree, id: nat, k: nat): (c: nat)
    requires WellFormed(t) && id < |t| && k < |t[id].children|
    ensures id < c < |t| && c in t[id].children && t[c].parent == Some(id)
  {
    var c := t[id].children[k];
    assert c in t[id].children;
    c
  }

  /** The scores of `id`'s children, in child order. */
  function ChildScores(t: Tree, id: nat, score: Node -> real): (s: seq<real>)
    requires WellFormed(t) && id < |t|
    ensures |s| == |t[id].children|
    ensures forall k :: 0 <= k < |s| ==> s[k] == score(t[Child(t, id, k)])
  {
    seq(|t[id].children|, k requires 0 <= k < |t[id].children| => score(t[Child(t, id, k)]))
  }

  /**
   * The child with the best exploration score (abstracted as `score`): the
   * first child holding the maximal score when that score is positive, and
   * `None` when no child scores above 0.
   */
  method GetOptimalChild(t: Tree, id: nat, score: Node -> real) returns (best: Option<nat>)
    requires WellFormed(t) && id < |t|
    ensures best.None? <==> forall c :: c in t[id].children ==> score(t[c]) <= 0.0
    ensures best.Some? ==> exists k :: 0 <= k < |t[id].children| && t[id].children[k] == best.value &&
                                       FirstMaxAt(ChildScores(t, id, score), k)
  {
    var scores := ChildScores(t, id, score);
    var k := FirstBest(scores);
    if k.Some? {
      best := Some(t[id].children[k.value]);
    } else {
      best := None;
      forall c | c in t[id].children
        ensures score(t[c]) <= 0.0
      {
        var j :| 0 <= j < |t[id].children| && t[id].children[j] == c;
        assert scores[j] == score(t[c]);
      }
    }
  }

  /** Integer division truncating toward zero, as C++ divides `int`s. */
  function TruncDiv(a: int, b: int): int
    requires b != 0
  {
    if (a < 0) == (b < 0) then Abs(a) / Abs(b) else -(Abs(a) / Abs(b))
  }

  /** The win ratio a node is selected by: integer division of wins by plays. */
  function WinRatio(n: Node): real
    requires n.plays != 0
  {
    TruncDiv(n.wins, n.plays) as real
  }

  /** A node that has been played and won every play. */
  predicate WonEveryPlay(n: Node)
  {
    n.plays > 0 && n.wins == n.plays
  }

  /** With 0 <= wins <= plays the integer ratio is 1 for a node that won every play and 0 otherwise. */
  lemma RatioOfValidNode(n: Node)
    requires 0 <= n.wins <= n.plays && n.plays > 0
    ensures WinRatio(n) == if WonEveryPlay(n) then 1.0 else 0.0
  {
  }

  /** The integer win ratios of `id`'s children, in child order. */
  function WinRatios(t: Tree, id: nat): (s: seq<real>)
    requires WellFormed(t) && id < |t|
    requires forall c :: c in t[id].children ==> t[c].plays > 0
    ensures |s| == |t[id].children|
    ensures forall k :: 0 <= k < |s| ==> s[k] == WinRatio(t[Child(t, id, k)])
  {
    seq(|t[id].children|, k requires 0 <= k < |t[id].children| => WinRatio(t[Child(t, id, k)]))
  }

  /**
   * The child with the best win ratio. Every child must have been played,
   * as the ratio divides by the play count. No child is chosen when no ratio
   * is positive; otherwise the chosen child is the first holding the maximal
   * ratio.
   */
  method GetWinRatioChild(t: Tree, id: nat) returns (best: Option<nat>)
    requires WellFormed(t) && id < |t|
    requires forall c :: c in t[id].children ==> t[c].plays > 0
    ensures best.None? <==> forall k :: 0 <= k < |t[id].children| ==> WinRatios(t, id)[k] <= 0.0
    ensures best.Some? ==> exists k :: 0 <= k < |t[id].children| && t[id].children[k] == best.value &&
                                       FirstMaxAt(WinRatios(t, id), k)
  {
    var k := FirstBest(WinRatios(t, id));
    if k.Some? {
      best := Some(t[id].children[k.value]);
    } else {
      best := None;
    }
  }

  /**
   * With valid counters the win-ratio choice is the first child that won
   * every play: a child holds the first maximal positive ratio exactly when
   * it won every play and no earlier child did.
   */
  lemma WinRatioPicksFirstPerfect(t: Tree, id: nat, k: nat)
    requires WellFormed(t) && id < |t| && ValidStats(t)
    requires forall c :: c in t[id].children ==> t[c].plays > 0
    requires k < |t[id].children|
    ensures FirstMaxAt(WinRatios(t, id), k) <==>
              WonEveryPlay(t[Child(t, id, k)]) && forall j :: 0 <= j < k ==> !WonEveryPlay(t[Child(t, id, j)])
  {
  }

  /**
   * With valid counters the win-ratio choice is empty exactly when no child
   * won every play.
   */
  lemma WinRatioPicksNothing(t: Tree, id: nat)
    requires WellFormed(t) && id < |t| && ValidStats(t)
    requires forall c :: c in t[id].children ==> t[c].plays > 0
    ensures (forall k :: 0 <= k < |t[id].children| ==> WinRatios(t, id)[k] <= 0.0) <==>
            (forall k :: 0 <= k < |t[id].children| ==> !WonEveryPlay(t[Child(t, id, k)]))
  {
    var r := WinRatios(t, id);
    forall j | 0 <= j < |r|
      ensures r[j] == if WonEveryPlay(t[Child(t, id, j)]) then 1.0 else 0.0
    {
      RatioOfValidNode(t[Child(t, id, j)]);
    }
  }
}
