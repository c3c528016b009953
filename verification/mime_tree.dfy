/**
 * The parsed MIME part tree and the three matchers that search it:
 * breadth-first first match, breadth-first all matches and depth-first
 * (pre-order) all matches. Breadth-first order is computed with a queue,
 * as the matchers do, and proved equal to level order.
 */
module MimeTree {
  import opened Outcomes

  /** One byte of decoded content. */
  newtype Byte = b: int | 0 <= b < 0x100

  /**
   * A node of the part tree: its media type without parameters, its
   * Content-Disposition value ("" when absent), its file name, its decoded
   * content and its children in the order they appear in the message.
   */
  datatype Part = Part(
    contentType: string,
    disposition: string,
    fileName: string,
    content: seq<Byte>,
    children: seq<Part>)

  /** The number of parts in a tree, and in a forest. */
  function Size(p: Part): nat
    decreases p
  {
    1 + ForestSize(p.children)
  }

  function ForestSize(ps: seq<Part>): nat
    decreases ps
  {
    if ps == [] then 0 else Size(ps[0]) + ForestSize(ps[1..])
  }

  lemma {:induction false} ForestSizeAppend(a: seq<Part>, b: seq<Part>)
    ensures ForestSize(a + b) == ForestSize(a) + ForestSize(b)
    decreases |a|
  {
    if a == [] {
      assert a + b == b;
    } else {
      assert (a + b)[0] == a[0];
      assert (a + b)[1..] == a[1..] + b;
      ForestSizeAppend(a[1..], b);
    }
  }

  /** The children of every part of a forest, left to right: the next level. */
  function Children(ps: seq<Part>): (next: seq<Part>)
    ensures ForestSize(next) == ForestSize(ps) - |ps|
    decreases ps
  {
    if ps == [] then []
    else
      ForestSizeAppend(ps[0].children, Children(ps[1..]));
      ps[0].children + Children(ps[1..])
  }

  /** Pre-order: a part, then each child's subtree from left to right. */
  function PreOrder(p: Part): (order: seq<Part>)
    ensures |order| == Size(p) && order[0] == p
    ensures forall i, q :: 0 <= i < |p.children| && q in PreOrder(p.children[i]) ==> q in order
    decreases p
  {
    [p] + PreOrderForest(p.children)
  }

  function PreOrderForest(ps: seq<Part>): (order: seq<Part>)
    ensures |order| == ForestSize(ps)
    ensures forall i, q :: 0 <= i < |ps| && q in PreOrder(ps[i]) ==> q in order
    decreases ps
  {
    if ps == [] then [] else PreOrder(ps[0]) + PreOrderForest(ps[1..])
  }

  /**
   * Breadth-first order as a queue produces it: take the front part, then
   * enqueue its children at the back.
   */
  function QueueOrder(queue: seq<Part>): (order: seq<Part>)
    ensures |order| == ForestSize(queue)
    decreases ForestSize(queue)
  {
    if queue == [] then []
    else
      ForestSizeAppend(queue[1..], queue[0].children);
      assert ForestSize(queue) == 1 + ForestSize(queue[0].children) + ForestSize(queue[1..]);
      [queue[0]] + QueueOrder(queue[1..] + queue[0].children)
  }

  /** Level order: a whole level from left to right, then the next level. */
  function LevelOrder(level: seq<Part>): seq<Part>
    decreases ForestSize(level)
  {
    if level == [] then [] else level + LevelOrder(Children(level))
  }

  function BreadthOrder(root: Part): seq<Part>
  {
    QueueOrder([root])
  }

  /** Draining a queue emits its first parts, then goes on with their children queued. */
  lemma {:induction false} QueueOrderSplit(xs: seq<Part>, ys: seq<Part>)
    ensures QueueOrder(xs + ys) == xs + QueueOrder(ys + Children(xs))
    decreases |xs|
  {
    if xs == [] {
      assert xs + ys == ys;
      assert ys + Children(xs) == ys;
    } else {
      var x := xs[0];
      assert (xs + ys)[0] == x;
      assert (xs + ys)[1..] + x.children == xs[1..] + (ys + x.children);
      QueueOrderSplit(xs[1..], ys + x.children);
      assert ys + x.children + Children(xs[1..]) == ys + Children(xs);
      assert [x] + (xs[1..] + QueueOrder(ys + Children(xs))) == xs + QueueOrder(ys + Children(xs));
    }
  }

  /** The queue-based breadth-first order is exactly level order. */
  lemma {:induction false} QueueOrderIsLevelOrder(level: seq<Part>)
    ensures QueueOrder(level) == LevelOrder(level)
    decreases ForestSize(level)
  {
    if level != [] {
      QueueOrderSplit(level, []);
      assert level + [] == level;
      assert [] + Children(level) == Children(level);
      QueueOrderIsLevelOrder(Children(level));
    }
  }

  /** The parts of `s` that satisfy `pred`, in their order in `s`. */
  function Filter(s: seq<Part>, pred: Part -> bool): (r: seq<Part>)
    ensures |r| <= |s|
    ensures forall p :: p in r <==> p in s && pred(p)
    decreases |s|
  {
    if s == [] then []
    else if pred(s[0]) then [s[0]] + Filter(s[1..], pred)
    else Filter(s[1..], pred)
  }

  /** Filtering keeps order: it distributes over concatenation. */
  lemma {:induction false} FilterAppend(a: seq<Part>, b: seq<Part>, pred: Part -> bool)
    ensures Filter(a + b, pred) == Filter(a, pred) + Filter(b, pred)
    decreases |a|
  {
    if a == [] {
      assert a + b == b;
    } else {
      assert (a + b)[0] == a[0];
      assert (a + b)[1..] == a[1..] + b;
      FilterAppend(a[1..], b, pred);
    }
  }

  /** The index of the first element of `s` that satisfies `pred`, or |s|. */
  function FirstIndex(s: seq<Part>, pred: Part -> bool): (k: nat)
    ensures k <= |s|
    ensures k < |s| ==> pred(s[k])
    ensures forall j :: 0 <= j < k ==> !pred(s[j])
    decreases |s|
  {
    if s == [] then 0
    else if pred(s[0]) then 0
    else 1 + FirstIndex(s[1..], pred)
  }

  /** Every part of the tree that satisfies `pred`, in level order. */
  function BreadthMatchAll(root: Part, pred: Part -> bool): seq<Part>
  {
    Filter(BreadthOrder(root), pred)
  }

  /** Every part of the tree that satisfies `pred`, in pre-order. */
  function DepthMatchAll(root: Part, pred: Part -> bool): seq<Part>
  {
    Filter(PreOrder(root), pred)
  }

  /** The first part in level order that satisfies `pred`, if any. */
  function BreadthMatchFirst(root: Part, pred: Part -> bool): (r: Option<Part>)
    ensures var order := BreadthOrder(root);
      r.Some? <==> exists i :: 0 <= i < |order| && pred(order[i])
    ensures var order := BreadthOrder(root);
      r.Some? ==> exists i :: 0 <= i < |order| && order[i] == r.value && pred(order[i])
                               && forall j :: 0 <= j < i ==> !pred(order[j])
  {
    var order := BreadthOrder(root);
    var k := FirstIndex(order, pred);
    if k < |order| then Some(order[k]) else None
  }

  /** The first breadth-first match is the head of the breadth-first list of all matches. */
  lemma {:induction false} FirstMatchHeadsAllMatches(s: seq<Part>, pred: Part -> bool)
    ensures var all := Filter(s, pred);
      var k := FirstIndex(s, pred);
      (all == [] <==> k == |s|) && (all != [] ==> all[0] == s[k])
    decreases |s|
  {
    if s != [] && !pred(s[0]) {
      FirstMatchHeadsAllMatches(s[1..], pred);
    }
  }

  lemma BreadthMatchFirstIsHead(root: Part, pred: Part -> bool)
    ensures var all := BreadthMatchAll(root, pred);
      BreadthMatchFirst(root, pred) == if all == [] then None else Some(all[0])
  {
    FirstMatchHeadsAllMatches(BreadthOrder(root), pred);
  }
}
