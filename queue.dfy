/**
 * The candidate priority queue: a 1-indexed binary max-heap stored in a
 * growable array (slot 0 is never used).  push appends at slot len+1 and moves
 * the new entry up past every parent of strictly smaller priority; pop takes
 * the root, puts the last entry in a hole at the root and moves the hole down
 * to the larger child while that child is strictly greater.
 *
 * Both operations are specified by pure functions of the previous array
 * (SiftUp and SiftDown below), so the heap's state, and with it the pop
 * order, is determined by the sequence of operations.
 */
module Queue {
  import opened Cube

  /** INIT_SIZE: the capacity of the first allocation. */
  const InitSize: nat := 20

  /** product_t: a relaxed cube waiting in the queue, with its bookkeeping. */
  datatype Candidate = Candidate(
    cube: Cube,                    // the relaxed product
    outputF: nat,                  // the output it belongs to
    coveredProd: nat,              // siblings it strictly covers
    complMin: nat,                 // |cube ∩ off-set|
    productNumber: nat,            // index of the product it was relaxed from
    valid: bool,                   // cleared in place when it becomes redundant
    offsetInters: set<Minterm>)    // cube ∩ off-set, kept for the admission test

  /** node_t: one heap slot. */
  datatype Node = Node(priority: real, data: Candidate)

  /** What a freshly allocated slot holds before anything is stored in it. */
  const Filler: Node := Node(0.0, Candidate([], 0, 0, 0, 0, false, {}))

  /** Heap order over slots 1..n: no entry has a greater priority than its parent. */
  predicate HeapOrdered(a: seq<Node>, n: nat) {
    forall k :: 2 <= k <= n && k < |a| ==> Edge(a, k)
  }

  /** Slot k's parent has at least k's priority. */
  predicate Edge(a: seq<Node>, k: nat)
    requires 2 <= k < |a|
  {
    a[k / 2].priority >= a[k].priority
  }

  /** The multiset of live entries in slots 1..n. */
  ghost function Elements(a: seq<Node>, n: nat): multiset<Node>
    requires n < |a| || n == 0
    decreases n
  {
    if n == 0 then multiset{} else Elements(a, n - 1) + multiset{a[n]}
  }

  /**
   * The capacity after push's growth test (src/queue.c:16-20): 20 when the
   * heap was never allocated, double when slot len+1 is not below the
   * capacity, unchanged otherwise.
   */
  function NewSize(size: nat, len: nat): (r: nat)
    ensures len < size || (len == 0 && size == 0) ==> len + 1 < r
    ensures r == size || r == 2 * size || (size == 0 && r == InitSize)
  {
    if len + 1 >= size then (if size != 0 then size * 2 else InitSize) else size
  }

  /** The array after realloc: the old slots, then fresh ones up to NewSize. */
  function Grow(a: seq<Node>, len: nat): (r: seq<Node>)
    ensures |r| == NewSize(|a|, len)
    ensures forall k :: 0 <= k < |a| ==> r[k] == a[k]
  {
    if len + 1 >= |a| then a + Fresh(NewSize(|a|, len) - |a|) else a
  }

  /** k freshly allocated slots. */
  function Fresh(k: nat): (r: seq<Node>)
    ensures |r| == k
    ensures forall i :: 0 <= i < k ==> r[i] == Filler
  {
    if k == 0 then [] else Fresh(k - 1) + [Filler]
  }

  /**
   * The sift-up loop of push: while the parent of the hole i is strictly
   * smaller than x, move the parent down into the hole; then store x.
   */
  function SiftUp(a: seq<Node>, i: nat, x: Node): (r: seq<Node>)
    requires 1 <= i < |a|
    ensures |r| == |a|
    decreases i
  {
    if i > 1 && a[i / 2].priority < x.priority then SiftUp(a[i := a[i / 2]], i / 2, x)
    else a[i := x]
  }

  /**
   * The slot that fills the hole i in one sift-down step, with x in slot
   * n+1: the left child if it is strictly greater than x, then the right
   * child if it is strictly greater than that choice; n+1 (x itself) otherwise.
   */
  function Child(a: seq<Node>, i: nat, n: nat): (k: nat)
    requires 1 <= i <= n < |a| - 1
    ensures i < k <= n + 1
    ensures k <= n ==> k / 2 == i
    ensures a[k].priority >= a[n + 1].priority
    ensures 2 * i <= n ==> a[k].priority >= a[2 * i].priority
    ensures 2 * i + 1 <= n ==> a[k].priority >= a[2 * i + 1].priority
  {
    var j := 2 * i;
    var k1 := if j <= n && a[j].priority > a[n + 1].priority then j else n + 1;
    if j + 1 <= n && a[j + 1].priority > a[k1].priority then j + 1 else k1
  }

  /**
   * The sift-down loop of pop. Slot n+1 holds the moved entry x; the hole i
   * is filled from Child until the hole reaches slot n+1.
   */
  function SiftDown(a: seq<Node>, i: nat, n: nat): (r: seq<Node>)
    requires 1 <= i <= n + 1 < |a|
    ensures |r| == |a|
    decreases n + 1 - i
  {
    if i == n + 1 then a
    else
      var k := Child(a, i, n);
      SiftDown(a[i := a[k]], k, n)
  }

  /* ---------------------------------------------------------------------- */
  /* What SiftUp and SiftDown preserve                                       */
  /* ---------------------------------------------------------------------- */

  /** n live slots hold n entries. */
  lemma {:induction false} ElementsCount(a: seq<Node>, n: nat)
    requires n < |a| || n == 0
    ensures |Elements(a, n)| == n
    decreases n
  {
    if n > 0 {
      ElementsCount(a, n - 1);
    }
  }

  /** The entries of slots 1..n are exactly the entries of those slots. */
  lemma {:induction false} ElementsMembers(a: seq<Node>, n: nat)
    requires n < |a| || n == 0
    ensures forall k :: 1 <= k <= n ==> a[k] in Elements(a, n)
    ensures forall e :: e in Elements(a, n) ==> exists k :: 1 <= k <= n && a[k] == e
    decreases n
  {
    if n > 0 {
      ElementsMembers(a, n - 1);
    }
  }

  /** Elements depends only on slots 1..n. */
  lemma {:induction false} ElementsAgree(a: seq<Node>, b: seq<Node>, n: nat)
    requires n < |a| || n == 0
    requires n < |b| || n == 0
    requires forall k :: 1 <= k <= n ==> a[k] == b[k]
    ensures Elements(a, n) == Elements(b, n)
    decreases n
  {
    if n > 0 {
      ElementsAgree(a, b, n - 1);
    }
  }

  /** Overwriting live slot i swaps one entry of the multiset. */
  lemma {:induction false} ElementsUpdate(a: seq<Node>, i: nat, v: Node, n: nat)
    requires 1 <= i <= n < |a|
    ensures Elements(a[i := v], n) + multiset{a[i]} == Elements(a, n) + multiset{v}
    decreases n
  {
    if i == n {
      ElementsAgree(a, a[i := v], n - 1);
      AddSwap(Elements(a, n - 1), v, a[n]);
    } else {
      var u := a[i := v];
      ElementsUpdate(a, i, v, n - 1);
      assert Elements(u, n) == Elements(u, n - 1) + multiset{a[n]};
      AddSwap(Elements(u, n - 1), a[n], a[i]);
      AddSwap(Elements(a, n - 1), v, a[n]);
    }
  }

  /** Adding two entries in either order gives the same multiset. */
  lemma AddSwap(x: multiset<Node>, p: Node, q: Node)
    ensures x + multiset{p} + multiset{q} == x + multiset{q} + multiset{p}
  {
  }

  /** One entry added to both sides cancels out. */
  lemma Cancel(x: multiset<Node>, y: multiset<Node>, e: Node)
    requires x + multiset{e} == y + multiset{e}
    ensures x == y
  {
    assert x == x + multiset{e} - multiset{e};
  }

  /** Moving x up from hole i: the live multiset loses the hole's stale entry and gains x. */
  lemma {:induction false} SiftUpElements(a: seq<Node>, i: nat, x: Node, n: nat)
    requires 1 <= i <= n < |a|
    ensures Elements(SiftUp(a, i, x), n) + multiset{a[i]} == Elements(a, n) + multiset{x}
    decreases i
  {
    if i > 1 && a[i / 2].priority < x.priority {
      var p := i / 2;
      var b := a[i := a[p]];
      SiftUpElements(b, p, x, n);
      ElementsUpdate(a, i, a[p], n);
      var r := Elements(SiftUp(b, p, x), n);
      AddSwap(r, a[i], a[p]);
      AddSwap(Elements(b, n), x, a[i]);
      AddSwap(Elements(a, n), a[p], x);
      Cancel(r + multiset{a[i]}, Elements(a, n) + multiset{x}, a[p]);
    } else {
      ElementsUpdate(a, i, x, n);
    }
  }

  /**
   * The sift-up invariant with the hole at i: every edge whose child is not
   * the hole is ordered, the hole's parent dominates the hole's children, and
   * x dominates the hole's children.
   */
  ghost predicate UpInv(a: seq<Node>, i: nat, x: Node, n: nat)
    requires 1 <= i <= n < |a|
  {
    && (forall c :: 2 <= c <= n && c != i ==> a[c / 2].priority >= a[c].priority)
    && (i > 1 ==> forall c :: 2 <= c <= n && c / 2 == i ==> a[i / 2].priority >= a[c].priority)
    && (forall c :: 2 <= c <= n && c / 2 == i ==> x.priority >= a[c].priority)
  }

  lemma {:induction false} SiftUpOrdered(a: seq<Node>, i: nat, x: Node, n: nat)
    requires 1 <= i <= n < |a|
    requires UpInv(a, i, x, n)
    ensures HeapOrdered(SiftUp(a, i, x), n)
    decreases i
  {
    if i > 1 && a[i / 2].priority < x.priority {
      var p := i / 2;
      var b := a[i := a[p]];
      forall c | 2 <= c <= n && c != p
        ensures b[c / 2].priority >= b[c].priority
      {
        if c == i {
        } else if c / 2 == i {
        } else if c / 2 == p {
          assert a[p].priority >= a[c].priority;
        }
      }
      if p > 1 {
        forall c | 2 <= c <= n && c / 2 == p
          ensures b[p / 2].priority >= b[c].priority
        {
          assert a[p / 2].priority >= a[p].priority;
          if c != i {
            assert a[p].priority >= a[c].priority;
          }
        }
      }
      forall c | 2 <= c <= n && c / 2 == p
        ensures x.priority >= b[c].priority
      {
        if c != i {
          assert a[p].priority >= a[c].priority;
        }
      }
      SiftUpOrdered(b, p, x, n);
    } else {
      var b := a[i := x];
      forall k | 2 <= k <= n && k < |b|
        ensures b[k / 2].priority >= b[k].priority
      {
        if k == i {
        } else if k / 2 == i {
        }
      }
    }
  }

  /** Moving the hole down from i: the live multiset loses the hole's stale entry. */
  lemma {:induction false} SiftDownElements(a: seq<Node>, i: nat, n: nat)
    requires 1 <= i <= n + 1 < |a|
    ensures Elements(SiftDown(a, i, n), n) + multiset{a[i]} == Elements(a, n + 1)
    decreases n + 1 - i
  {
    if i <= n {
      var k := Child(a, i, n);
      var b := a[i := a[k]];
      SiftDownElements(b, k, n);
      ElementsUpdate(a, i, a[k], n + 1);
      var r := Elements(SiftDown(b, k, n), n);
      AddSwap(r, a[i], a[k]);
      Cancel(r + multiset{a[i]}, Elements(a, n + 1), a[k]);
    }
  }

  /**
   * The sift-down invariant with the hole at i and x in slot n+1: every edge
   * that does not touch the hole is ordered, the hole's parent dominates the
   * hole's children, and the hole's parent dominates x.
   */
  ghost predicate DownInv(a: seq<Node>, i: nat, n: nat)
    requires 1 <= i <= n + 1 < |a|
  {
    && (forall c :: 2 <= c <= n && c != i && c / 2 != i ==> a[c / 2].priority >= a[c].priority)
    && (i > 1 ==> forall c :: 2 <= c <= n && c / 2 == i ==> a[i / 2].priority >= a[c].priority)
    && (1 < i <= n ==> a[i / 2].priority >= a[n + 1].priority)
  }

  /** One sift-down step keeps the invariant, with the hole moved to Child. */
  lemma DownStep(a: seq<Node>, i: nat, n: nat)
    requires 1 <= i <= n < |a| - 1
    requires DownInv(a, i, n)
    ensures DownInv(a[i := a[Child(a, i, n)]], Child(a, i, n), n)
  {
    var k := Child(a, i, n);
    var b := a[i := a[k]];
    forall c | 2 <= c <= n && c != k && c / 2 != k
      ensures b[c / 2].priority >= b[c].priority
    {
      if c == i {
        assert a[i / 2].priority >= a[k].priority;
      } else if c / 2 == i {
        assert c == 2 * i || c == 2 * i + 1;
      }
    }
    if k > 1 {
      forall c | 2 <= c <= n && c / 2 == k
        ensures b[k / 2].priority >= b[c].priority
      {
        assert c != i && c / 2 != i;
      }
    }
  }

  lemma {:induction false} SiftDownOrdered(a: seq<Node>, i: nat, n: nat)
    requires 1 <= i <= n + 1 < |a|
    requires DownInv(a, i, n)
    ensures HeapOrdered(SiftDown(a, i, n), n)
    decreases n + 1 - i
  {
    if i <= n {
      DownStep(a, i, n);
      SiftDownOrdered(a[i := a[Child(a, i, n)]], Child(a, i, n), n);
    }
  }

  /** In a heap the root has the largest priority. */
  lemma {:induction false} RootIsMax(a: seq<Node>, n: nat, k: nat)
    requires HeapOrdered(a, n) && 1 <= k <= n < |a|
    ensures a[1].priority >= a[k].priority
    decreases k
  {
    if k > 1 {
      RootIsMax(a, n, k / 2);
      assert Edge(a, k);
    }
  }

  /** Growing the array keeps the live slots and their heap order. */
  lemma GrowKeeps(a: seq<Node>, len: nat)
    requires len < |a| || (len == 0 && |a| == 0)
    requires HeapOrdered(a, len)
    ensures len + 1 < |Grow(a, len)|
    ensures HeapOrdered(Grow(a, len), len)
    ensures Elements(Grow(a, len), len) == Elements(a, len)
  {
    var g := Grow(a, len);
    ElementsAgree(a, g, len);
    forall c | 2 <= c <= len && c < |g| ensures Edge(g, c) {
      assert Edge(a, c);
    }
  }

  /** Sifting x up from slot len+1 of a heap of len entries gives a heap of len+1 entries. */
  lemma InsertOrdered(g: seq<Node>, len: nat, x: Node)
    requires len + 1 < |g| && HeapOrdered(g, len)
    ensures HeapOrdered(SiftUp(g, len + 1, x), len + 1)
  {
    var n := len + 1;
    forall c | 2 <= c <= n && c != n
      ensures g[c / 2].priority >= g[c].priority
    {
      assert Edge(g, c);
    }
    SiftUpOrdered(g, n, x, n);
  }

  /** Sifting x up from slot len+1 leaves the old live entries and x in slots 1..len+1. */
  lemma InsertElements(g: seq<Node>, len: nat, x: Node)
    requires len + 1 < |g|
    ensures Elements(SiftUp(g, len + 1, x), len + 1) == Elements(g, len) + multiset{x}
  {
    SiftUpElements(g, len + 1, x, len + 1);
    Cancel(Elements(SiftUp(g, len + 1, x), len + 1), Elements(g, len) + multiset{x}, g[len + 1]);
  }

  /**
   * What push promises: after growing the array and sifting x up from slot
   * len+1, the len+1 live slots are heap-ordered and hold the old entries
   * plus x.
   */
  lemma PushSpec(a: seq<Node>, len: nat, x: Node)
    requires len < |a| || (len == 0 && |a| == 0)
    requires HeapOrdered(a, len)
    ensures len + 1 < |Grow(a, len)|
    ensures HeapOrdered(SiftUp(Grow(a, len), len + 1, x), len + 1)
    ensures Elements(SiftUp(Grow(a, len), len + 1, x), len + 1) == Elements(a, len) + multiset{x}
  {
    GrowKeeps(a, len);
    InsertOrdered(Grow(a, len), len, x);
    InsertElements(Grow(a, len), len, x);
  }

  lemma PopElements(a: seq<Node>, len: nat)
    requires 1 <= len < |a|
    ensures Elements(SiftDown(a[1 := a[len]], 1, len - 1), len - 1) + multiset{a[1]} == Elements(a, len)
  {
    var b := a[1 := a[len]];
    SiftDownElements(b, 1, len - 1);
    ElementsUpdate(a, 1, a[len], len);
    Cancel(Elements(SiftDown(b, 1, len - 1), len - 1) + multiset{a[1]}, Elements(a, len), a[len]);
  }

  /** With the last entry moved to the root and sifted down, slots 1..len-1 are heap-ordered. */
  lemma PopOrdered(a: seq<Node>, len: nat)
    requires 1 <= len < |a|
    requires HeapOrdered(a, len)
    ensures HeapOrdered(SiftDown(a[1 := a[len]], 1, len - 1), len - 1)
  {
    var b := a[1 := a[len]];
    var n := len - 1;
    forall c | 2 <= c <= n && c != 1 && c / 2 != 1
      ensures b[c / 2].priority >= b[c].priority
    {
      assert Edge(a, c);
    }
    assert DownInv(b, 1, n);
    SiftDownOrdered(b, 1, n);
  }

  /**
   * What pop's removal promises: with the last entry moved to the root and
   * then sifted down, the len-1 live slots are heap-ordered and hold the old
   * entries minus the old root.
   */
  lemma RemoveSpec(a: seq<Node>, len: nat)
    requires 1 <= len < |a|
    requires HeapOrdered(a, len)
    ensures HeapOrdered(SiftDown(a[1 := a[len]], 1, len - 1), len - 1)
    ensures Elements(SiftDown(a[1 := a[len]], 1, len - 1), len - 1) + multiset{a[1]} == Elements(a, len)
  {
    PopOrdered(a, len);
    PopElements(a, len);
  }

  /** The root of a non-empty heap is one of its entries and has the largest priority. */
  lemma RootSpec(a: seq<Node>, len: nat)
    requires 1 <= len < |a|
    requires HeapOrdered(a, len)
    ensures a[1] in Elements(a, len)
    ensures forall e :: e in Elements(a, len) ==> e.priority <= a[1].priority
  {
    ElementsMembers(a, len);
    forall e | e in Elements(a, len) ensures e.priority <= a[1].priority {
      var k :| 1 <= k <= len && a[k] == e;
      RootIsMax(a, len, k);
    }
  }

  /**
   * The growth step of push (src/queue.c:16-20): a fresh array of NewSize
   * slots whose first slots are copies of the old ones (realloc).
   */
  method Reallocate(nodes: array<Node>, len: nat) returns (grown: array<Node>)
    requires len + 1 >= nodes.Length
    ensures fresh(grown)
    ensures grown[..] == Grow(nodes[..], len)
  {
    var newSize := if nodes.Length != 0 then nodes.Length * 2 else InitSize;
    grown := new Node[newSize](_ => Filler);
    forall k | 0 <= k < nodes.Length {
      grown[k] := nodes[k];
    }
    assert grown[..] == Grow(nodes[..], len);
  }

  /** The sift-up loop of push (src/queue.c:22-33), in place. */
  method SiftUpLoop(nodes: array<Node>, start: nat, x: Node, ghost a: seq<Node>)
    requires 1 <= start < nodes.Length && nodes[..] == a
    modifies nodes
    ensures nodes[..] == SiftUp(a, start, x)
  {
    var i := start;
    var j := i / 2;
    while i > 1 && nodes[j].priority < x.priority
      invariant 1 <= i <= start
      invariant j == i / 2
      invariant SiftUp(nodes[..], i, x) == SiftUp(a, start, x)
      decreases i
    {
      nodes[i] := nodes[j];
      i := j;
      j := j / 2;
    }
    nodes[i] := x;
  }

  /**
   * The body of pop after the root is read (src/queue.c:41-57): move slot len
   * to the root, then the sift-down loop over the len-1 remaining entries,
   * with the moved entry in slot len.
   */
  method SiftDownLoop(nodes: array<Node>, len: nat, ghost a: seq<Node>)
    requires 1 <= len < nodes.Length && nodes[..] == a
    modifies nodes
    ensures nodes[..] == SiftDown(a[1 := a[len]], 1, len - 1)
  {
    nodes[1] := nodes[len];
    assert nodes[..] == a[1 := a[len]];
    var n := len - 1;
    var i := 1;
    while i != n + 1
      invariant 1 <= i <= n + 1
      invariant SiftDown(nodes[..], i, n) == SiftDown(a[1 := a[len]], 1, n)
      decreases n + 1 - i
    {
      var k := n + 1;
      var j := 2 * i;
      if j <= n && nodes[j].priority > nodes[k].priority {
        k := j;
      }
      if j + 1 <= n && nodes[j + 1].priority > nodes[k].priority {
        k := j + 1;
      }
      assert k == Child(nodes[..], i, n);
      nodes[i] := nodes[k];
      i := k;
    }
  }

  /* ---------------------------------------------------------------------- */
  /* prior_queue (src/queue.h:39-44, src/queue.c)                            */
  /* ---------------------------------------------------------------------- */

  class PriorityQueue {
    var nodes: array<Node>
    var len: nat
    var size: nat
    /** The (priority, data) pairs in slots 1..len. */
    ghost var contents: multiset<Node>

    /**
     * size is the allocated length, slot len+1 is in bounds once allocated,
     * heap order holds and contents are the live slots.
     */
    ghost predicate Valid()
      reads this, nodes
    {
      && size == nodes.Length
      && (len < size || (len == 0 && size == 0))
      && HeapOrdered(nodes[..], len)
      && (forall n :: n == len ==> contents == Elements(nodes[..], n))
    }

    /** A zero-filled prior_queue, as safe_calloc returns it. */
    constructor ()
      ensures Valid() && len == 0 && size == 0 && contents == multiset{}
      ensures fresh(nodes)
    {
      nodes := new Node[0];
      len, size := 0, 0;
      contents := multiset{};
    }

    /** The growth test of push (src/queue.c:16-20). */
    method Reserve()
      requires Valid()
      modifies this
      ensures Valid() && len == old(len) && contents == old(contents)
      ensures size == NewSize(old(size), len) && len + 1 < size
      ensures nodes == old(nodes) || fresh(nodes)
      ensures nodes[..] == Grow(old(nodes[..]), len)
    {
      GrowKeeps(nodes[..], len);
      if len + 1 >= size {
        nodes := Reallocate(nodes, len);
        size := nodes.Length;
      }
    }

    /** The sift-up of push (src/queue.c:22-33), with room for slot len+1. */
    method Insert(x: Node)
      requires Valid() && len + 1 < size
      modifies this, nodes
      ensures Valid()
      ensures nodes == old(nodes) && size == old(size) && len == old(len) + 1
      ensures nodes[..] == SiftUp(old(nodes[..]), len, x)
      ensures contents == old(contents) + multiset{x}
    {
      ghost var before := nodes[..];
      InsertOrdered(before, len, x);
      InsertElements(before, len, x);
      SiftUpLoop(nodes, len + 1, x, before);
      len, contents := len + 1, contents + multiset{x};
    }

    /** push (src/queue.c:13-34): grow if needed, then sift the new entry up. */
    method Push(priority: real, data: Candidate)
      requires Valid()
      modifies this, nodes
      ensures Valid()
      ensures size == NewSize(old(size), old(len)) && len == old(len) + 1 && len < size
      ensures nodes == old(nodes) || fresh(nodes)
      ensures nodes[..] == SiftUp(Grow(old(nodes[..]), old(len)), len, Node(priority, data))
      ensures contents == old(contents) + multiset{Node(priority, data)}
    {
      Reserve();
      Insert(Node(priority, data));
    }

    /**
     * The body of pop after the root is read (src/queue.c:41-57): the last
     * entry moves to the root, len drops and the sift-down restores the heap.
     */
    method RemoveRoot()
      requires Valid() && len >= 1
      modifies this, nodes
      ensures Valid()
      ensures nodes == old(nodes) && size == old(size) && len == old(len) - 1
      ensures nodes[..] == SiftDown(old(nodes[..])[1 := old(nodes[len])], 1, len)
      ensures contents == old(contents) - multiset{old(nodes[1])}
    {
      ghost var before := nodes[..];
      RemoveSpec(before, len);
      SiftDownLoop(nodes, len, before);
      len, contents := len - 1, contents - multiset{before[1]};
    }

    /**
     * pop (src/queue.c:36-60): returns the root's data, an entry of the
     * largest priority; its caller guarantees len >= 1.
     */
    method Pop() returns (data: Candidate)
      requires Valid() && len >= 1
      modifies this, nodes
      ensures Valid()
      ensures nodes == old(nodes) && size == old(size) && len == old(len) - 1
      ensures data == old(nodes[1]).data
      ensures old(nodes[1]) in old(contents)
      ensures nodes[..] == SiftDown(old(nodes[..])[1 := old(nodes[len])], 1, len)
      ensures contents == old(contents) - multiset{old(nodes[1])}
      ensures forall e :: e in old(contents) ==> e.priority <= old(nodes[1]).priority
    {
      RootSpec(nodes[..], len);
      data := nodes[1].data;
      RemoveRoot();
    }
  }

  /** The multiset of a sequence of entries, built one entry at a time. */
  ghost function Bag(s: seq<Node>): multiset<Node>
    decreases |s|
  {
    if |s| == 0 then multiset{} else Bag(s[..|s| - 1]) + multiset{s[|s| - 1]}
  }

  lemma {:induction false} BagIsMultiset(s: seq<Node>)
    ensures Bag(s) == multiset(s)
    decreases |s|
  {
    if |s| > 0 {
      BagIsMultiset(s[..|s| - 1]);
      assert s == s[..|s| - 1] + [s[|s| - 1]];
    }
  }

  lemma BagConcat(a: seq<Node>, b: seq<Node>)
    ensures Bag(a + b) == Bag(a) + Bag(b)
  {
    BagIsMultiset(a);
    BagIsMultiset(b);
    BagIsMultiset(a + b);
  }

  lemma BagSize(s: seq<Node>)
    ensures |Bag(s)| == |s|
  {
    BagIsMultiset(s);
  }

  /** A valid queue holds len entries. */
  lemma LiveCount(q: PriorityQueue)
    requires q.Valid()
    ensures |q.contents| == q.len
  {
    ElementsCount(q.nodes[..], q.len);
  }

  /** Pushes every entry into a new queue. */
  method PushAll(entries: seq<Node>) returns (q: PriorityQueue)
    ensures fresh(q) && fresh(q.nodes) && q.Valid()
    ensures q.contents == multiset(entries)
  {
    q := new PriorityQueue();
    for t := 0 to |entries|
      invariant fresh(q) && fresh(q.nodes) && q.Valid()
      invariant q.contents == multiset(entries[..t])
    {
      PrefixMultiset(entries, t);
      q.Push(entries[t].priority, entries[t].data);
    }
    assert entries[..|entries|] == entries;
  }

  lemma PrefixMultiset(s: seq<Node>, t: nat)
    requires t < |s|
    ensures multiset(s[..t + 1]) == multiset(s[..t]) + multiset{Node(s[t].priority, s[t].data)}
  {
    assert s[..t + 1] == s[..t] + [s[t]];
  }

  /** Each entry's priority is at least its successor's. */
  predicate NonIncreasing(s: seq<Node>) {
    forall i :: 0 < i < |s| ==> Descends(s, i)
  }

  predicate Descends(s: seq<Node>, i: nat)
    requires 0 < i < |s|
  {
    s[i - 1].priority >= s[i].priority
  }

  lemma {:induction false} NonIncreasingPairwise(s: seq<Node>)
    requires NonIncreasing(s)
    ensures forall i, j :: 0 <= i < j < |s| ==> s[i].priority >= s[j].priority
  {
    if |s| > 1 {
      var t := s[..|s| - 1];
      forall i | 0 < i < |t| ensures Descends(t, i) {
        assert Descends(s, i);
      }
      NonIncreasingPairwise(t);
      forall i, j | 0 <= i < j < |s| ensures s[i].priority >= s[j].priority {
        if j == |s| - 1 && i < j - 1 {
          assert Descends(s, j);
          assert t[i].priority >= t[j - 1].priority;
        } else if j < |s| - 1 {
          assert t[i].priority >= t[j].priority;
        } else {
          assert Descends(s, j);
        }
      }
    }
  }

  lemma AppendNonIncreasing(s: seq<Node>, x: Node)
    requires NonIncreasing(s)
    requires |s| > 0 ==> s[|s| - 1].priority >= x.priority
    ensures NonIncreasing(s + [x])
  {
    var t := s + [x];
    forall i | 0 < i < |t| ensures Descends(t, i) {
      if i < |s| {
        assert Descends(s, i);
      }
    }
  }

  /**
   * While draining: the popped entries are in non-increasing order and every
   * entry still queued has at most the priority of the last one popped.
   */
  ghost predicate DrainInv(live: multiset<Node>, popped: seq<Node>) {
    && NonIncreasing(popped)
    && forall e :: |popped| > 0 && e in live ==> e.priority <= popped[|popped| - 1].priority
  }

  /** Popping a maximal entry top of live keeps the drain invariant. */
  lemma DrainStep(live: multiset<Node>, popped: seq<Node>, top: Node)
    requires DrainInv(live, popped) && top in live
    requires forall e :: e in live ==> e.priority <= top.priority
    ensures DrainInv(live - multiset{top}, popped + [top])
    ensures multiset(popped + [top]) + (live - multiset{top}) == multiset(popped) + live
  {
    AppendNonIncreasing(popped, top);
  }

  /** One iteration of PopAll: pop the root and append it. */
  method PopStep(q: PriorityQueue, popped: seq<Node>) returns (next: seq<Node>)
    requires q.Valid() && q.len > 0 && DrainInv(q.contents, popped)
    modifies q, q.nodes
    ensures q.Valid() && q.nodes == old(q.nodes) && q.len == old(q.len) - 1
    ensures multiset(next) + q.contents == multiset(popped) + old(q.contents)
    ensures DrainInv(q.contents, next)
  {
    var top := q.nodes[1];
    ghost var live := q.contents;
    var data := q.Pop();
    DrainStep(live, popped, top);
    next := popped + [top];
  }

  /** Pops until the queue is empty, as the admission loop does. */
  method PopAll(q: PriorityQueue) returns (popped: seq<Node>)
    requires q.Valid()
    modifies q, q.nodes
    ensures q.Valid() && q.len == 0
    ensures multiset(popped) == old(q.contents)
    ensures NonIncreasing(popped)
  {
    popped := [];
    while q.len > 0
      invariant q.Valid() && q.nodes == old(q.nodes)
      invariant multiset(popped) + q.contents == old(q.contents)
      invariant DrainInv(q.contents, popped)
      decreases q.len
    {
      popped := PopStep(q, popped);
    }
    LiveCount(q);
  }

  /**
   * Pushing entries and then popping until the queue is empty returns every
   * entry once, in non-increasing priority order.
   */
  method PushThenPopAll(entries: seq<Node>) returns (popped: seq<Node>)
    ensures multiset(popped) == multiset(entries)
    ensures forall i, j :: 0 <= i < j < |popped| ==> popped[i].priority >= popped[j].priority
  {
    var q := PushAll(entries);
    popped := PopAll(q);
    NonIncreasingPairwise(popped);
  }
}
