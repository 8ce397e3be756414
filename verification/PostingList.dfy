/** Posting lists as linked nodes on the heap, and their in-place intersection. */
module PostingList {
  class Node {
    var docID: int
    var next: Node?

    constructor () {
      docID, next := 0, null;
    }
  }

  ghost function NextOf(nodes: seq<Node>, i: nat): Node?
    requires i < |nodes|
  {
    if i + 1 < |nodes| then nodes[i + 1] else null
  }

  /** The list starting at `head` consists of exactly `nodes`, in this order. */
  ghost predicate IsList(head: Node?, nodes: seq<Node>)
    reads nodes`next
  {
    && head == (if nodes == [] then null else nodes[0])
    && forall i :: 0 <= i < |nodes| ==> nodes[i].next == NextOf(nodes, i)
  }

  /** The document numbers of a list. */
  ghost function Docs(nodes: seq<Node>): (docs: seq<int>)
    reads nodes`docID
    ensures |docs| == |nodes|
    ensures forall i :: 0 <= i < |nodes| ==> docs[i] == nodes[i].docID
  {
    if nodes == [] then [] else [nodes[0].docID] + Docs(nodes[1..])
  }

  // ----- intersection -----

  /** The two-cursor merge: equal heads are kept once for both, otherwise the smaller head is skipped. */
  function Merge(s: seq<int>, t: seq<int>): seq<int>
    decreases |s| + |t|
  {
    if s == [] || t == [] then []
    else if s[0] == t[0] then [s[0]] + Merge(s[1..], t[1..])
    else if s[0] < t[0] then Merge(s[1..], t)
    else Merge(s, t[1..])
  }

  ghost predicate Sorted(s: seq<int>) {
    forall i, j :: 0 <= i < j < |s| ==> s[i] <= s[j]
  }

  lemma {:induction false} MergeLength(s: seq<int>, t: seq<int>)
    ensures |Merge(s, t)| <= |s| && |Merge(s, t)| <= |t|
    decreases |s| + |t|
  {
    if s == [] || t == [] {
    } else {
      if s[0] == t[0] {
        MergeLength(s[1..], t[1..]);
      } else if s[0] < t[0] {
        MergeLength(s[1..], t);
      } else {
        MergeLength(s, t[1..]);
      }
    }
  }

  lemma HeadAndTail(s: seq<int>)
    requires s != []
    ensures multiset(s) == multiset{s[0]} + multiset(s[1..])
    ensures Sorted(s) ==> Sorted(s[1..])
  {
    assert s == [s[0]] + s[1..];
  }

  /** In a sorted list nothing lies below the head. */
  lemma BelowHead(s: seq<int>, x: int)
    requires Sorted(s) && s != [] && x < s[0]
    ensures multiset(s)[x] == 0
  {
    assert x !in s;
  }

  /** For sorted lists the merge is their multiset intersection. */
  lemma {:induction false} MergeIsIntersection(s: seq<int>, t: seq<int>)
    requires Sorted(s) && Sorted(t)
    ensures multiset(Merge(s, t)) == multiset(s) * multiset(t)
    decreases |s| + |t|
  {
    if s == [] || t == [] {
    } else {
      HeadAndTail(s);
      HeadAndTail(t);
      if s[0] == t[0] {
        MergeIsIntersection(s[1..], t[1..]);
      } else if s[0] < t[0] {
        BelowHead(t, s[0]);
        MergeIsIntersection(s[1..], t);
      } else {
        BelowHead(s, t[0]);
        MergeIsIntersection(s, t[1..]);
      }
    }
  }

  lemma {:induction false} MergeMembers(s: seq<int>, t: seq<int>, x: int)
    requires x in Merge(s, t)
    ensures x in s && x in t
    decreases |s| + |t|
  {
    if s[0] == t[0] {
      if x != s[0] {
        MergeMembers(s[1..], t[1..], x);
      }
    } else if s[0] < t[0] {
      MergeMembers(s[1..], t, x);
    } else {
      MergeMembers(s, t[1..], x);
    }
  }

  lemma {:induction false} MergeIsSorted(s: seq<int>, t: seq<int>)
    requires Sorted(s) && Sorted(t)
    ensures Sorted(Merge(s, t))
    decreases |s| + |t|
  {
    if s == [] || t == [] {
    } else {
      HeadAndTail(s);
      HeadAndTail(t);
      if s[0] == t[0] {
        var rest := Merge(s[1..], t[1..]);
        MergeIsSorted(s[1..], t[1..]);
        forall k | 0 <= k < |rest| ensures s[0] <= rest[k] {
          MergeMembers(s[1..], t[1..], rest[k]);
        }
      } else if s[0] < t[0] {
        MergeIsSorted(s[1..], t);
      } else {
        MergeIsSorted(s, t[1..]);
      }
    }
  }

  /** What is still to be merged once `i` documents of `s` and `j` of `t` have been consumed. */
  function Rest(s: seq<int>, t: seq<int>, i: nat, j: nat): seq<int>
    requires i <= |s| && j <= |t|
  {
    Merge(s[i..], t[j..])
  }

  lemma RestStep(s: seq<int>, t: seq<int>, i: nat, j: nat)
    requires i <= |s| && j <= |t|
    ensures i == |s| || j == |t| ==> Rest(s, t, i, j) == []
    ensures i < |s| && j < |t| ==>
              Rest(s, t, i, j) ==
                if s[i] == t[j] then [s[i]] + Rest(s, t, i + 1, j + 1)
                else if s[i] < t[j] then Rest(s, t, i + 1, j)
                else Rest(s, t, i, j + 1)
    ensures Rest(s, t, 0, 0) == Merge(s, t)
  {
    if i < |s| {
      assert s[i..][1..] == s[i + 1..];
    }
    if j < |t| {
      assert t[j..][1..] == t[j + 1..];
    }
    assert s[0..] == s && t[0..] == t;
  }

  /** At equal documents the merge continues with that document. */
  lemma NextMerged(s: seq<int>, t: seq<int>, i: nat, j: nat, merged: seq<int>, k: nat)
    requires i < |s| && j < |t| && s[i] == t[j]
    requires k <= |merged| && merged[k..] == Rest(s, t, i, j)
    ensures k < |merged| && merged[k] == s[i] && merged[k + 1..] == Rest(s, t, i + 1, j + 1)
  {
    hide Rest;
    RestStep(s, t, i, j);
    assert merged[k] == merged[k..][0] && merged[k + 1..] == merged[k..][1..];
  }

  lemma NothingMoreMerged(s: seq<int>, t: seq<int>, i: nat, j: nat, merged: seq<int>, k: nat)
    requires i <= |s| && j <= |t| && (i == |s| || j == |t|)
    requires k <= |merged| && merged[k..] == Rest(s, t, i, j)
    ensures k == |merged|
  {
    hide Rest;
    RestStep(s, t, i, j);
  }

  ghost predicate CursorAt(cur: Node?, nodes: seq<Node>, i: nat) {
    i <= |nodes| && cur == if i < |nodes| then nodes[i] else null
  }

  lemma FirstCursor(head: Node?, nodes: seq<Node>)
    requires IsList(head, nodes)
    ensures CursorAt(head, nodes, 0)
  {
  }

  lemma NextCursor(head: Node?, nodes: seq<Node>, cur: Node?, i: nat)
    requires IsList(head, nodes) && CursorAt(cur, nodes, i)
    requires cur != null || i < |nodes|
    ensures i < |nodes| && cur == nodes[i] && CursorAt(cur.next, nodes, i + 1)
  {
  }

  lemma CursorAtEnd(nodes: seq<Node>, i: nat)
    requires CursorAt(null, nodes, i)
    ensures i == |nodes|
  {
  }

  ghost predicate Apart(s: seq<Node>, t: seq<Node>) {
    forall i, j :: 0 <= i < |s| && 0 <= j < |t| ==> s[i] != t[j]
  }

  ghost predicate NoRepeats(s: seq<Node>) {
    forall i, j :: 0 <= i < j < |s| ==> s[i] != s[j]
  }

  /** A list that ends has no node twice: from equal nodes on, both walks would go on alike, and only one can end. */
  lemma {:induction false} SameNodeSamePlace(head: Node?, nodes: seq<Node>, i: nat, j: nat)
    requires IsList(head, nodes) && i < j < |nodes|
    ensures nodes[i] != nodes[j]
    decreases |nodes| - j
  {
    assert nodes[i].next == NextOf(nodes, i) && nodes[j].next == NextOf(nodes, j);
    if j + 1 == |nodes| {
    } else {
      SameNodeSamePlace(head, nodes, i + 1, j + 1);
    }
  }

  lemma NoNodeTwice(head: Node?, nodes: seq<Node>)
    requires IsList(head, nodes)
    ensures NoRepeats(nodes)
  {
    forall i, j | 0 <= i < j < |nodes| ensures nodes[i] != nodes[j] {
      SameNodeSamePlace(head, nodes, i, j);
    }
  }

  /** The first `k` documents of a list are those of `merged`, the others those of `before`. */
  ghost predicate Overwritten(nodes: seq<Node>, merged: seq<int>, before: seq<int>, k: nat)
    reads nodes`docID
  {
    && k <= |merged| && k <= |nodes| == |before|
    && (forall i :: 0 <= i < k ==> nodes[i].docID == merged[i])
    && (forall i :: k <= i < |nodes| ==> nodes[i].docID == before[i])
  }

  lemma NothingOverwritten(nodes: seq<Node>, merged: seq<int>, before: seq<int>)
    requires before == Docs(nodes)
    ensures Overwritten(nodes, merged, before, 0)
  {
  }

  lemma OverwrittenAll(nodes: seq<Node>, merged: seq<int>, before: seq<int>)
    requires Overwritten(nodes, merged, before, |merged|)
    ensures |merged| <= |nodes| && Docs(nodes) == merged + before[|merged|..]
  {
  }

  lemma OverwrittenFront(nodes: seq<Node>, merged: seq<int>, before: seq<int>)
    requires Overwritten(nodes, merged, before, |nodes|)
    ensures Docs(nodes) == merged[..|nodes|]
  {
  }

  /** `cur3->docID = cur1->docID`: one more document of the result is in place. */
  method PutDocument(node: Node, docID: int,
                     ghost result: seq<Node>, ghost merged: seq<int>, ghost before: seq<int>, ghost k: nat)
    requires k < |result| && result[k] == node && NoRepeats(result)
    requires Overwritten(result, merged, before, k) && k < |merged| && merged[k] == docID
    modifies node`docID
    ensures Overwritten(result, merged, before, k + 1)
  {
    node.docID := docID;
  }

  lemma ApartKeepsDocs(s: seq<Node>, t: seq<Node>, node: Node, k: nat)
    requires Apart(s, t) && k < |s| && s[k] == node
    ensures forall i :: 0 <= i < |t| ==> t[i] != node
  {
  }

  /**
   intersect_posting_lists: the merge overwrites the front of the result list and leaves its tail, its links and both
   inputs alone. If the result list is shorter than the merge, and only then, the program runs off its end: it comes to
   write a document through a null cursor. A list as long as the shorter input is always long enough.
   */
  method IntersectPostingLists(intersected: Node?, head1: Node?, head2: Node?,
                               ghost result: seq<Node>, ghost list1: seq<Node>, ghost list2: seq<Node>)
    returns (overrun: bool)
    requires IsList(intersected, result) && IsList(head1, list1) && IsList(head2, list2)
    requires Apart(result, list1) && Apart(result, list2)
    modifies result`docID
    ensures var merged := Merge(old(Docs(list1)), old(Docs(list2)));
            && (overrun <==> |merged| > |result|)
            && Docs(result) == if overrun then merged[..|result|] else merged + old(Docs(result))[|merged|..]
    ensures IsList(intersected, result) && IsList(head1, list1) && IsList(head2, list2)
    ensures Docs(list1) == old(Docs(list1)) && Docs(list2) == old(Docs(list2))
  {
    hide *;
    var cur1, cur2, cur3 := head1, head2, intersected;
    ghost var docs1, docs2, before := Docs(list1), Docs(list2), Docs(result);
    ghost var i1: nat, i2: nat, i3: nat := 0, 0, 0;
    ghost var merged := Merge(docs1, docs2);
    RestStep(docs1, docs2, 0, 0);
    NothingOverwritten(result, merged, before);
    NoNodeTwice(intersected, result);
    FirstCursor(head1, list1);
    FirstCursor(head2, list2);
    FirstCursor(intersected, result);
    while cur1 != null && cur2 != null
      invariant CursorAt(cur1, list1, i1) && CursorAt(cur2, list2, i2) && CursorAt(cur3, result, i3)
      invariant Docs(list1) == docs1 && Docs(list2) == docs2
      invariant i1 <= |docs1| && i2 <= |docs2|
      invariant i3 <= |merged| && merged[i3..] == Rest(docs1, docs2, i1, i2)
      invariant Overwritten(result, merged, before, i3)
      decreases |list1| - i1 + |list2| - i2
    {
      RestStep(docs1, docs2, i1, i2);
      NextCursor(head1, list1, cur1, i1);
      NextCursor(head2, list2, cur2, i2);
      if cur1.docID == cur2.docID {
        NextMerged(docs1, docs2, i1, i2, merged, i3);
        if cur3 == null {
          CursorAtEnd(result, i3);
          OverwrittenFront(result, merged, before);
          return true;
        }
        NextCursor(intersected, result, cur3, i3);
        ApartKeepsDocs(result, list1, cur3, i3);
        ApartKeepsDocs(result, list2, cur3, i3);
        PutDocument(cur3, cur1.docID, result, merged, before, i3);
        cur3 := cur3.next;
        cur1 := cur1.next;
        cur2 := cur2.next;
        i1, i2, i3 := i1 + 1, i2 + 1, i3 + 1;
      } else if cur1.docID < cur2.docID {
        cur1 := cur1.next;
        i1 := i1 + 1;
      } else {
        cur2 := cur2.next;
        i2 := i2 + 1;
      }
    }
    if cur1 == null {
      CursorAtEnd(list1, i1);
    } else {
      CursorAtEnd(list2, i2);
    }
    NothingMoreMerged(docs1, docs2, i1, i2, merged, i3);
    OverwrittenAll(result, merged, before);
    return false;
  }

  // ----- building and freeing -----

  /** The documents 0 to length - 1; a list is never empty, so below one element it holds length - 1 alone. */
  function Numbered(length: int): seq<int> {
    if length <= 0 then [length - 1] else seq(length, i => i)
  }

  ghost function Successor(done: seq<Node>, open: Node, i: nat): Node
    requires i < |done|
  {
    if i + 1 < |done| then done[i + 1] else open
  }

  /** The finished nodes of a list under construction: numbered from 0, each naming its successor, the last `open`. */
  ghost predicate Linked(done: seq<Node>, open: Node)
    reads done
  {
    forall i :: 0 <= i < |done| ==> done[i].docID == i && done[i].next == Successor(done, open, i)
  }

  lemma NothingLinked(open: Node)
    ensures Linked([], open)
  {
  }

  lemma LinkedStep(done: seq<Node>, open: Node, next: Node)
    requires Linked(done, open) && open.docID == |done| && open.next == next
    ensures Linked(done + [open], next)
  {
    var longer := done + [open];
    forall i | 0 <= i < |longer|
      ensures longer[i].docID == i && longer[i].next == Successor(longer, next, i)
    {
      if i < |done| {
        assert longer[i] == done[i] && done[i].next == Successor(done, open, i);
      }
    }
  }

  lemma LinkedToTheEnd(done: seq<Node>, last: Node, length: int)
    requires Linked(done, last) && last.docID == length - 1 && last.next == null
    requires |done| == if length <= 0 then 0 else length - 1
    ensures IsList((done + [last])[0], done + [last])
    ensures Docs(done + [last]) == Numbered(length)
  {
    var nodes := done + [last];
    forall i | 0 <= i < |nodes|
      ensures nodes[i].next == NextOf(nodes, i)
      ensures nodes[i].docID == if length <= 0 then length - 1 else i
    {
      if i < |done| {
        assert nodes[i] == done[i] && done[i].next == Successor(done, last, i);
      }
    }
  }

  /** The documents of a list under construction, one by one. */
  lemma NumberedNodes(nodes: seq<Node>, length: int)
    requires Docs(nodes) == Numbered(length)
    ensures length <= 0 ==> |nodes| == 1 && nodes[0].docID == length - 1
    ensures length > 0 ==> |nodes| == length && forall i :: 0 <= i < length ==> nodes[i].docID == i
  {
    assert |Docs(nodes)| == |nodes| && forall i :: 0 <= i < |nodes| ==> Docs(nodes)[i] == nodes[i].docID;
  }

  method BuildHostList(length: int) returns (head: Node, ghost nodes: seq<Node>)
    ensures IsList(head, nodes) && fresh(nodes)
    ensures Docs(nodes) == Numbered(length)
    ensures length <= 0 ==> |nodes| == 1 && nodes[0].docID == length - 1
    ensures length > 0 ==> |nodes| == length && forall i :: 0 <= i < length ==> nodes[i].docID == i
  {
    hide IsList, Numbered, Docs, Linked;
    head := new Node();
    var cur := head;
    ghost var done: seq<Node> := [];
    NothingLinked(cur);
    var i := 0;
    while i < length - 1
      invariant 0 <= i && (i == 0 || i <= length - 1)
      invariant fresh(cur) && fresh(done) && cur !in done && |done| == i
      invariant head == (done + [cur])[0] && Linked(done, cur)
    {
      cur.docID := i;
      var next := new Node();
      cur.next := next;
      LinkedStep(done, cur, next);
      done := done + [cur];
      cur := next;
      i := i + 1;
    }
    cur.docID := length - 1;
    cur.next := null;
    LinkedToTheEnd(done, cur, length);
    nodes := done + [cur];
    NumberedNodes(nodes, length);
  }

  /** The device copies a whole node. */
  method CopyNode(dst: Node, src: Node)
    modifies dst
    ensures dst.docID == old(src.docID) && dst.next == old(src.next)
  {
    dst.docID, dst.next := src.docID, src.next;
  }

  /** The same list, each node filled in through a staging node that already names its successor. */
  method BuildLlcList(length: int) returns (head: Node, ghost nodes: seq<Node>)
    ensures IsList(head, nodes) && fresh(nodes)
    ensures Docs(nodes) == Numbered(length)
    ensures length <= 0 ==> |nodes| == 1 && nodes[0].docID == length - 1
    ensures length > 0 ==> |nodes| == length && forall i :: 0 <= i < length ==> nodes[i].docID == i
  {
    hide IsList, Numbered, Docs, Linked;
    var source := new Node();
    var dst := new Node();
    var target := new Node();
    head := dst;
    ghost var done: seq<Node> := [];
    NothingLinked(dst);
    var i := 0;
    while i < length - 1
      invariant 0 <= i && (i == 0 || i <= length - 1)
      invariant fresh(source) && fresh(dst) && fresh(target) && fresh(done)
      invariant dst !in done && source !in done && target !in done
      invariant source != dst && source != target && dst != target
      invariant |done| == i && head == (done + [dst])[0] && Linked(done, dst)
    {
      source.docID, source.next := i, target;
      CopyNode(dst, source);
      LinkedStep(done, dst, target);
      done := done + [dst];
      dst := target;
      target := new Node();
      i := i + 1;
    }
    source.docID, source.next := length - 1, null;
    CopyNode(dst, source);
    LinkedToTheEnd(done, dst, length);
    nodes := done + [dst];
    NumberedNodes(nodes, length);
  }

  /** The nodes that have been allocated and not yet freed. */
  class Allocator {
    var live: set<Node>

    constructor (live: set<Node>)
      ensures this.live == live
    {
      this.live := live;
    }

    method Next(node: Node) returns (next: Node?)
      requires node in live
      ensures next == node.next
    {
      next := node.next;
    }

    method Free(node: Node)
      requires node in live
      modifies this
      ensures live == old(live) - {node}
    {
      live := live - {node};
    }
  }

  /**
   free_ll: every node of the list is freed, once each and in list order, and none is read after it has been freed:
   Next and Free both demand a live node.
   */
  method FreeList(heap: Allocator, head: Node?, ghost nodes: seq<Node>) returns (freed: seq<Node>)
    requires IsList(head, nodes) && forall i :: 0 <= i < |nodes| ==> nodes[i] in heap.live
    modifies heap
    ensures freed == nodes && NoRepeats(freed)
    ensures heap.live == old(heap.live) - set node | node in nodes
  {
    NoNodeTwice(head, nodes);
    var cur := head;
    freed := [];
    while cur != null
      invariant CursorAt(cur, nodes, |freed|) && freed == nodes[..|freed|]
      invariant heap.live == old(heap.live) - set node | node in nodes[..|freed|]
      decreases |nodes| - |freed|
    {
      assert nodes[..|freed| + 1] == nodes[..|freed|] + [cur] && cur !in nodes[..|freed|];
      NextCursor(head, nodes, cur, |freed|);
      var next := heap.Next(cur);
      heap.Free(cur);
      freed := freed + [cur];
      cur := next;
    }
    assert nodes[..|nodes|] == nodes;
  }
}
