/** The frame queue of the mac driver (`util.cpp`, `USBUserClient.cpp`): a singly linked
    list with a tail pointer, and the bounded queue of HID frames on top of it. */
module FrameQueue {
  import opened Bytes
  import opened Machines
  import opened Wrappers

  // ------------------------------------------------------------- the linked list

  class Node<T> {
    var data: T
    var next: Node?<T>

    constructor (data: T)
      ensures this.data == data && next == null
    {
      this.data, next := data, null;
    }
  }

  /** `IOMallocZero` and `IOFree`. Only allocated nodes may be read or freed, so nothing is
      read after it is freed, and nothing is freed twice. */
  class Heap<T> {
    ghost var live: set<Node<T>>

    constructor ()
      ensures live == {}
    {
      live := {};
    }

    method Allocate(data: T) returns (node: Node<T>)
      modifies this
      ensures fresh(node) && node.data == data && node.next == null && live == old(live) + {node}
    {
      node := new Node(data);
      live := live + {node};
    }

    method Free(node: Node<T>)
      requires node in live
      modifies this
      ensures live == old(live) - {node}
    {
      live := live - {node};
    }

    method Next(node: Node<T>) returns (next: Node?<T>)
      requires node in live
      ensures next == node.next
    {
      next := node.next;
    }

    method Data(node: Node<T>) returns (data: T)
      requires node in live
      ensures data == node.data
    {
      data := node.data;
    }
  }

  predicate Distinct<T(==)>(s: seq<T>) {
    forall i, j :: 0 <= i < j < |s| ==> s[i] != s[j]
  }

  function Elements<T>(s: seq<T>): set<T> {
    set x | x in s
  }

  lemma OneMore<T>(s: seq<T>, x: T)
    ensures Elements(s + [x]) == Elements(s) + {x}
    ensures Distinct(s) && x !in s ==> Distinct(s + [x])
  {
  }

  lemma OneLess<T>(s: seq<T>)
    requires s != []
    ensures Elements(s) == Elements(s[1..]) + {s[0]}
    ensures Distinct(s) ==> Distinct(s[1..]) && s[0] !in Elements(s[1..])
    ensures Distinct(s) ==> (s[0] == s[|s| - 1] <==> |s| == 1)
  {
    assert s == [s[0]] + s[1..];
  }

  /** The pointers form this sequence of different nodes, and end there. */
  ghost predicate Linked<T>(nodes: seq<Node<T>>)
    reads nodes
  {
    && Distinct(nodes)
    && (forall i :: 0 <= i < |nodes| - 1 ==> nodes[i].next == nodes[i + 1])
    && (nodes != [] ==> nodes[|nodes| - 1].next == null)
  }

  ghost function DataOf<T>(nodes: seq<Node<T>>): (c: seq<T>)
    reads nodes
    ensures |c| == |nodes| && forall i :: 0 <= i < |c| ==> c[i] == nodes[i].data
  {
    seq(|nodes|, i requires 0 <= i < |nodes| reads nodes => nodes[i].data)
  }

  lemma LinkedTail<T>(nodes: seq<Node<T>>)
    requires Linked(nodes) && nodes != []
    ensures Linked(nodes[1..]) && nodes[0].next == (if |nodes| > 1 then nodes[1] else null)
    ensures nodes[0] == nodes[|nodes| - 1] <==> |nodes| == 1
    ensures |nodes| > 1 ==> nodes[1..][0] == nodes[1] && nodes[1..][|nodes| - 2] == nodes[|nodes| - 1]
    ensures DataOf(nodes[1..]) == DataOf(nodes)[1..]
  {
    OneLess(nodes);
  }

  lemma LinkedMore<T>(nodes: seq<Node<T>>, node: Node<T>)
    requires Distinct(nodes) && node !in nodes && node.next == null
    requires forall i :: 0 <= i < |nodes| - 1 ==> nodes[i].next == nodes[i + 1]
    requires nodes != [] ==> nodes[|nodes| - 1].next == node
    ensures Linked(nodes + [node]) && DataOf(nodes + [node]) == DataOf(nodes) + [node.data]
  {
    OneMore(nodes, node);
  }

  /** The counter of a `uint32` field. */
  function Count(n: nat): uint32 {
    n % 0x1_0000_0000
  }

  lemma Counts(n: nat)
    ensures Count(n + 1) == (Count(n) + 1) % 0x1_0000_0000
    ensures Count(n) == (Count(n + 1) - 1) % 0x1_0000_0000
  {
  }

  /** `linked_list_t`. The spine is the sequence of nodes that the pointers form, all of
      them allocated. */
  class LinkedList<T> {
    const heap: Heap<T>
    var start: Node?<T>
    var end: Node?<T>
    var numNodes: uint32
    ghost var spine: seq<Node<T>>

    ghost predicate Valid()
      reads this, spine
    {
      && numNodes == Count(|spine|) && Linked(spine)
      && start == (if spine == [] then null else spine[0])
      && end == (if spine == [] then null else spine[|spine| - 1])
    }

    /** All of its nodes are allocated. */
    ghost predicate AllLive()
      reads this, heap
    {
      Elements(spine) <= heap.live
    }

    ghost function Contents(): (c: seq<T>)
      reads this, spine
      ensures |c| == |spine|
    {
      DataOf(spine)
    }

    /** `linked_list_alloc`. */
    constructor (heap: Heap<T>)
      ensures Valid() && AllLive() && this.heap == heap && spine == [] && Contents() == []
    {
      this.heap := heap;
      start, end, numNodes, spine := null, null, 0, [];
    }

    /** `linked_list_push`: only the last node changes. */
    method Push(data: T)
      requires Valid() && AllLive()
      modifies this, heap, if spine == [] then {} else {spine[|spine| - 1]}
      ensures Valid() && AllLive() && Contents() == old(Contents()) + [data]
      ensures |spine| == |old(spine)| + 1 && spine[..|old(spine)|] == old(spine) && fresh(spine[|old(spine)|])
    {
      var node := heap.Allocate(data);
      OneMore(spine, node);
      Link(node);
    }

    /** Links a node at the end. */
    method Link(node: Node<T>)
      requires Valid() && node !in spine && node.next == null
      modifies this, if spine == [] then {} else {spine[|spine| - 1]}
      ensures Valid() && spine == old(spine) + [node] && Contents() == old(Contents()) + [old(node.data)]
    {
      ghost var nodes, n := spine, |spine|;
      if end == null {
        start := node;
        end := node;
      } else {
        assert forall i :: 0 <= i < n - 1 ==> nodes[i] != end;
        end.next := node;
        end := node;
      }
      numNodes := (numNodes + 1) % 0x1_0000_0000;
      Counts(n);
      spine := nodes + [node];
      assert DataOf(nodes) == old(Contents());
      LinkedMore(nodes, node);
    }

    /** `linked_list_pop_front`; none for a null pointer. */
    method PopFront() returns (data: Option<T>)
      requires Valid() && AllLive()
      modifies this, heap
      ensures Valid() && AllLive()
      ensures old(Contents()) == [] ==> data == None && spine == old(spine) && heap.live == old(heap.live)
      ensures old(Contents()) != [] ==>
                && data == Some(old(Contents())[0]) && Contents() == old(Contents())[1..] && spine == old(spine)[1..]
                && heap.live == old(heap.live) - {old(spine)[0]}
    {
      if start == null { return None; }
      OneLess(spine);
      var node := Unlink();
      var d := heap.Data(node);
      heap.Free(node);
      data := Some(d);
    }

    /** Unlinks the first node. */
    method Unlink() returns (node: Node<T>)
      requires Valid() && spine != [] && spine[0] in heap.live
      modifies this
      ensures Valid() && node == old(spine)[0] && spine == old(spine)[1..] && Contents() == old(Contents())[1..]
    {
      ghost var nodes := spine;
      LinkedTail(nodes);
      node := start;
      if start == end {
        start := null;
        end := null;
      } else {
        start := heap.Next(node);
      }
      numNodes := (numNodes - 1) % 0x1_0000_0000;
      Counts(|nodes| - 1);
      spine := nodes[1..];
      LinkedTail(nodes);
    }

    /** `linked_list_free`: every node of the list is freed, and no other. */
    method Free()
      requires Valid() && AllLive()
      modifies heap
      ensures heap.live == old(heap.live) - Elements(spine)
    {
      ghost var k := 0;
      var node := start;
      while node != null
        invariant k <= |spine| && node == (if k < |spine| then spine[k] else null)
        invariant heap.live == old(heap.live) - Elements(spine[..k])
        decreases |spine| - k
      {
        assert node in Elements(spine) && node !in spine[..k] && spine[..k + 1] == spine[..k] + [node];
        OneMore(spine[..k], node);
        var next := heap.Next(node);
        heap.Free(node);
        node := next;
        k := k + 1;
      }
      assert spine[..k] == spine;
    }
  }

  // ------------------------------------------------------------ the bounded queue

  const MAX_SAVED_FRAMES := 16

  /** A frame that has left the queue, and whether the client got it. */
  datatype Taken<T> = Taken(frame: T, fetched: bool)

  /** The queue over a run: the frames waiting, those that left, and all that arrived
      since somebody asked to be notified. */
  datatype Queue<T> = Queue(notify: bool, waiting: seq<T>, taken: seq<Taken<T>>, arrived: seq<T>)

  datatype Request<T> = NotifyFrame | NewFrame(frame: T) | GetFrame

  function Leave<T>(q: Queue<T>, fetched: bool): Queue<T> {
    if q.waiting == [] then q
    else q.(waiting := q.waiting[1..], taken := q.taken + [Taken(q.waiting[0], fetched)])
  }

  function Enter<T>(q: Queue<T>, frame: T): Queue<T> {
    q.(waiting := q.waiting + [frame], arrived := q.arrived + [frame])
  }

  function Step<T>(q: Queue<T>, r: Request<T>): (Queue<T>, Option<T>) {
    match r
    case NotifyFrame => (q.(notify := true), None)
    case NewFrame(f) =>
      if !q.notify then (q, None)
      else (Enter(if |q.waiting| > MAX_SAVED_FRAMES then Leave(q, false) else q, f), None)
    case GetFrame => (Leave(q, true), if q.waiting == [] then None else Some(q.waiting[0]))
  }

  /** `USBUserClient`, as far as frames go. */
  class USBUserClient<T> {
    var notifyFrameAction: bool
    var savedFrames: LinkedList<T>
    ghost var taken: seq<Taken<T>>
    ghost var arrived: seq<T>

    ghost predicate Valid()
      reads this, savedFrames, savedFrames.heap, savedFrames.spine
    {
      savedFrames.Valid() && savedFrames.AllLive() && |savedFrames.spine| <= MAX_SAVED_FRAMES + 1
    }

    ghost function View(): Queue<T>
      reads this, savedFrames, savedFrames.spine
    {
      Queue(notifyFrameAction, savedFrames.Contents(), taken, arrived)
    }

    constructor ()
      ensures Valid() && fresh(savedFrames) && fresh(savedFrames.heap) && View() == Queue(false, [], [], [])
    {
      notifyFrameAction, taken, arrived := false, [], [];
      var heap := new Heap<T>();
      savedFrames := new LinkedList(heap);
    }

    /** A request without a completion is refused. */
    method HandleNotifyFrame(completion: bool) returns (ok: bool)
      requires Valid()
      modifies this`notifyFrameAction
      ensures Valid() && ok == completion
      ensures View() == if completion then Step(old(View()), NotifyFrame).0 else old(View())
    {
      if !completion { return false; }
      notifyFrameAction := true;
      ok := true;
    }

    method NewHIDFrame(frame: T)
      requires Valid()
      modifies this`taken, this`arrived, savedFrames, savedFrames.heap, savedFrames.spine
      ensures Valid() && savedFrames == old(savedFrames) && View() == Step(old(View()), NewFrame(frame)).0
    {
      if !notifyFrameAction { return; }
      assert savedFrames.numNodes == |savedFrames.spine|;
      if savedFrames.numNodes > MAX_SAVED_FRAMES {
        DropOldest();
      }
      Save(frame);
    }

    method Save(frame: T)
      requires Valid() && |savedFrames.spine| <= MAX_SAVED_FRAMES
      modifies this`arrived, savedFrames, savedFrames.heap, savedFrames.spine
      ensures Valid() && savedFrames == old(savedFrames) && View() == Enter(old(View()), frame)
    {
      savedFrames.Push(frame);
      arrived := arrived + [frame];
    }

    method DropOldest()
      requires Valid() && savedFrames.spine != []
      modifies this`taken, savedFrames, savedFrames.heap
      ensures Valid() && savedFrames == old(savedFrames) && View() == Leave(old(View()), false)
      ensures savedFrames.spine == old(savedFrames.spine)[1..]
    {
      ghost var first := savedFrames.Contents()[0];
      var _ := savedFrames.PopFront();
      taken := taken + [Taken(first, false)];
    }

    method HandleGetFrame() returns (frame: Option<T>)
      requires Valid()
      modifies this`taken, savedFrames, savedFrames.heap
      ensures Valid() && savedFrames == old(savedFrames) && (View(), frame) == Step(old(View()), GetFrame)
    {
      frame := savedFrames.PopFront();
      if frame.Some? {
        taken := taken + [Taken(frame.value, true)];
      }
    }
  }

  // ----------------------------------------------------------------------- runs

  function Frames<T>(taken: seq<Taken<T>>): seq<T> {
    if taken == [] then [] else Frames(taken[..|taken| - 1]) + [taken[|taken| - 1].frame]
  }

  function Fetched<T>(taken: seq<Taken<T>>): seq<T> {
    if taken == [] then []
    else
      var t := taken[|taken| - 1];
      Fetched(taken[..|taken| - 1]) + if t.fetched then [t.frame] else []
  }

  /** a can be got from b by leaving elements out. */
  predicate Subsequence<T(==)>(a: seq<T>, b: seq<T>) {
    if b == [] then a == []
    else
      || Subsequence(a, b[..|b| - 1])
      || (a != [] && a[|a| - 1] == b[|b| - 1] && Subsequence(a[..|a| - 1], b[..|b| - 1]))
  }

  /** The frames that some requests returned, in order. */
  function Returned<T>(replies: seq<Option<T>>): seq<T> {
    if replies == [] then []
    else Returned(replies[..|replies| - 1]) + Replied(replies[|replies| - 1])
  }

  function After<T>(requests: seq<Request<T>>): Queue<T> {
    Final((q, r) => Step(q, r), Queue(false, [], [], []), requests)
  }

  function Replies<T>(requests: seq<Request<T>>): seq<Option<T>> {
    Outputs((q, r) => Step(q, r), Queue(false, [], [], []), requests)
  }

  /** The frames that some requests bring once somebody has asked to be notified. */
  function Arrivals<T(==)>(requests: seq<Request<T>>): seq<T> {
    if requests == [] then []
    else
      var before, r := requests[..|requests| - 1], requests[|requests| - 1];
      Arrivals(before) + if r.NewFrame? && NotifyFrame in before then [r.frame] else []
  }

  /** What every step keeps. */
  predicate Conserved<T(==)>(q: Queue<T>) {
    Frames(q.taken) + q.waiting == q.arrived && |q.waiting| <= MAX_SAVED_FRAMES + 1
  }

  function Replied<T>(reply: Option<T>): seq<T> {
    match reply case None => [] case Some(f) => [f]
  }

  lemma LeaveConserves<T>(q: Queue<T>, fetched: bool)
    requires Conserved(q)
    ensures Conserved(Leave(q, fetched))
    ensures Fetched(Leave(q, fetched).taken) ==
            Fetched(q.taken) + if fetched && q.waiting != [] then [q.waiting[0]] else []
  {
    if q.waiting != [] {
      var t := Taken(q.waiting[0], fetched);
      assert (q.taken + [t])[..|q.taken|] == q.taken;
      assert q.waiting == [q.waiting[0]] + q.waiting[1..];
    }
  }

  lemma StepConserves<T>(q: Queue<T>, r: Request<T>)
    requires Conserved(q)
    ensures var (t, reply) := Step(q, r); Conserved(t) && Fetched(t.taken) == Fetched(q.taken) + Replied(reply)
  {
    match r
    case NotifyFrame =>
    case GetFrame => LeaveConserves(q, true);
    case NewFrame(f) => LeaveConserves(q, false);
  }

  lemma {:induction false} FetchedInOrder<T>(taken: seq<Taken<T>>, waiting: seq<T>)
    ensures Subsequence(Fetched(taken), Frames(taken) + waiting)
    decreases |taken|, |waiting|
  {
    var b := Frames(taken) + waiting;
    if waiting != [] {
      assert b[..|b| - 1] == Frames(taken) + waiting[..|waiting| - 1];
      FetchedInOrder(taken, waiting[..|waiting| - 1]);
    } else if taken != [] {
      var rest, t := taken[..|taken| - 1], taken[|taken| - 1];
      assert b[..|b| - 1] == Frames(rest) + [] && b[|b| - 1] == t.frame;
      FetchedInOrder(rest, []);
      if t.fetched {
        assert Fetched(taken) == Fetched(rest) + [t.frame];
        assert (Fetched(rest) + [t.frame])[..|Fetched(rest)|] == Fetched(rest);
      } else {
        assert Fetched(taken) == Fetched(rest);
      }
    }
  }

  lemma ReturnedMore<T>(replies: seq<Option<T>>, reply: Option<T>)
    ensures Returned(replies + [reply]) == Returned(replies) + Replied(reply)
  {
    assert (replies + [reply])[..|replies|] == replies;
  }

  lemma {:induction false} RunArrives<T>(requests: seq<Request<T>>)
    ensures var q := After(requests); q.arrived == Arrivals(requests) && (q.notify <==> NotifyFrame in requests)
  {
    if requests != [] {
      var n := |requests| - 1;
      assert requests == requests[..n] + [requests[n]];
      Append((q, r) => Step(q, r), Queue(false, [], [], []), requests[..n], requests[n]);
      RunArrives(requests[..n]);
    }
  }

  lemma {:induction false} RunConserves<T>(requests: seq<Request<T>>)
    ensures Conserved(After(requests)) && Returned(Replies(requests)) == Fetched(After(requests).taken)
  {
    if requests != [] {
      var n := |requests| - 1;
      var q, r := After(requests[..n]), requests[n];
      assert requests == requests[..n] + [r];
      Append((q, r) => Step(q, r), Queue(false, [], [], []), requests[..n], r);
      RunConserves(requests[..n]);
      StepConserves(q, r);
      ReturnedMore(Replies(requests[..n]), Step(q, r).1);
    }
  }

  /** Under any mix of requests: what has left, fetched or dropped, followed by what
      waits, are the frames that came once somebody had asked to be notified; never more
      than 17 frames wait; and the frames returned to the client are an in-order
      subsequence of those. */
  lemma QueueConserves<T>(requests: seq<Request<T>>)
    ensures var q := After(requests);
            && Frames(q.taken) + q.waiting == Arrivals(requests) && |q.waiting| <= 17
            && Subsequence(Returned(Replies(requests)), Arrivals(requests))
  {
    RunArrives(requests);
    RunConserves(requests);
    FetchedInOrder(After(requests).taken, After(requests).waiting);
  }

  /** A request takes out at most the oldest frame. One that does not ask for a frame
      drops it exactly if it brings a new frame that finds 17 waiting. */
  lemma DropsIff<T>(requests: seq<Request<T>>, r: Request<T>)
    ensures var q := After(requests);
            var t := Step(q, r).0;
            && (t.taken == q.taken || (q.waiting != [] && t.taken == q.taken + [Taken(q.waiting[0], r.GetFrame?)]))
            && (!r.GetFrame? ==> (t.taken != q.taken <==> r.NewFrame? && NotifyFrame in requests && |q.waiting| == 17))
  {
    RunArrives(requests);
    RunConserves(requests);
    var q := After(requests);
    if q.waiting != [] {
      assert |q.taken + [Taken(q.waiting[0], false)]| != |q.taken|;
    }
  }
}
