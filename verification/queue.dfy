/** `FrameQueue`: the first-in first-out queue of frames a client keeps while
    it cannot write them, an array of optional frames with a head index. */
module FrameQueues {
  import opened StompText
  import opened StompFrame

  /** The array is compacted once it has more than this many slots... */
  const CompactionMinSlots: int := 50

  /** ...and more than a quarter of them are consumed: `head/count > 0.25`,
      compared exactly. */
  predicate ShouldCompact(head: int, count: int)
  {
    count > CompactionMinSlots && 4 * head > count
  }

  class FrameQueue {
    /** The array; slots before `head` have been dequeued and hold nil. */
    var slots: seq<Option<ClientFrame>>
    var head: nat

    /** The frames waiting, oldest first. */
    ghost var contents: seq<ClientFrame>
    /** Every frame ever enqueued, and every frame ever dequeued, in order. */
    ghost var enqueued: seq<ClientFrame>
    ghost var dequeued: seq<ClientFrame>

    ghost predicate Valid()
      reads this
    {
      && head <= |slots|
      && |contents| == |slots| - head
      && (forall i :: 0 <= i < head ==> slots[i] == None)
      && (forall i :: head <= i < |slots| ==> slots[i] == Some(contents[i - head]))
      && enqueued == dequeued + contents
    }

    constructor ()
      ensures Valid()
      ensures contents == [] && enqueued == [] && dequeued == []
    {
      slots := [];
      head := 0;
      contents := [];
      enqueued := [];
      dequeued := [];
    }

    /** `count`: the number of frames waiting. */
    function Count(): (n: int)
      requires Valid()
      reads this
      ensures n == |contents| == |enqueued| - |dequeued|
    {
      |slots| - head
    }

    /** `isEmpty`. */
    function IsEmpty(): (empty: bool)
      requires Valid()
      reads this
      ensures empty <==> contents == []
      ensures empty <==> Count() == 0
    {
      Count() == 0
    }

    /** `front`: the frame the next dequeue returns, if any. */
    function Front(): (r: Option<ClientFrame>)
      requires Valid()
      reads this
      ensures contents == [] ==> r == None
      ensures contents != [] ==> r == Some(contents[0])
    {
      if IsEmpty() then None else slots[head]
    }

    /** First in, first out: the frames dequeued so far are the oldest frames
        enqueued, in the order they were enqueued, and the rest still wait. */
    lemma FirstInFirstOut()
      requires Valid()
      ensures |dequeued| <= |enqueued| && dequeued == enqueued[..|dequeued|]
      ensures contents == enqueued[|dequeued|..]
    {
      ConcatParts(dequeued, contents);
    }

    /** `enqueue(_:)`: the frame joins the tail. */
    method Enqueue(f: ClientFrame)
      requires Valid()
      modifies this
      ensures Valid()
      ensures contents == old(contents) + [f]
      ensures enqueued == old(enqueued) + [f] && dequeued == old(dequeued)
    {
      slots := slots + [Some(f)];
      contents := contents + [f];
      enqueued := enqueued + [f];
    }

    /** `dequeue()`: nil on an empty queue, otherwise the oldest frame, whose
        slot is cleared; consumed slots are then dropped if there are enough
        of them. */
    method Dequeue() returns (r: Option<ClientFrame>)
      requires Valid()
      modifies this
      ensures Valid()
      ensures old(contents) == [] ==> r == None && contents == [] && unchanged(this)
      ensures old(contents) != [] ==>
        && r == Some(old(contents)[0])
        && contents == old(contents)[1..]
        && dequeued == old(dequeued) + [r.value]
        && enqueued == old(enqueued)
      ensures old(contents) != [] ==>
        if ShouldCompact(old(head) + 1, |old(slots)|)
        then head == 0 && slots == old(slots)[old(head) + 1..]
        else head == old(head) + 1 && slots == old(slots)[old(head) := None]
    {
      if head >= |slots| || slots[head].None? {
        return None;
      }
      var element := slots[head];
      slots := slots[head := None];
      head := head + 1;
      contents := contents[1..];
      dequeued := dequeued + [element.value];
      if ShouldCompact(head, |slots|) {
        slots := slots[head..];
        head := 0;
      }
      r := element;
    }
  }
}
