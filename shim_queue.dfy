/**
 * The output queues of the OSC 52 filter (src/shim.c): a singly linked
 * FIFO of items, appended at the tail by the filter and popped at the
 * head by a writer, which stops accepting items once a write has failed.
 */
module ShimQueue {
  /** An OutputItem: the bytes it delivers (item->buf from item->start, item->size of them) and its link. */
  class OutputItem {
    const data: seq<bv8>
    var next: OutputItem?

    constructor (d: seq<bv8>)
      ensures data == d && next == null
    {
      data := d;
      next := null;
    }
  }

  /** The bytes the items deliver, in queue order. */
  function Payloads(items: seq<OutputItem>): (r: seq<seq<bv8>>)
    ensures |r| == |items|
    ensures forall i :: 0 <= i < |items| ==> r[i] == items[i].data
  {
    if items == [] then [] else [items[0].data] + Payloads(items[1..])
  }

  /** Appending an item appends its bytes. */
  lemma PayloadsAppend(items: seq<OutputItem>, item: OutputItem)
    ensures Payloads(items + [item]) == Payloads(items) + [item.data]
  {
    var l := Payloads(items + [item]);
    var r := Payloads(items) + [item.data];
    assert |l| == |r|;
    forall i | 0 <= i < |l|
      ensures l[i] == r[i]
    {
      if i < |items| {
        assert (items + [item])[i] == items[i];
      }
    }
  }

  class OutputQueue {
    var head: OutputItem?
    var tail: OutputItem?
    /** The result of the last write: at most -1 an error, 0 end of file, at least 1 good. */
    var lastResult: int
    /** The items from head to tail. */
    ghost var items: seq<OutputItem>

    /** head and tail are the ends of a chain of next links through items, each item once. */
    ghost predicate Valid()
      reads this, items
    {
      (items == [] ==> head == null && tail == null)
      && (items != [] ==> head == items[0] && tail == items[|items| - 1] && tail.next == null)
      && (forall i :: 0 <= i < |items| - 1 ==> items[i].next == items[i + 1])
      && (forall i, j :: 0 <= i < j < |items| ==> items[i] != items[j])
    }

    /** output_queue_init: empty, with a good last result. */
    constructor Init()
      ensures Valid() && items == [] && lastResult == 1
    {
      head := null;
      tail := null;
      lastResult := 1;
      items := [];
    }

    /**
     * queue_item_for_writing: after a failed or finished write (last
     * result at most 0) the item is dropped and the queue left alone;
     * otherwise the item is linked in at the tail. The result is the
     * last write's result either way.
     */
    method QueueItemForWriting(item: OutputItem) returns (r: int)
      requires Valid() && item !in items && item.next == null
      modifies this, tail
      ensures Valid() && r == old(lastResult) && lastResult == old(lastResult)
      ensures r <= 0 ==> items == old(items) && head == old(head) && tail == old(tail)
      ensures r > 0 ==> items == old(items) + [item]
    {
      r := lastResult;
      if r <= 0 {
        return;
      }
      if tail != null {
        tail.next := item;
      } else {
        head := item;
      }
      tail := item;
      items := items + [item];
    }

    /** The unlinking step of queue_processor: the head item leaves, the tail is cleared with the last one. */
    method PopHead() returns (item: OutputItem?)
      requires Valid()
      modifies this
      ensures Valid()
      ensures old(items) == [] ==> item == null && items == []
      ensures old(items) != [] ==> item == old(items[0]) && items == old(items[1..])
    {
      item := head;
      if item == null {
        return;
      }
      if item == tail {
        tail := null;
      }
      head := item.next;
      items := items[1..];
    }
  }

  /** The queue is first in, first out: two items queued on an empty, working queue come out in the same order. */
  method FirstInFirstOut(oq: OutputQueue, a: OutputItem, b: OutputItem) returns (first: OutputItem?, second: OutputItem?)
    requires oq.Valid() && oq.items == [] && oq.lastResult > 0
    requires a != b && a.next == null && b.next == null
    modifies oq, a
    ensures first == a && second == b
    ensures oq.Valid() && oq.items == []
  {
    var r1 := oq.QueueItemForWriting(a);
    var r2 := oq.QueueItemForWriting(b);
    first := oq.PopHead();
    second := oq.PopHead();
  }

  /** A queue whose last write failed takes nothing more: queuing leaves its payloads as they were. */
  method DroppedAfterFailure(oq: OutputQueue, item: OutputItem) returns (r: int)
    requires oq.Valid() && item !in oq.items && item.next == null && oq.lastResult <= 0
    modifies oq, oq.tail
    ensures r <= 0 && Payloads(oq.items) == old(Payloads(oq.items))
  {
    r := oq.QueueItemForWriting(item);
  }
}
