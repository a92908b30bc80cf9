/**
 * The ordered-list engine shared by the step list of an E2E task
 * (spec/src/commands/step-update.ts) and the E2E list of a task
 * (spec/src/commands/e2e-update.ts). Both files run the same algorithm on
 * their own node type; here it is written once over `Item<P>`.
 *
 * Items are always located by their `index` field (a linear scan, as
 * `Array.prototype.findIndex` does), never by storage position, and new items
 * are appended to storage. The spec functions below describe the result of
 * each operation; the methods compute it step by step as the source does; the
 * lemmas state what the operations keep and what they break.
 */
module OrderedList {
  import opened Types

  // ---------------------------------------------------------------------
  // Scans
  // ---------------------------------------------------------------------

  /** Storage position of the first item whose index is `ref`, or -1. */
  function FindIndex<P>(items: seq<Item<P>>, ref: PositionRef): (r: int)
    ensures -1 <= r < |items|
    ensures r == -1 <==> forall p :: 0 <= p < |items| ==> items[p].index != ref
    ensures r >= 0 ==> items[r].index == ref && forall q :: 0 <= q < r ==> items[q].index != ref
  {
    if |items| == 0 then -1
    else if items[0].index == ref then 0
    else
      var r := FindIndex(items[1..], ref);
      if r == -1 then -1 else r + 1
  }

  /** `Math.max(...numeric indices, 0)`. */
  function MaxIndex<P>(items: seq<Item<P>>): (m: int)
    ensures m >= 0
    ensures forall p :: 0 <= p < |items| && items[p].index.Num? ==> items[p].index.n <= m
    ensures m > 0 ==> exists p :: 0 <= p < |items| && items[p].index == Num(m)
  {
    if |items| == 0 then 0
    else
      var rest := MaxIndex(items[1..]);
      assert forall p :: 1 <= p < |items| ==> items[p] == items[1..][p - 1];
      if items[0].index.Num? && items[0].index.n > rest then items[0].index.n else rest
  }

  // ---------------------------------------------------------------------
  // Pointer writes and the renumber pass
  // ---------------------------------------------------------------------

  /** The first item whose index is `ref` gets `next := v`; nothing happens if there is none. */
  function SetNext<P>(items: seq<Item<P>>, ref: PositionRef, v: PositionRef): (r: seq<Item<P>>)
    ensures |r| == |items|
    ensures forall p :: 0 <= p < |items| ==>
      r[p].index == items[p].index && r[p].prev == items[p].prev && r[p].data == items[p].data
    ensures forall p :: 0 <= p < |items| ==>
      r[p].next == if p == FindIndex(items, ref) then v else items[p].next
  {
    var k := FindIndex(items, ref);
    if k == -1 then items else items[k := items[k].(next := v)]
  }

  /** The first item whose index is `ref` gets `prev := v`; nothing happens if there is none. */
  function SetPrev<P>(items: seq<Item<P>>, ref: PositionRef, v: PositionRef): (r: seq<Item<P>>)
    ensures |r| == |items|
    ensures forall p :: 0 <= p < |items| ==>
      r[p].index == items[p].index && r[p].next == items[p].next && r[p].data == items[p].data
    ensures forall p :: 0 <= p < |items| ==>
      r[p].prev == if p == FindIndex(items, ref) then v else items[p].prev
  {
    var k := FindIndex(items, ref);
    if k == -1 then items else items[k := items[k].(prev := v)]
  }

  /** A numeric pointer moved by `delta`; the sentinels stay. */
  function ShiftRef(r: PositionRef, delta: int): PositionRef {
    if r.Num? then Num(r.n + delta) else r
  }

  /**
   * One item of the renumber pass: an item whose numeric index is above
   * `pivot` moves by `delta`, and so does EVERY numeric pointer it holds,
   * whatever that pointer's value.
   */
  function Shift<P>(it: Item<P>, pivot: int, delta: int): Item<P> {
    if it.index.Num? && it.index.n > pivot then
      Item(Num(it.index.n + delta), ShiftRef(it.prev, delta), ShiftRef(it.next, delta), it.data)
    else it
  }

  /** The index an item has after the renumber pass. */
  function ShiftIndex(i: PositionRef, pivot: int, delta: int): PositionRef {
    if i.Num? && i.n > pivot then Num(i.n + delta) else i
  }

  /** The renumber pass over a whole list. */
  function ShiftAll<P>(items: seq<Item<P>>, pivot: int, delta: int): (r: seq<Item<P>>)
    ensures |r| == |items|
    ensures forall p :: 0 <= p < |items| ==>
      r[p].data == items[p].data && r[p].index == ShiftIndex(items[p].index, pivot, delta)
  {
    seq(|items|, p requires 0 <= p < |items| => Shift(items[p], pivot, delta))
  }

  /** The renumber `forEach` of the source, done in place on a local list. */
  method Renumber<P>(items: seq<Item<P>>, pivot: int, delta: int) returns (r: seq<Item<P>>)
    ensures r == ShiftAll(items, pivot, delta)
  {
    r := items;
    var i := 0;
    while i < |r|
      invariant 0 <= i <= |r| == |items|
      invariant forall p :: 0 <= p < i ==> r[p] == Shift(items[p], pivot, delta)
      invariant forall p :: i <= p < |r| ==> r[p] == items[p]
    {
      var it := r[i];
      if it.index.Num? && it.index.n > pivot {
        r := r[i := Item(Num(it.index.n + delta), ShiftRef(it.prev, delta), ShiftRef(it.next, delta), it.data)];
      }
      i := i + 1;
    }
  }

  // ---------------------------------------------------------------------
  // The three list operations
  // ---------------------------------------------------------------------

  /**
   * insert-after. On an empty list the anchor is ignored and the new item is
   * {1, start, end}. Otherwise the anchor must exist (None when it does not);
   * the new item gets index anchor+1, prev anchor and the anchor's old next;
   * the anchor's next and the first item indexed like the anchor's old next
   * get the new index; then the renumber pass shifts every item above the
   * anchor by +1; the new item is appended to storage.
   */
  function InsertAfter<P>(items: seq<Item<P>>, anchor: int, d: P): (r: Option<seq<Item<P>>>)
    ensures r.None? <==> |items| > 0 && FindIndex(items, Num(anchor)) == -1
    ensures r.Some? ==> |r.value| == |items| + 1 && r.value[|items|].data == d
    ensures r.Some? ==> forall p :: 0 <= p < |items| ==> r.value[p].data == items[p].data
    ensures r.Some? ==> r.value[|items|].index == Num(if |items| == 0 then 1 else anchor + 1)
  {
    if |items| == 0 then Some([Item(Num(1), Start, End, d)])
    else if FindIndex(items, Num(anchor)) == -1 then None
    else
      var nextRef := items[FindIndex(items, Num(anchor))].next;
      var linked := SetPrev(SetNext(items, Num(anchor), Num(anchor + 1)), nextRef, Num(anchor + 1));
      Some(ShiftAll(linked, anchor, 1) + [Item(Num(anchor + 1), Num(anchor), nextRef, d)])
  }

  /**
   * delete. The target must exist (None when it does not). Its predecessor
   * (the first item indexed like its prev, unless prev is 'start') gets the
   * target's next; its successor (unless next is 'end') gets the target's
   * prev; the target leaves storage; the renumber pass shifts every item above
   * the target by -1. Returns the new list and the removed item.
   */
  function DeleteItem<P>(items: seq<Item<P>>, target: int): (r: Option<(seq<Item<P>>, Item<P>)>)
    ensures r.None? <==> FindIndex(items, Num(target)) == -1
    ensures r.Some? ==> |r.value.0| == |items| - 1 && r.value.1.index == Num(target)
    ensures r.Some? ==> var pos := FindIndex(items, Num(target));
      r.value.1 == items[pos] &&
      forall q :: 0 <= q < |r.value.0| ==> r.value.0[q].data == items[Before(q, pos)].data
  {
    var pos := FindIndex(items, Num(target));
    if pos == -1 then None
    else Some((ShiftAll(Splice(Unlink(items, items[pos]), pos), target, -1), items[pos]))
  }

  /** The pointer writes of delete: the neighbours of `t` are linked to each other. */
  function Unlink<P>(items: seq<Item<P>>, t: Item<P>): (r: seq<Item<P>>)
    ensures |r| == |items|
    ensures forall p :: 0 <= p < |items| ==> r[p].index == items[p].index && r[p].data == items[p].data
  {
    var s1 := if t.prev != Start then SetNext(items, t.prev, t.next) else items;
    if t.next != End then SetPrev(s1, t.next, t.prev) else s1
  }

  /** Where the item at storage position p (p != pos) sits after `splice(pos, 1)`. */
  function After(p: int, pos: int): int {
    if p < pos then p else p - 1
  }

  /** The storage position before `splice(pos, 1)` of position q after it. */
  function Before(q: int, pos: int): int {
    if q < pos then q else q + 1
  }

  /** `splice(pos, 1)`: every remaining element is the one at its old storage position. */
  function Splice<T>(s: seq<T>, pos: int): (r: seq<T>)
    requires 0 <= pos < |s|
    ensures |r| == |s| - 1
    ensures forall q :: 0 <= q < |r| ==> r[q] == s[Before(q, pos)]
  {
    s[..pos] + s[pos + 1..]
  }

  /** The `prev` a batch gives its i-th new item when the list's maximum index is m. */
  function ChainPrev(m: int, i: int): PositionRef {
    if i == 0 then (if m == 0 then Start else Num(m)) else Num(m + i)
  }

  /** The `next` a batch of k items gives its i-th new item when the list's maximum index is m. */
  function ChainNext(m: int, i: int, k: int): PositionRef {
    if i == k - 1 then End else Num(m + 2 + i)
  }

  /** The new items of a batch, in input order. */
  function Chain<P>(m: int, ds: seq<P>): (r: seq<Item<P>>)
    ensures |r| == |ds|
  {
    seq(|ds|, i requires 0 <= i < |ds| => Item(Num(m + 1 + i), ChainPrev(m, i), ChainNext(m, i, |ds|), ds[i]))
  }

  /**
   * batch-append. With m the largest numeric index (0 if none), the item
   * indexed m (if any) gets next m+1 -- even for an empty batch -- and the
   * batch is appended as m+1 .. m+k, linked to each other.
   */
  function Append<P>(items: seq<Item<P>>, ds: seq<P>): (r: seq<Item<P>>)
    ensures |r| == |items| + |ds|
    ensures forall p :: 0 <= p < |items| ==> r[p].index == items[p].index && r[p].data == items[p].data
    ensures forall p :: |items| <= p < |r| ==> r[p].data == ds[p - |items|]
  {
    var m := MaxIndex(items);
    SetNext(items, Num(m), Num(m + 1)) + Chain(m, ds)
  }

  // ---------------------------------------------------------------------
  // The step-by-step versions
  // ---------------------------------------------------------------------

  /** insert-after as the source performs it: scans, pointer writes, renumber, push. */
  method Insert<P>(items: seq<Item<P>>, anchor: int, d: P) returns (r: Option<seq<Item<P>>>)
    ensures r == InsertAfter(items, anchor, d)
  {
    if |items| == 0 {
      return Some([Item(Num(1), Start, End, d)]);
    }
    var ap := FindIndex(items, Num(anchor));
    if ap == -1 {
      return None;
    }
    var nextRef := items[ap].next;
    var np := FindIndex(items, nextRef);
    var newIndex := anchor + 1;
    var s := items[ap := items[ap].(next := Num(newIndex))];
    if np != -1 {
      s := s[np := s[np].(prev := Num(newIndex))];
    }
    s := Renumber(s, anchor, 1);
    r := Some(s + [Item(Num(newIndex), Num(anchor), nextRef, d)]);
  }

  /** delete as the source performs it: relink the neighbours, splice, renumber. */
  method Remove<P>(items: seq<Item<P>>, target: int) returns (r: Option<(seq<Item<P>>, Item<P>)>)
    ensures r == DeleteItem(items, target)
  {
    var pos := FindIndex(items, Num(target));
    if pos == -1 {
      return None;
    }
    var t := items[pos];
    var s := items;
    if t.prev != Start {
      var pp := FindIndex(s, t.prev);
      if pp != -1 {
        s := s[pp := s[pp].(next := t.next)];
      }
    }
    if t.next != End {
      var np := FindIndex(s, t.next);
      if np != -1 {
        s := s[np := s[np].(prev := t.prev)];
      }
    }
    assert s == Unlink(items, t);
    s := s[..pos] + s[pos + 1..];
    s := Renumber(s, target, -1);
    r := Some((s, t));
  }

  /** batch-append as the source performs it: repoint the old tail, then push each new item. */
  method BatchAppend<P>(items: seq<Item<P>>, ds: seq<P>) returns (r: seq<Item<P>>)
    ensures r == Append(items, ds)
  {
    var m := MaxIndex(items);
    var last := FindIndex(items, Num(m));
    r := items;
    if last != -1 {
      r := r[last := r[last].(next := Num(m + 1))];
    }
    var i := 0;
    while i < |ds|
      invariant 0 <= i <= |ds|
      invariant r == SetNext(items, Num(m), Num(m + 1)) + Chain(m, ds)[..i]
    {
      var prev := if i == 0 then (if m == 0 then Start else Num(m)) else Num(m + i);
      var next := if i == |ds| - 1 then End else Num(m + 2 + i);
      r := r + [Item(Num(m + 1 + i), prev, next, ds[i])];
      i := i + 1;
    }
  }
}
