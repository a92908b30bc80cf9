/**
 * What the ordered-list engine keeps and what it breaks.
 *
 * Density: the indices of an N-item list are exactly 1..N, each once.
 * Linkage: the item indexed i has prev i-1 ('start' for 1) and next i+1
 * ('end' for N).
 *
 * Every operation keeps density. Linkage survives a tail insert, a head or
 * tail delete and a non-empty batch-append; a mid-list insert, a mid-list
 * delete and an empty batch-append each break it, as the counterexample
 * lemmas below show.
 */
module ListInvariants {
  import opened Types
  import opened OrderedList

  /** Some item of `items` has index i. */
  predicate HasIndex<P>(items: seq<Item<P>>, i: int) {
    exists p :: 0 <= p < |items| && items[p].index == Num(i)
  }

  /** The indices are exactly 1..N: all numeric and in range, pairwise distinct, none missing. */
  predicate Dense<P>(items: seq<Item<P>>) {
    && (forall p :: 0 <= p < |items| ==> items[p].index.Num? && 1 <= items[p].index.n <= |items|)
    && (forall p, q :: 0 <= p < q < |items| ==> items[p].index != items[q].index)
    && (forall i :: 1 <= i <= |items| ==> HasIndex(items, i))
  }

  function ExpectedPrev(i: int): PositionRef {
    if i == 1 then Start else Num(i - 1)
  }

  function ExpectedNext(i: int, n: int): PositionRef {
    if i == n then End else Num(i + 1)
  }

  /** Every numbered item points at its logical neighbours (or at the sentinels). */
  predicate Linked<P>(items: seq<Item<P>>) {
    forall p :: 0 <= p < |items| && items[p].index.Num? ==>
      items[p].prev == ExpectedPrev(items[p].index.n) && items[p].next == ExpectedNext(items[p].index.n, |items|)
  }

  /** The index an item keeps or gets when the list shifts by `delta` above `pivot`. */
  function Moved(k: int, pivot: int, delta: int): int {
    if k > pivot then k + delta else k
  }

  // ---------------------------------------------------------------------
  // Helpers
  // ---------------------------------------------------------------------

  /** In a dense list the scan for i in 1..N finds the one item indexed i. */
  lemma DenseFind<P>(items: seq<Item<P>>, i: int)
    requires Dense(items) && 1 <= i <= |items|
    ensures 0 <= FindIndex(items, Num(i)) < |items|
    ensures forall p :: 0 <= p < |items| && items[p].index == Num(i) ==> p == FindIndex(items, Num(i))
  {
    assert HasIndex(items, i);
  }

  /** Two lists with the same indices position by position scan alike. */
  lemma FindSameIndices<P>(a: seq<Item<P>>, b: seq<Item<P>>, ref: PositionRef)
    requires |a| == |b| && forall p :: 0 <= p < |a| ==> a[p].index == b[p].index
    ensures FindIndex(a, ref) == FindIndex(b, ref)
  {
  }

  /** The renumber pass changes nothing when no index is above the pivot. */
  lemma ShiftNothing<P>(items: seq<Item<P>>, pivot: int, delta: int)
    requires forall p :: 0 <= p < |items| && items[p].index.Num? ==> items[p].index.n <= pivot
    ensures ShiftAll(items, pivot, delta) == items
  {
  }

  /** The largest index of a dense list is its length. */
  lemma {:induction false} DenseMax<P>(items: seq<Item<P>>)
    requires Dense(items)
    ensures MaxIndex(items) == |items|
  {
    if |items| > 0 {
      assert HasIndex(items, |items|);
    }
  }

  // ---------------------------------------------------------------------
  // insert-after
  // ---------------------------------------------------------------------

  /**
   * A list whose old items moved as an insert after a moves them, plus a new
   * item a+1, is dense 1..N+1.
   */
  lemma {:induction false} DenseAfterInsert<P>(items: seq<Item<P>>, r: seq<Item<P>>, a: int)
    requires Dense(items) && 1 <= a <= |items|
    requires |r| == |items| + 1 && r[|items|].index == Num(a + 1)
    requires forall p :: 0 <= p < |items| ==> r[p].index == Num(Moved(items[p].index.n, a, 1))
    ensures Dense(r)
  {
    var n := |items|;
    forall p, q | 0 <= p < q < |r|
      ensures r[p].index != r[q].index
    {
      if q < n {
        assert items[p].index != items[q].index;
      }
    }
    forall i | 1 <= i <= n + 1
      ensures HasIndex(r, i)
    {
      if i <= a {
        assert HasIndex(items, i);
        var p :| 0 <= p < n && items[p].index == Num(i);
        assert r[p].index == Num(i);
      } else if i == a + 1 {
        assert r[n].index == Num(i);
      } else {
        assert HasIndex(items, i - 1);
        var p :| 0 <= p < n && items[p].index == Num(i - 1);
        assert r[p].index == Num(i);
      }
    }
  }

  /**
   * From a dense 1..N list and an anchor in 1..N (any anchor when N == 0)
   * insert succeeds, the result is dense 1..N+1, the new item is a+1, items at
   * or below the anchor keep their index and those above move up by one.
   */
  lemma {:induction false} InsertKeepsDense<P>(items: seq<Item<P>>, a: int, d: P)
    requires Dense(items)
    requires |items| == 0 || 1 <= a <= |items|
    ensures InsertAfter(items, a, d).Some?
    ensures Dense(InsertAfter(items, a, d).value)
    ensures forall p :: 0 <= p < |items| ==>
      InsertAfter(items, a, d).value[p].index == Num(Moved(items[p].index.n, a, 1))
  {
    var n := |items|;
    if n == 0 {
      var r := InsertAfter(items, a, d).value;
      assert HasIndex(r, 1);
      return;
    }
    DenseFind(items, a);
    var ap := FindIndex(items, Num(a));
    var nextRef := items[ap].next;
    var linked := SetPrev(SetNext(items, Num(a), Num(a + 1)), nextRef, Num(a + 1));
    var r := ShiftAll(linked, a, 1) + [Item(Num(a + 1), Num(a), nextRef, d)];
    assert InsertAfter(items, a, d) == Some(r);
    assert forall p :: 0 <= p < n ==> r[p].index == ShiftIndex(linked[p].index, a, 1);
    DenseAfterInsert(items, r, a);
  }

  /** An insert at the tail (anchor N, the only kind the step command issues) keeps the links. */
  lemma {:induction false} TailInsertKeepsLinks<P>(items: seq<Item<P>>, a: int, d: P)
    requires Dense(items) && Linked(items)
    requires |items| == 0 || a == |items|
    ensures InsertAfter(items, a, d).Some?
    ensures Linked(InsertAfter(items, a, d).value)
  {
    InsertKeepsDense(items, a, d);
    var n := |items|;
    if n == 0 {
      return;
    }
    DenseFind(items, a);
    var ap := FindIndex(items, Num(a));
    assert items[ap].next == End;
    var s1 := SetNext(items, Num(a), Num(a + 1));
    FindSameIndices(s1, items, End);
    var linked := SetPrev(s1, End, Num(a + 1));
    assert linked == s1;
    ShiftNothing(linked, a, 1);
    var r := linked + [Item(Num(a + 1), Num(a), End, d)];
    assert InsertAfter(items, a, d) == Some(r);
    forall p | 0 <= p < |r| && r[p].index.Num?
      ensures r[p].prev == ExpectedPrev(r[p].index.n) && r[p].next == ExpectedNext(r[p].index.n, |r|)
    {
      if p < n && p != ap {
        assert items[p].index != items[ap].index;
      }
    }
  }

  /** r is items with one item added at the end; the old items keep their indices and records. */
  ghost predicate ExtendsByOne<P>(items: seq<Item<P>>, r: seq<Item<P>>) {
    && |r| == |items| + 1
    && forall p :: 0 <= p < |items| ==> r[p].index == items[p].index && r[p].data == items[p].data
  }

  /**
   * Inserting after the last item of a dense, linked list adds one item
   * indexed N+1 at the end, renumbers nothing and keeps the list dense and
   * linked.
   */
  lemma {:induction false} TailInsertExtends<P>(items: seq<Item<P>>, d: P)
    requires Dense(items) && Linked(items)
    ensures InsertAfter(items, |items|, d).Some?
    ensures var r := InsertAfter(items, |items|, d).value;
      && Dense(r) && Linked(r) && ExtendsByOne(items, r)
      && r[|items|].index == Num(|items| + 1) && r[|items|].data == d
  {
    var k := |items|;
    InsertKeepsDense(items, k, d);
    TailInsertKeepsLinks(items, k, d);
    var r := InsertAfter(items, k, d).value;
    forall p | 0 <= p < k
      ensures r[p].index == items[p].index
    {
      assert items[p].index.n <= k;
    }
  }

  /**
   * A mid-list insert (anchor a < N) breaks the links twice: the old successor,
   * now a+2, has prev a+2 (set to a+1, then bumped by the renumber pass), and
   * the new item a+1 keeps the successor's pre-shift index a+1 as its next.
   */
  lemma {:induction false} MidInsertBreaksLinks<P>(items: seq<Item<P>>, a: int, d: P)
    requires Dense(items) && Linked(items)
    requires 1 <= a < |items|
    ensures InsertAfter(items, a, d).Some?
    ensures var r := InsertAfter(items, a, d).value;
      r[|items|].index == Num(a + 1) && r[|items|].next == Num(a + 1)
    ensures var r := InsertAfter(items, a, d).value;
      exists p :: 0 <= p < |items| && r[p].index == Num(a + 2) && r[p].prev == Num(a + 2)
    ensures !Linked(InsertAfter(items, a, d).value)
  {
    InsertKeepsDense(items, a, d);
    var n := |items|;
    DenseFind(items, a);
    DenseFind(items, a + 1);
    var ap := FindIndex(items, Num(a));
    var sp := FindIndex(items, Num(a + 1));
    assert items[ap].next == Num(a + 1);
    var s1 := SetNext(items, Num(a), Num(a + 1));
    FindSameIndices(s1, items, Num(a + 1));
    var linked := SetPrev(s1, Num(a + 1), Num(a + 1));
    var r := ShiftAll(linked, a, 1) + [Item(Num(a + 1), Num(a), Num(a + 1), d)];
    assert InsertAfter(items, a, d) == Some(r);
    assert linked[sp].prev == Num(a + 1) && linked[sp].index == Num(a + 1);
    assert r[sp] == Shift(linked[sp], a, 1);
    assert r[sp].index == Num(a + 2) && r[sp].prev == Num(a + 2);
    assert r[n].next != ExpectedNext(a + 1, |r|);
  }

  // ---------------------------------------------------------------------
  // delete
  // ---------------------------------------------------------------------

  /**
   * A list made of the items other than the one indexed t, moved as a delete
   * of t moves them, is dense 1..N-1.
   */
  lemma {:induction false} DenseAfterDelete<P>(items: seq<Item<P>>, r: seq<Item<P>>, pos: int, t: int)
    requires Dense(items) && 0 <= pos < |items| && items[pos].index == Num(t)
    requires |r| == |items| - 1
    requires forall q :: 0 <= q < |r| ==> r[q].index == Num(Moved(items[Before(q, pos)].index.n, t, -1))
    ensures Dense(r)
  {
    var n := |items|;
    forall q | 0 <= q < |r|
      ensures r[q].index.Num? && 1 <= r[q].index.n <= |r|
    {
      assert items[Before(q, pos)].index != items[pos].index;
    }
    forall q1, q2 | 0 <= q1 < q2 < |r|
      ensures r[q1].index != r[q2].index
    {
      assert items[Before(q1, pos)].index != items[Before(q2, pos)].index;
      assert items[Before(q1, pos)].index != items[pos].index;
      assert items[Before(q2, pos)].index != items[pos].index;
    }
    forall i | 1 <= i <= n - 1
      ensures HasIndex(r, i)
    {
      var j := if i < t then i else i + 1;
      assert HasIndex(items, j);
      var p :| 0 <= p < n && items[p].index == Num(j);
      var q := After(p, pos);
      assert Before(q, pos) == p;
      assert r[q].index == Num(i);
    }
  }

  /**
   * From a dense 1..N list, deleting t in 1..N succeeds, returns the item
   * indexed t, and leaves a dense 1..N-1 list: items below t keep their
   * index, items above move down by one.
   */
  lemma {:induction false} DeleteKeepsDense<P>(items: seq<Item<P>>, t: int)
    requires Dense(items) && 1 <= t <= |items|
    ensures DeleteItem(items, t).Some?
    ensures DeleteItem(items, t).value.1.index == Num(t)
    ensures Dense(DeleteItem(items, t).value.0)
    ensures var pos := FindIndex(items, Num(t)); var r := DeleteItem(items, t).value.0;
      forall q :: 0 <= q < |r| ==> r[q].index == Num(Moved(items[Before(q, pos)].index.n, t, -1))
  {
    DenseFind(items, t);
    var pos := FindIndex(items, Num(t));
    var u := Unlink(items, items[pos]);
    var sp := Splice(u, pos);
    var r := ShiftAll(sp, t, -1);
    assert DeleteItem(items, t) == Some((r, items[pos]));
    forall q | 0 <= q < |r|
      ensures r[q].index == Num(Moved(items[Before(q, pos)].index.n, t, -1))
    {
      assert sp[q] == u[Before(q, pos)];
    }
    DenseAfterDelete(items, r, pos, t);
  }

  /** Each item left by a delete is an unlinked item, renumbered. */
  lemma DeleteShape<P>(items: seq<Item<P>>, t: int)
    requires FindIndex(items, Num(t)) != -1
    ensures var pos := FindIndex(items, Num(t)); var u := Unlink(items, items[pos]);
      var r := DeleteItem(items, t).value.0;
      forall q :: 0 <= q < |r| ==> r[q] == Shift(u[Before(q, pos)], t, -1)
  {
    var pos := FindIndex(items, Num(t));
    var u := Unlink(items, items[pos]);
    var sp := Splice(u, pos);
    assert forall q :: 0 <= q < |sp| ==> sp[q] == u[Before(q, pos)];
  }

  /** Deleting the tail keeps the links. */
  lemma {:induction false} TailDeleteKeepsLinks<P>(items: seq<Item<P>>)
    requires Dense(items) && Linked(items) && |items| > 0
    ensures DeleteItem(items, |items|).Some?
    ensures Linked(DeleteItem(items, |items|).value.0)
  {
    var n := |items|;
    DenseFind(items, n);
    DeleteShape(items, n);
    var pos := FindIndex(items, Num(n));
    var tgt := items[pos];
    var r := DeleteItem(items, n).value.0;
    if n == 1 {
      return;
    }
    DenseFind(items, n - 1);
    var pp := FindIndex(items, Num(n - 1));
    assert tgt.prev == Num(n - 1) && tgt.next == End;
    var u := Unlink(items, tgt);
    assert u == SetNext(items, Num(n - 1), End);
    forall q | 0 <= q < |r| && r[q].index.Num?
      ensures r[q].prev == ExpectedPrev(r[q].index.n) && r[q].next == ExpectedNext(r[q].index.n, |r|)
    {
      var p := Before(q, pos);
      assert items[p].index != items[pos].index;
      assert r[q] == u[p];
      if p == pp {
        assert u[p].next == End && u[p].prev == items[p].prev;
      } else {
        assert items[p].index != items[pp].index;
        assert u[p] == items[p];
      }
    }
  }

  /** Expected pointers of k in an n-list, moved down by one, are those of k-1 in an (n-1)-list. */
  lemma ShiftExpected(k: int, n: int)
    requires 2 <= k <= n
    ensures ShiftRef(ExpectedNext(k, n), -1) == ExpectedNext(k - 1, n - 1)
    ensures k > 2 ==> ShiftRef(ExpectedPrev(k), -1) == ExpectedPrev(k - 1)
  {
  }

  /** Deleting the head keeps the links. */
  lemma {:induction false} HeadDeleteKeepsLinks<P>(items: seq<Item<P>>)
    requires Dense(items) && Linked(items) && |items| > 0
    ensures DeleteItem(items, 1).Some?
    ensures Linked(DeleteItem(items, 1).value.0)
  {
    var n := |items|;
    DenseFind(items, 1);
    DeleteShape(items, 1);
    var pos := FindIndex(items, Num(1));
    var tgt := items[pos];
    var r := DeleteItem(items, 1).value.0;
    if n == 1 {
      return;
    }
    DenseFind(items, 2);
    var np := FindIndex(items, Num(2));
    assert tgt.prev == Start && tgt.next == Num(2);
    var u := Unlink(items, tgt);
    assert u == SetPrev(items, Num(2), Start);
    forall q | 0 <= q < |r| && r[q].index.Num?
      ensures r[q].prev == ExpectedPrev(r[q].index.n) && r[q].next == ExpectedNext(r[q].index.n, |r|)
    {
      var p := Before(q, pos);
      assert items[p].index != items[pos].index;
      assert r[q] == Shift(u[p], 1, -1);
      var k := items[p].index.n;
      assert 2 <= k <= n && r[q].index == Num(k - 1) && |r| == n - 1;
      assert items[p].next == ExpectedNext(k, n) && r[q].next == ShiftRef(items[p].next, -1);
      ShiftExpected(k, n);
      if p == np {
        assert k == 2 && u[p].prev == Start && u[p].next == items[p].next;
      } else {
        assert items[p].index != items[np].index;
        assert u[p] == items[p] && k >= 3;
        assert items[p].prev == Num(k - 1);
      }
    }
  }

  /**
   * Deleting a middle item t (1 < t < N) breaks the links twice: the
   * predecessor t-1 keeps next t+1 (the pre-shift index of the successor),
   * and the successor, now t, gets prev t-2 (set to t-1, then decremented).
   */
  lemma {:induction false} MidDeleteBreaksLinks<P>(items: seq<Item<P>>, t: int)
    requires Dense(items) && Linked(items)
    requires 1 < t < |items|
    ensures DeleteItem(items, t).Some?
    ensures var r := DeleteItem(items, t).value.0;
      exists q :: 0 <= q < |r| && r[q].index == Num(t - 1) && r[q].next == Num(t + 1)
    ensures var r := DeleteItem(items, t).value.0;
      exists q :: 0 <= q < |r| && r[q].index == Num(t) && r[q].prev == Num(t - 2)
    ensures !Linked(DeleteItem(items, t).value.0)
  {
    MidUnlink(items, t);
    MidDeleteRenumbers(items, t, FindIndex(items, Num(t - 1)), FindIndex(items, Num(t + 1)));
  }

  /** The renumber step of a middle delete, given the relinked neighbours at storage positions pp and np. */
  lemma {:induction false} MidDeleteRenumbers<P>(items: seq<Item<P>>, t: int, pp: int, np: int)
    requires 0 <= FindIndex(items, Num(t))
    requires var pos := FindIndex(items, Num(t));
      0 <= pp < |items| && 0 <= np < |items| && pp != pos && np != pos &&
      var u := Unlink(items, items[pos]);
      u[pp].index == Num(t - 1) && u[pp].next == Num(t + 1) &&
      u[np].index == Num(t + 1) && u[np].prev == Num(t - 1)
    ensures DeleteItem(items, t).Some?
    ensures var r := DeleteItem(items, t).value.0;
      exists q :: 0 <= q < |r| && r[q].index == Num(t - 1) && r[q].next == Num(t + 1)
    ensures var r := DeleteItem(items, t).value.0;
      exists q :: 0 <= q < |r| && r[q].index == Num(t) && r[q].prev == Num(t - 2)
    ensures !Linked(DeleteItem(items, t).value.0)
  {
    DeleteShape(items, t);
    var pos := FindIndex(items, Num(t));
    var u := Unlink(items, items[pos]);
    var r := DeleteItem(items, t).value.0;
    var qp := After(pp, pos);
    var qn := After(np, pos);
    assert Before(qp, pos) == pp && Before(qn, pos) == np;
    assert r[qp] == Shift(u[pp], t, -1) && r[qn] == Shift(u[np], t, -1);
    assert r[qp].index == Num(t - 1) && r[qp].next == Num(t + 1);
    assert r[qn].index == Num(t) && r[qn].prev == Num(t - 2);
    assert r[qp].next != ExpectedNext(t - 1, |r|);
  }

  /** The relinking of a middle delete: the neighbours of t now point at each other. */
  lemma {:induction false} MidUnlink<P>(items: seq<Item<P>>, t: int)
    requires Dense(items) && Linked(items)
    requires 1 < t < |items|
    ensures var pos := FindIndex(items, Num(t));
      var pp := FindIndex(items, Num(t - 1)); var np := FindIndex(items, Num(t + 1));
      0 <= pos && 0 <= pp < |items| && 0 <= np < |items| && pp != pos && np != pos &&
      var u := Unlink(items, items[pos]);
      u[pp].index == Num(t - 1) && u[pp].next == Num(t + 1) &&
      u[np].index == Num(t + 1) && u[np].prev == Num(t - 1)
  {
    DenseFind(items, t);
    DenseFind(items, t - 1);
    DenseFind(items, t + 1);
    var pos := FindIndex(items, Num(t));
    var tgt := items[pos];
    assert tgt.prev == Num(t - 1) && tgt.next == Num(t + 1);
    var s1 := SetNext(items, Num(t - 1), Num(t + 1));
    FindSameIndices(s1, items, Num(t + 1));
  }

  /**
   * Inserting after the tail and then deleting the new item gives back the
   * original list exactly, storage order included.
   */
  lemma {:induction false} TailInsertThenDeleteRestores<P>(items: seq<Item<P>>, d: P)
    requires Dense(items) && Linked(items)
    ensures InsertAfter(items, |items|, d).Some?
    ensures DeleteItem(InsertAfter(items, |items|, d).value, |items| + 1)
         == Some((items, Item(Num(|items| + 1), if |items| == 0 then Start else Num(|items|), End, d)))
  {
    var n := |items|;
    InsertKeepsDense(items, n, d);
    var r1 := InsertAfter(items, n, d).value;
    if n == 0 {
      assert r1 == [Item(Num(1), Start, End, d)];
      assert Splice(Unlink(r1, r1[0]), 0) == [];
    } else {
      TailInsertShape(items, d);
      DeleteTailAgain(items, d);
    }
  }

  /** On a non-empty list, insert after the tail only repoints the tail and appends. */
  lemma {:induction false} TailInsertShape<P>(items: seq<Item<P>>, d: P)
    requires Dense(items) && Linked(items) && |items| > 0
    ensures InsertAfter(items, |items|, d)
         == Some(SetNext(items, Num(|items|), Num(|items| + 1)) + [Item(Num(|items| + 1), Num(|items|), End, d)])
  {
    var n := |items|;
    DenseFind(items, n);
    var ap := FindIndex(items, Num(n));
    assert items[ap].next == End;
    var s1 := SetNext(items, Num(n), Num(n + 1));
    FindSameIndices(s1, items, End);
    assert SetPrev(s1, End, Num(n + 1)) == s1;
    ShiftNothing(s1, n, 1);
  }

  /** Deleting the appended tail item of a repointed list gives back the list. */
  lemma {:induction false} DeleteTailAgain<P>(items: seq<Item<P>>, d: P)
    requires Dense(items) && Linked(items) && |items| > 0
    ensures var n := |items|; var added := Item(Num(n + 1), Num(n), End, d);
      DeleteItem(SetNext(items, Num(n), Num(n + 1)) + [added], n + 1) == Some((items, added))
  {
    var n := |items|;
    var added := Item(Num(n + 1), Num(n), End, d);
    var r1 := SetNext(items, Num(n), Num(n + 1)) + [added];
    TailUnlinkRestores(items, d);
    DeleteShape(r1, n + 1);
    var u := Unlink(r1, added);
    var r := DeleteItem(r1, n + 1).value.0;
    forall q | 0 <= q < n
      ensures r[q] == items[q]
    {
      assert Before(q, n) == q;
      assert r[q] == Shift(items[q], n + 1, -1);
    }
    assert r == items;
  }

  /** Unlinking the appended tail item restores the old tail's `next`. */
  lemma {:induction false} TailUnlinkRestores<P>(items: seq<Item<P>>, d: P)
    requires Dense(items) && Linked(items) && |items| > 0
    ensures var n := |items|; var added := Item(Num(n + 1), Num(n), End, d);
      var r1 := SetNext(items, Num(n), Num(n + 1)) + [added];
      FindIndex(r1, Num(n + 1)) == n && r1[n] == added &&
      forall q :: 0 <= q < n ==> Unlink(r1, added)[q] == items[q]
  {
    var n := |items|;
    var added := Item(Num(n + 1), Num(n), End, d);
    DenseFind(items, n);
    var ap := FindIndex(items, Num(n));
    assert items[ap].next == End;
    var r1 := SetNext(items, Num(n), Num(n + 1)) + [added];
    assert forall p :: 0 <= p < n ==> r1[p].index == items[p].index;
    assert forall p :: 0 <= p < n ==> r1[p].index != Num(n + 1);
    assert r1[n].index == Num(n + 1);
    assert FindIndex(r1, Num(n)) == ap;
    var u := SetNext(r1, Num(n), End);
    assert Unlink(r1, added) == u;
    forall q | 0 <= q < n
      ensures u[q] == items[q]
    {
    }
  }

  // ---------------------------------------------------------------------
  // batch-append
  // ---------------------------------------------------------------------

  /**
   * For any list (dense or not), with m its largest numeric index: the k new
   * items are m+1 .. m+k in input order; each points back at the index before
   * it (the first at m, or 'start' when m is 0) and forward at the index after
   * it (the last at 'end'); and the item indexed m, if any, now points at m+1
   * -- also when k is 0.
   */
  lemma {:induction false} AppendChains<P>(items: seq<Item<P>>, ds: seq<P>)
    ensures var r := Append(items, ds); var m := MaxIndex(items);
      forall p :: |items| <= p < |r| ==>
        && r[p].index == Num(m + 1 + p - |items|)
        && r[p].prev == (if p == |items| then (if m == 0 then Start else Num(m)) else Num(m + p - |items|))
        && r[p].next == (if p == |r| - 1 then End else Num(m + 2 + p - |items|))
    ensures var r := Append(items, ds); var m := MaxIndex(items); var last := FindIndex(items, Num(m));
      last >= 0 ==> r[last].next == Num(m + 1)
  {
    AppendShape(items, ds);
  }

  /** The batch-append result is the repointed list followed by the chain. */
  lemma AppendShape<P>(items: seq<Item<P>>, ds: seq<P>)
    ensures var r := Append(items, ds); var m := MaxIndex(items); var c := Chain(m, ds);
      (forall p :: 0 <= p < |items| ==> r[p] == SetNext(items, Num(m), Num(m + 1))[p]) &&
      (forall p :: |items| <= p < |r| ==> r[p] == c[p - |items|])
  {
  }

  /** A non-empty batch keeps a dense, linked list dense and linked. */
  lemma {:induction false} AppendKeepsInvariants<P>(items: seq<Item<P>>, ds: seq<P>)
    requires Dense(items) && Linked(items) && |ds| > 0
    ensures Dense(Append(items, ds)) && Linked(Append(items, ds))
  {
    AppendKeepsDense(items, ds);
    AppendKeepsLinks(items, ds);
  }

  /** A batch on a dense list leaves it dense (the new items are N+1 .. N+k). */
  lemma {:induction false} AppendKeepsDense<P>(items: seq<Item<P>>, ds: seq<P>)
    requires Dense(items)
    ensures Dense(Append(items, ds))
  {
    var n := |items|;
    DenseMax(items);
    AppendChains(items, ds);
    var r := Append(items, ds);
    forall i | 1 <= i <= |r|
      ensures HasIndex(r, i)
    {
      if i <= n {
        assert HasIndex(items, i);
        var p :| 0 <= p < n && items[p].index == Num(i);
        assert r[p].index == Num(i);
      } else {
        assert r[i - 1].index == Num(i);
      }
    }
  }

  /** A non-empty batch on a dense, linked list leaves it linked. */
  lemma {:induction false} AppendKeepsLinks<P>(items: seq<Item<P>>, ds: seq<P>)
    requires Dense(items) && Linked(items) && |ds| > 0
    ensures Linked(Append(items, ds))
  {
    var n := |items|;
    DenseMax(items);
    AppendChains(items, ds);
    var r := Append(items, ds);
    forall p | 0 <= p < n
      ensures r[p].prev == ExpectedPrev(r[p].index.n) && r[p].next == ExpectedNext(r[p].index.n, |r|)
    {
      if items[p].index != Num(n) {
        assert p != FindIndex(items, Num(n));
      } else {
        DenseFind(items, n);
      }
    }
  }

  /**
   * An empty batch on a non-empty dense, linked list still repoints the old
   * tail N at N+1, so the list is no longer linked.
   */
  lemma {:induction false} EmptyAppendBreaksLinks<P>(items: seq<Item<P>>)
    requires Dense(items) && Linked(items) && |items| > 0
    ensures var r := Append(items, []);
      exists p :: 0 <= p < |r| && r[p].index == Num(|items|) && r[p].next == Num(|items| + 1)
    ensures !Linked(Append(items, []))
  {
    var n := |items|;
    DenseMax(items);
    DenseFind(items, n);
    AppendChains(items, []);
    var last := FindIndex(items, Num(n));
    var r := Append(items, []);
    assert r[last].index == Num(n) && r[last].next == Num(n + 1);
  }
}
