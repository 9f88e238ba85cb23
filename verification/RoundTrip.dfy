/**
  Writing a list with an output visitor and reading the result back with an input visitor.
 */
module RoundTrip {
  import opened Common
  import opened CHeap
  import opened Visitors
  import opened Lists
  import opened ListVisit

  /** What an output visitor writes for a list is what an input visitor of that type accepts. */
  lemma {:induction false} ContentsReadable(b: Blocks, head: Ptr, t: ElemType, cells: seq<Ptr>, calls: nat)
    requires Owns(b, head, t, cells)
    ensures Readable(Some(QList(Contents(b, cells))), t, {}, calls)
  {
  }

  /** A list survives any allocation. */
  lemma {:induction false} OwnsGrown(b: Blocks, b': Blocks, head: Ptr, t: ElemType, cells: seq<Ptr>)
    requires Owns(b, head, t, cells)
    requires forall p :: p in b ==> p in b' && b'[p] == b[p]
    ensures Owns(b', head, t, cells) && Contents(b', cells) == Contents(b, cells)
  {
  }

  /** The copy has the same elements in the same order, shares no block with the original, and
      the original is as it was. */
  method Copy(h: Heap, head: Ptr, t: ElemType, ghost owned: seq<Ptr>)
    returns (copy: Ptr, ghost cells: seq<Ptr>)
    requires h.Valid() && Owns(h.blocks, head, t, owned)
    modifies h
    ensures h.Valid() && h.visitors == old(h.visitors) && h.frees == old(h.frees)
    ensures Owns(h.blocks, copy, t, cells) && Owns(h.blocks, head, t, owned)
    ensures Contents(h.blocks, cells) == Contents(h.blocks, owned) == Contents(old(h.blocks), owned)
    ensures forall p :: p in FreeOrder(h.blocks, cells) ==> p !in old(h.blocks)
    ensures Without(h.blocks, FreeOrder(h.blocks, cells)) == old(h.blocks)
  {
    ghost var b0 := h.blocks;
    var source := new ListSlot(head);
    var out := new Visitor(h, Output, QNull, {});
    var written, _ := VisitTypeList(h, out, "", source, t, owned);
    ContentsReadable(b0, head, t, owned, 0);
    var text := out.result.value;
    out.Release(h);
    var target := new ListSlot(NULL);
    var input := new Visitor(h, Input, text, {});
    var read;
    read, cells := VisitTypeList(h, input, "", target, t, []);
    input.Release(h);
    copy := target.head;
    OwnsGrown(b0, h.blocks, head, t, owned);
    BuildingUndone(b0, old(h.top), h.blocks, h.top, copy, t, cells, h.frees);
  }

  /** The other way round: reading a list of fitting elements and writing it gives it back, and the
      list read in between has been freed. */
  method Reprint(h: Heap, items: seq<QObject>, t: ElemType) returns (q: QObject)
    requires h.Valid() && AllFit(items, t)
    modifies h
    ensures h.Valid() && h.visitors == old(h.visitors)
    ensures q == QList(items)
    ensures h.blocks == old(h.blocks) && FreedExactly(old(h.frees), h.frees, old(h.top), h.top)
  {
    var obj := new ListSlot(NULL);
    var input := new Visitor(h, Input, QList(items), {});
    var read, written;
    ghost var cells;
    read, cells := VisitTypeList(h, input, "", obj, t, []);
    input.Release(h);
    var out := new Visitor(h, Output, QNull, {});
    ghost var none;
    written, none := VisitTypeList(h, out, "", obj, t, cells);
    q := out.result.value;
    out.Release(h);
    BuildingUndone(old(h.blocks), old(h.top), h.blocks, h.top, obj.head, t, cells, h.frees);
    FreeList(h, obj.head, t, cells);
  }
}
