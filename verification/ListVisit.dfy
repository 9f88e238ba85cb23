/**
  `visit_type_XList` and `qapi_free_XList` for every built-in element type: one loop that
  builds, reads or frees a list depending on the visitor, mutually recursive with the free
  function its error path calls.
 */
module ListVisit {
  import opened Common
  import opened CHeap
  import opened Visitors
  import opened Lists

  /** None of the calls numbered lo, lo + 1, ..., hi - 1 is made to fail. */
  ghost predicate NoFault(faults: set<nat>, lo: nat, hi: nat) {
    forall k :: k in faults ==> k < lo || hi <= k
  }

  ghost predicate AllFit(items: seq<QObject>, t: ElemType) {
    forall i :: 0 <= i < |items| ==> Fits(items[i], t)
  }

  /** An input visitor whose next call has number `calls` reads `q` as a list of type `t`. */
  ghost predicate Readable(q: Option<QObject>, t: ElemType, faults: set<nat>, calls: nat) {
    && q.Some? && q.value.QList?
    && AllFit(q.value.items, t)
    && NoFault(faults, calls, calls + |q.value.items| + 2)
  }

  /** Same nesting depth, and nothing changed below the innermost level. */
  ghost predicate Bracketed(before: seq<Frame>, after: seq<Frame>) {
    && |before| == |after|
    && (before != [] ==> before[..|before| - 1] == after[..|after| - 1])
  }

  /** What does not change while a list is walked. For an input visitor: the heap before the list,
      the elements to read; for the others: the heap at the start, the cells to walk. */
  datatype Walking = Walking(b0: Blocks, top0: Ptr, head: Ptr, t: ElemType, base: seq<Frame>,
                             items: seq<QObject>, owned: seq<Ptr>)

  /** The walk has read `i` elements and `tail` is the cell for the next one. */
  ghost predicate Reading(w: Walking, i: nat, tail: Ptr, cells: seq<Ptr>, b: Blocks, top: Ptr, stack: seq<Frame>) {
    && i <= |w.items|
    && (tail == NULL <==> i == |w.items|)
    && |cells| == (if i < |w.items| then i + 1 else i)
    && (tail != NULL ==> tail == cells[i])
    && Building(w.b0, w.top0, b, top, w.head, w.t, cells)
    && (tail != NULL ==> b[cells[i]].value == Zero(w.t))
    && stack == w.base + [InList(w.items[i..])]
    && (forall j :: 0 <= j < i ==> Fits(w.items[j], w.t))
    && (forall j :: 0 <= j < i ==> ReadCell(b, cells[j]) == w.items[j])
  }

  /** As `Reading`, after the element has been stored in `tail` and before the next step. */
  ghost predicate Stored(w: Walking, i: nat, tail: Ptr, cells: seq<Ptr>, b: Blocks, top: Ptr, stack: seq<Frame>) {
    && i < |w.items|
    && |cells| == i + 1 && tail == cells[i]
    && Building(w.b0, w.top0, b, top, w.head, w.t, cells)
    && stack == w.base + [InList(w.items[i + 1..])]
    && (forall j :: 0 <= j <= i ==> Fits(w.items[j], w.t))
    && (forall j :: 0 <= j <= i ==> ReadCell(b, cells[j]) == w.items[j])
  }

  /** The input visitor's element call, and the store of its result through `&tail->value`. */
  lemma {:induction false} ReadElement(w: Walking, i: nat, tail: Ptr, cells: seq<Ptr>, b: Blocks, top: Ptr,
                                       stack: seq<Frame>,
                                       good: bool, value: Value, b1: Blocks, b': Blocks, top': Ptr)
    requires Reading(w, i, tail, cells, b, top, stack) && tail != NULL
    requires good ==> Fits(w.items[i], w.t)
    requires if good && w.t.StrType? then
               value == Str(top) && top' == top + 1 && b1 == b[top := Text(w.items[i].s)]
             else
               && top' == top && b1 == b
               && value == if good then Num(w.items[i].n) else if w.t.StrType? then Str(NULL) else b[tail].value
    requires b' == b1[tail := Cell(b[tail].next, value)]
    ensures Building(w.b0, w.top0, b', top', w.head, w.t, cells)
    ensures good ==> Stored(w, i, tail, cells, b', top', Consumed(stack, ""))
    ensures Consumed(stack, "") == w.base + [InList(w.items[i + 1..])]
  {
    assert HasType(b, b[cells[i]].value, w.t);
    StoreValue(w.b0, w.top0, b, top, w.head, w.t, cells, good && w.t.StrType?,
               if good && w.t.StrType? then w.items[i].s else "", value, b');
    assert stack[..|stack| - 1] == w.base;
    assert w.items[i..][1..] == w.items[i + 1..];
  }

  /** The input visitor's step: the next cell is allocated and linked if elements remain. */
  lemma {:induction false} ReadStep(w: Walking, i: nat, tail: Ptr, cells: seq<Ptr>, b: Blocks, top: Ptr,
                                    stack: seq<Frame>, next: Ptr, b': Blocks, top': Ptr)
    requires Stored(w, i, tail, cells, b, top, stack)
    requires if w.items[i + 1..] == [] then
               next == NULL && top' == top && b' == b
             else
               next == top && top' == top + 1
               && b' == b[top := Cell(NULL, Zero(w.t))][tail := Cell(top, b[tail].value)]
    ensures Reading(w, i + 1, next, if next == NULL then cells else cells + [next], b', top', stack)
  {
    assert w.items[i + 1..] == [] <==> i + 1 == |w.items|;
    if next != NULL {
      AppendCell(w.b0, w.top0, b, top, w.head, w.t, cells, b');
      var cells' := cells + [next];
      assert forall j :: 0 <= j < i + 1 ==> cells'[j] == cells[j];
    }
  }

  /** Having read every element, the list holds them in order. */
  lemma {:induction false} ReadAll(w: Walking, cells: seq<Ptr>, b: Blocks, top: Ptr, stack: seq<Frame>)
    requires Reading(w, |w.items|, NULL, cells, b, top, stack)
    ensures Building(w.b0, w.top0, b, top, w.head, w.t, cells)
    ensures Contents(b, cells) == w.items && AllFit(w.items, w.t)
    ensures stack == w.base + [InList([])]
  {
    assert w.items[|w.items|..] == [];
  }

  /** The walk has written `i` elements. */
  ghost predicate Writing(w: Walking, i: nat, b: Blocks, stack: seq<Frame>) {
    && i <= |w.owned|
    && b == w.b0
    && stack == w.base + [OutList(Contents(b, w.owned[..i]))]
  }

  lemma {:induction false} WriteElement(w: Walking, i: nat, b: Blocks, stack: seq<Frame>)
    requires Writing(w, i, b, stack) && Owns(b, w.head, w.t, w.owned) && i < |w.owned|
    ensures Writing(w, i + 1, b, Attached(stack, ReadValue(b, b[w.owned[i]].value)))
  {
    assert stack[..|stack| - 1] == w.base;
    assert Contents(b, w.owned[..i + 1]) == Contents(b, w.owned[..i]) + [ReadCell(b, w.owned[i])];
  }

  /** The walk has freed `i` cells and their strings. */
  ghost predicate Freeing(w: Walking, i: nat, b: Blocks, frees0: seq<Ptr>, frees: seq<Ptr>) {
    && i <= |w.owned|
    && b == Without(w.b0, FreeOrder(w.b0, w.owned[..i]))
    && frees == frees0 + FreeOrder(w.b0, w.owned[..i])
  }

  /** As `Freeing`, after the string of cell `i` has been freed and before the cell is. */
  ghost predicate Emptied(w: Walking, i: nat, b: Blocks, frees0: seq<Ptr>, frees: seq<Ptr>) {
    && i < |w.owned|
    && var p := Payload(w.b0, w.owned[i]);
    && b == Without(w.b0, FreeOrder(w.b0, w.owned[..i])) - {p}
    && frees == frees0 + FreeOrder(w.b0, w.owned[..i]) + (if p == NULL then [] else [p])
    && w.owned[i] in b && b[w.owned[i]] == w.b0[w.owned[i]]
  }

  /** Freeing the string of a cell leaves the cell itself alone. */
  lemma {:induction false} FreeElement(w: Walking, i: nat, b: Blocks, frees0: seq<Ptr>, frees: seq<Ptr>)
    requires Freeing(w, i, b, frees0, frees) && Owns(w.b0, w.head, w.t, w.owned) && i < |w.owned|
    requires NULL !in w.b0
    ensures var c := w.owned[i]; var p := Payload(w.b0, c);
            && c in b && b[c] == w.b0[c] && HasType(b, b[c].value, w.t)
            && Emptied(w, i, b - {p}, frees0, frees + (if p == NULL then [] else [p]))
            && (b - {p})[c := b[c]] == b - {p}
  {
    DeallocSurvivor(w.b0, w.head, w.t, w.owned, i);
    assert HasType(w.b0, w.b0[w.owned[i]].value, w.t);
  }

  /** A dealloc visitor frees a cell only after reading its link. */
  lemma {:induction false} FreeStep(w: Walking, i: nat, b: Blocks, frees0: seq<Ptr>, frees: seq<Ptr>)
    requires Emptied(w, i, b, frees0, frees) && Owns(w.b0, w.head, w.t, w.owned)
    requires NULL !in w.b0
    ensures Freeing(w, i + 1, b - {w.owned[i]}, frees0, frees + [w.owned[i]])
    ensures b[w.owned[i]].next == if i + 1 < |w.owned| then w.owned[i + 1] else NULL
  {
    LinkAt(w.b0, w.head, w.owned, i);
    DeallocTurn(w.b0, w.head, w.t, w.owned, i, b - {w.owned[i]});
  }

  /** `visit_type_str` or `visit_type_uint64` on `&tail->value`. */
  method VisitAt(h: Heap, v: Visitor, tail: Ptr, t: ElemType, ghost w: Walking, ghost i: nat,
                 ghost cells: seq<Ptr>, ghost frees0: seq<Ptr>)
    returns (good: bool)
    requires h.Valid() && v.Valid() && w.t == t && tail != NULL
    requires v.kind.Input? ==> Reading(w, i, tail, cells, h.blocks, h.top, v.stack)
    requires !v.kind.Input? ==> i < |w.owned| && tail == w.owned[i] && Owns(w.b0, w.head, t, w.owned)
    requires v.kind.Output? ==> Writing(w, i, h.blocks, v.stack)
    requires v.kind.Dealloc? ==> Freeing(w, i, h.blocks, frees0, h.frees) && NULL !in w.b0
    modifies h`blocks, h`top, h`frees, v`calls, v`stack, v`result
    ensures h.Valid() && v.Valid() && v.result == old(v.result) && v.calls == old(v.calls) + 1
    ensures v.kind.Input? ==>
              && (good <==> old(v.calls) !in v.faults && Fits(w.items[i], t))
              && Building(w.b0, w.top0, h.blocks, h.top, w.head, t, cells)
              && (good ==> Stored(w, i, tail, cells, h.blocks, h.top, v.stack))
              && v.stack == w.base + [InList(w.items[i + 1..])]
              && h.frees == old(h.frees)
    ensures v.kind.Output? ==>
              && (good <==> old(v.calls) !in v.faults)
              && (if good then Writing(w, i + 1, h.blocks, v.stack) else v.stack == old(v.stack))
              && h.blocks == old(h.blocks) && h.frees == old(h.frees)
    ensures v.kind.Dealloc? ==>
              good && Emptied(w, i, h.blocks, frees0, h.frees) && v.stack == old(v.stack)
    ensures !v.kind.Input? ==> h.top == old(h.top)
  {
    ghost var b, top, frees, stack := h.blocks, h.top, h.frees, v.stack;
    if v.kind.Input? {
      assert Peek(v.root, stack, "") == Some(w.items[i]);
      assert stack != [];
    } else if v.kind.Output? {
      assert stack != [];
      if old(v.calls) !in v.faults { WriteElement(w, i, b, stack); }
    } else {
      FreeElement(w, i, b, frees0, frees);
    }
    var value;
    good, value := v.VisitElem(h, "", t, h.blocks[tail].value);
    ghost var b1 := h.blocks;
    h.SetValue(tail, value);
    if v.kind.Input? {
      ReadElement(w, i, tail, cells, b, top, stack, good, value, b1, h.blocks, h.top);
    }
  }

  /** The step of the loop, `visit_next_list(v, tail, size)`. */
  method StepFrom(h: Heap, v: Visitor, tail: Ptr, t: ElemType, ghost w: Walking, ghost i: nat,
                  ghost cells: seq<Ptr>, ghost frees0: seq<Ptr>)
    returns (next: Ptr, ghost cells': seq<Ptr>)
    requires h.Valid() && v.Valid() && w.t == t
    requires v.kind.Input? ==> Stored(w, i, tail, cells, h.blocks, h.top, v.stack)
    requires !v.kind.Input? ==> i < |w.owned| && tail == w.owned[i] && Owns(w.b0, w.head, t, w.owned)
    requires v.kind.Output? ==> Writing(w, i + 1, h.blocks, v.stack)
    requires v.kind.Dealloc? ==> Emptied(w, i, h.blocks, frees0, h.frees) && NULL !in w.b0
    modifies h`blocks, h`top, h`frees
    ensures h.Valid()
    ensures v.kind.Input? ==>
              Reading(w, i + 1, next, cells', h.blocks, h.top, v.stack) && h.frees == old(h.frees)
    ensures v.kind.Output? ==> h.blocks == old(h.blocks) && h.frees == old(h.frees)
    ensures v.kind.Dealloc? ==> Freeing(w, i + 1, h.blocks, frees0, h.frees)
    ensures !v.kind.Input? ==>
              next == (if i + 1 < |w.owned| then w.owned[i + 1] else NULL) && h.top == old(h.top)
  {
    ghost var b, top := h.blocks, h.top;
    if v.kind.Dealloc? {
      FreeStep(w, i, b, frees0, h.frees);
    } else if v.kind.Output? {
      LinkAt(b, w.head, w.owned, i);
    }
    next := v.NextList(h, tail, t);
    cells' := cells;
    if v.kind.Input? {
      ReadStep(w, i, tail, cells, b, top, v.stack, next, h.blocks, h.top);
      cells' := if next == NULL then cells else cells + [next];
    }
  }

  /** The loop of `visit_type_XList`: visit each element, step with `visit_next_list`. */
  method Walk(h: Heap, v: Visitor, head: Ptr, t: ElemType, ghost w: Walking)
    returns (ok: bool, ghost cells: seq<Ptr>)
    requires h.Valid() && v.Valid()
    requires w.head == head && w.t == t
    requires v.kind.Input? ==>
               && Reading(w, 0, head, if w.items == [] then [] else [head], h.blocks, h.top, v.stack)
    requires v.kind.Output? ==> Writing(w, 0, h.blocks, v.stack)
    requires v.kind.Dealloc? ==> Freeing(w, 0, h.blocks, h.frees, h.frees)
    requires !v.kind.Input? ==> h.blocks == w.b0 && Owns(h.blocks, head, t, w.owned)
    modifies h`blocks, h`top, h`frees, v`calls, v`stack, v`result
    ensures h.Valid() && v.Valid() && v.result == old(v.result)
    ensures v.kind.Input? ==>
              && (ok <==> AllFit(w.items, t) && NoFault(v.faults, old(v.calls), old(v.calls) + |w.items|))
              && (if ok then Reading(w, |w.items|, NULL, cells, h.blocks, h.top, v.stack)
                  else Building(w.b0, w.top0, h.blocks, h.top, head, t, cells))
              && h.frees == old(h.frees)
              && (ok ==> v.calls == old(v.calls) + |w.items|)
              && |v.stack| == |w.base| + 1 && v.stack[..|w.base|] == w.base && v.stack[|w.base|].InList?
    ensures v.kind.Output? ==>
              && (ok <==> NoFault(v.faults, old(v.calls), old(v.calls) + |w.owned|))
              && (ok ==> Writing(w, |w.owned|, h.blocks, v.stack) && v.calls == old(v.calls) + |w.owned|)
              && h.blocks == old(h.blocks) && h.frees == old(h.frees)
              && |v.stack| == |w.base| + 1 && v.stack[..|w.base|] == w.base && v.stack[|w.base|].OutList?
    ensures v.kind.Dealloc? ==>
              && ok && v.stack == old(v.stack)
              && Freeing(w, |w.owned|, h.blocks, old(h.frees), h.frees)
    ensures !v.kind.Input? ==> h.top == old(h.top)
  {
    hide Building, Owns, Freeing, Contents;
    ghost var i := 0;
    if !v.kind.Input? {
      OwnsHead(w.b0, head, t, w.owned);
    }
    ghost var n := if v.kind.Input? then |w.items| else |w.owned|;
    cells := if w.items == [] then [] else [head];
    var tail := head;
    while tail != NULL
      invariant h.Valid() && v.Valid() && v.result == old(v.result)
      invariant i <= n && v.calls == old(v.calls) + i
      invariant NoFault(v.faults, old(v.calls), v.calls)
      invariant v.kind.Input? ==>
                  Reading(w, i, tail, cells, h.blocks, h.top, v.stack) && h.frees == old(h.frees)
      invariant !v.kind.Input? ==> tail == (if i < |w.owned| then w.owned[i] else NULL) && h.top == old(h.top)
      invariant v.kind.Output? ==> Writing(w, i, h.blocks, v.stack) && h.frees == old(h.frees)
      invariant v.kind.Dealloc? ==>
                  Freeing(w, i, h.blocks, old(h.frees), h.frees) && v.stack == old(v.stack)
      decreases n - i
    {
      var good := VisitAt(h, v, tail, t, w, i, cells, old(h.frees));
      if !good {
        return false, cells;
      }
      tail, cells := StepFrom(h, v, tail, t, w, i, cells, old(h.frees));
      i := i + 1;
    }
    ok := true;
  }

  /** Right after `visit_start_list` the walk has done nothing yet. */
  lemma {:induction false} StartWalk(kind: Kind, w: Walking, b: Blocks, top: Ptr, stack: seq<Frame>, frees: seq<Ptr>)
    requires 0 < w.top0 && forall p :: p in w.b0 ==> p < w.top0
    requires kind.Input? ==>
               && stack == w.base + [InList(w.items)]
               && (if w.items != [] then
                     w.head == w.top0 && top == w.top0 + 1 && b == w.b0[w.head := Cell(NULL, Zero(w.t))]
                   else
                     w.head == NULL && top == w.top0 && b == w.b0)
    requires kind.Output? ==> stack == w.base + [OutList([])] && b == w.b0
    ensures kind.Input? ==> Reading(w, 0, w.head, if w.items == [] then [] else [w.head], b, top, stack)
    ensures kind.Output? ==> Writing(w, 0, b, stack)
    ensures Freeing(w, 0, w.b0, frees, frees)
  {
    BuildingStart(w.b0, w.top0, w.t);
    assert w.items[0..] == w.items;
    assert Contents(b, w.owned[..0]) == [];
  }

  /** `visit_start_list`, after which `w` describes the walk to come. */
  method Start(h: Heap, v: Visitor, name: string, obj: ListSlot, t: ElemType, ghost owned: seq<Ptr>)
    returns (ok: bool, ghost w: Walking)
    requires h.Valid() && v.Valid()
    requires !v.kind.Input? ==> Owns(h.blocks, obj.head, t, owned)
    modifies h`blocks, h`top, v`calls, v`stack, obj
    ensures h.Valid() && v.Valid() && v.calls == old(v.calls) + 1
    ensures w.b0 == old(h.blocks) && w.top0 == old(h.top) && w.head == obj.head && w.t == t && w.owned == owned
    ensures v.kind.Input? ==>
              && var q := Peek(v.root, old(v.stack), name);
              && (ok <==> old(v.calls) !in v.faults && q.Some? && q.value.QList?)
              && w.base == Consumed(old(v.stack), name)
              && (if ok then
                    && w.items == q.value.items
                    && Reading(w, 0, obj.head, if w.items == [] then [] else [obj.head], h.blocks, h.top, v.stack)
                  else
                    obj.head == NULL && h.blocks == old(h.blocks) && h.top == old(h.top) && v.stack == w.base)
    ensures v.kind.Output? ==>
              && (ok <==> old(v.calls) !in v.faults)
              && (if ok then Writing(w, 0, h.blocks, v.stack) else v.stack == old(v.stack))
    ensures v.kind.Dealloc? ==>
              ok && Freeing(w, 0, h.blocks, h.frees, h.frees) && v.stack == old(v.stack) + [Plain]
    ensures !v.kind.Input? ==>
              && h.blocks == old(h.blocks) && h.top == old(h.top) && obj.head == old(obj.head)
              && w.base == old(v.stack)
  {
    ghost var b0, top0, stack0 := h.blocks, h.top, v.stack;
    ok := v.StartList(h, name, obj, t);
    ghost var items := if ok && v.kind.Input? then Peek(v.root, stack0, name).value.items else [];
    ghost var base := if v.kind.Input? then Consumed(stack0, name) else stack0;
    w := Walking(b0, top0, obj.head, t, base, items, owned);
    if ok {
      StartWalk(v.kind, w, h.blocks, h.top, v.stack, h.frees);
    }
  }

  /** The loop and the `visit_check_list` that ends it. */
  method WalkAndCheck(h: Heap, v: Visitor, head: Ptr, t: ElemType, ghost w: Walking)
    returns (ok: bool, ghost cells: seq<Ptr>)
    requires h.Valid() && v.Valid()
    requires w.head == head && w.t == t
    requires v.kind.Input? ==>
               && Reading(w, 0, head, if w.items == [] then [] else [head], h.blocks, h.top, v.stack)
    requires v.kind.Output? ==> Writing(w, 0, h.blocks, v.stack)
    requires v.kind.Dealloc? ==> Freeing(w, 0, h.blocks, h.frees, h.frees)
    requires !v.kind.Input? ==> h.blocks == w.b0 && Owns(h.blocks, head, t, w.owned)
    modifies h`blocks, h`top, h`frees, v`calls, v`stack, v`result
    ensures h.Valid() && v.Valid() && v.result == old(v.result)
    ensures v.kind.Input? ==>
              && (ok <==> AllFit(w.items, t) && NoFault(v.faults, old(v.calls), old(v.calls) + |w.items| + 1))
              && Building(w.b0, w.top0, h.blocks, h.top, head, t, cells)
              && h.frees == old(h.frees)
              && (ok ==> Contents(h.blocks, cells) == w.items && v.calls == old(v.calls) + |w.items| + 1)
              && |v.stack| == |w.base| + 1 && v.stack[..|w.base|] == w.base
    ensures v.kind.Output? ==>
              && (ok <==> NoFault(v.faults, old(v.calls), old(v.calls) + |w.owned| + 1))
              && h.blocks == old(h.blocks) && h.frees == old(h.frees)
              && |v.stack| == |w.base| + 1 && v.stack[..|w.base|] == w.base && v.stack[|w.base|].OutList?
              && (ok ==> v.stack[|w.base|].done == Contents(h.blocks, w.owned))
    ensures v.kind.Dealloc? ==>
              && ok && v.stack == old(v.stack)
              && h.blocks == Without(w.b0, FreeOrder(w.b0, w.owned))
              && h.frees == old(h.frees) + FreeOrder(w.b0, w.owned)
    ensures !v.kind.Input? ==> h.top == old(h.top)
  {
    ok, cells := Walk(h, v, head, t, w);
    assert w.owned[..|w.owned|] == w.owned;
    if ok {
      if v.kind.Input? {
        ReadAll(w, cells, h.blocks, h.top, v.stack);
      }
      ok := v.CheckList();
    }
  }

  /** `visit_type_XList`. `owned` names the cells of the list that an output or dealloc visitor is
      given; `cells` those of the list an input visitor has built. */
  method VisitTypeList(h: Heap, v: Visitor, name: string, obj: ListSlot, t: ElemType, ghost owned: seq<Ptr>)
    returns (ok: bool, ghost cells: seq<Ptr>)
    requires h.Valid() && v.Valid()
    requires !v.kind.Input? ==> Owns(h.blocks, obj.head, t, owned)
    modifies h, v`calls, v`stack, v`result, obj
    ensures h.Valid() && v.Valid() && h.visitors == old(h.visitors)
    // whatever happens, every level opened has been closed
    ensures Bracketed(old(v.stack), v.stack)
    // input: the exact condition for success, the list built, or everything undone
    ensures v.kind.Input? ==>
              && var q := Peek(v.root, old(v.stack), name);
              && (ok <==> Readable(q, t, v.faults, old(v.calls)))
              && v.stack == Consumed(old(v.stack), name) && v.result == old(v.result)
              && (if ok then
                    && Building(old(h.blocks), old(h.top), h.blocks, h.top, obj.head, t, cells)
                    && Contents(h.blocks, cells) == q.value.items
                    && h.frees == old(h.frees)
                    && v.calls == old(v.calls) + |q.value.items| + 2
                  else
                    && obj.head == NULL
                    && h.blocks == old(h.blocks) && old(h.top) <= h.top
                    && FreedExactly(old(h.frees), h.frees, old(h.top), h.top))
    // output: the list is left alone and written in order
    ensures v.kind.Output? ==>
              && (ok <==> NoFault(v.faults, old(v.calls), old(v.calls) + |owned| + 2))
              && h.blocks == old(h.blocks) && h.top == old(h.top) && h.frees == old(h.frees)
              && obj.head == old(obj.head)
              && (ok ==>
                    var q := QList(Contents(h.blocks, owned));
                    && v.stack == Attached(old(v.stack), q)
                    && v.result == if old(v.stack) == [] then Some(q) else old(v.result))
    // dealloc: every cell and string is freed once, in list order, and `obj` is not touched
    ensures v.kind.Dealloc? ==>
              && ok && v.stack == old(v.stack) && h.top == old(h.top) && obj.head == old(obj.head)
              && h.blocks == Without(old(h.blocks), FreeOrder(old(h.blocks), owned))
              && h.frees == old(h.frees) + FreeOrder(old(h.blocks), owned)
    decreases if v.kind.Input? then 3 else 0
  {
    hide Building, Owns, Contents, Without, FreeOrder, Reading, Freeing;
    ok, cells := false, [];
    var started; ghost var w;
    started, w := Start(h, v, name, obj, t, owned);
    if !started {
      return false, [];
    }
    ok, cells := WalkAndCheck(h, v, obj.head, t, w);
    v.EndList();
    if !ok && v.kind.Input? {
      Rollback(h, obj, t, w, cells);
    }
  }

  /** The error path of `visit_type_XList` under an input visitor. */
  method Rollback(h: Heap, obj: ListSlot, t: ElemType, ghost w: Walking, ghost cells: seq<Ptr>)
    requires h.Valid() && Building(w.b0, w.top0, h.blocks, h.top, obj.head, t, cells)
    modifies h, obj
    ensures h.Valid() && obj.head == NULL && h.visitors == old(h.visitors)
    ensures h.blocks == w.b0 && w.top0 <= h.top
    ensures FreedExactly(old(h.frees), h.frees, w.top0, h.top)
    decreases 2
  {
    BuildingUndone(w.b0, w.top0, h.blocks, h.top, obj.head, t, cells, h.frees);
    FreeList(h, obj.head, t, cells);
    obj.head := NULL;
  }

  /** `qapi_free_XList`: hands the list to `visit_type_XList` with a dealloc visitor, which cannot
      take the error path back here. */
  method FreeList(h: Heap, head: Ptr, t: ElemType, ghost owned: seq<Ptr>)
    requires h.Valid() && Owns(h.blocks, head, t, owned)
    modifies h
    ensures h.Valid() && h.top == old(h.top) && h.visitors == old(h.visitors)
    ensures h.blocks == Without(old(h.blocks), FreeOrder(old(h.blocks), owned))
    ensures h.frees == old(h.frees) + FreeOrder(old(h.blocks), owned)
    ensures NoDup(h.frees[|old(h.frees)|..])
    ensures forall p :: p in FreeOrder(old(h.blocks), owned) ==> p in old(h.blocks) && p != NULL
    decreases 1
  {
    OwnedFreedOnce(h.blocks, head, t, owned, h.frees);
    if head == NULL {
      return;
    }
    var v := new Visitor(h, Dealloc, QNull, {});
    var obj := new ListSlot(head);
    var ok, _ := VisitTypeList(h, v, "", obj, t, owned);
    v.Release(h);
  }
}
