/**
  Linked lists on the C heap: when a pointer heads a well-formed list it owns, what the
  list contains, and in which order a dealloc pass frees its blocks.
 */
module Lists {
  import opened Common
  import opened CHeap
  import opened Visitors

  /** `head` starts a NULL-terminated chain through exactly `cells`. */
  ghost predicate Linked(b: Blocks, head: Ptr, cells: seq<Ptr>) {
    && head == (if cells == [] then NULL else cells[0])
    && NoDup(cells)
    && (forall i :: 0 <= i < |cells| ==>
          && cells[i] != NULL && cells[i] in b && b[cells[i]].Cell?
          && b[cells[i]].next == if i + 1 < |cells| then cells[i + 1] else NULL)
  }

  lemma {:induction false} OwnsHead(b: Blocks, head: Ptr, t: ElemType, cells: seq<Ptr>)
    requires Owns(b, head, t, cells)
    ensures head == if cells == [] then NULL else cells[0]
    ensures forall i :: 0 <= i < |cells| ==> cells[i] != NULL
  {
  }

  lemma {:induction false} LinkAt(b: Blocks, head: Ptr, cells: seq<Ptr>, i: nat)
    requires Linked(b, head, cells) && i < |cells|
    ensures b[cells[i]].next == if i + 1 < |cells| then cells[i + 1] else NULL
  {
  }

  /** The string block a cell owns, or NULL. */
  function Payload(b: Blocks, c: Ptr): Ptr {
    if c in b && b[c].Cell? && b[c].value.Str? then b[c].value.p else NULL
  }

  /** `head` owns the list `cells` of element type `t`; no two cells share a string. */
  ghost predicate Owns(b: Blocks, head: Ptr, t: ElemType, cells: seq<Ptr>) {
    && Linked(b, head, cells)
    && (forall i :: 0 <= i < |cells| ==> HasType(b, b[cells[i]].value, t))
    && (forall i, j :: 0 <= i < j < |cells| ==>
          Payload(b, cells[i]) == NULL || Payload(b, cells[i]) != Payload(b, cells[j]))
  }

  function ReadCell(b: Blocks, c: Ptr): QObject {
    if c in b && b[c].Cell? then ReadValue(b, b[c].value) else QNull
  }

  /** The elements of a list, in order. */
  function Contents(b: Blocks, cells: seq<Ptr>): seq<QObject> {
    seq(|cells|, i requires 0 <= i < |cells| => ReadCell(b, cells[i]))
  }

  /** What one turn of a dealloc pass frees: the string, then the cell. */
  function Piece(b: Blocks, c: Ptr): seq<Ptr> {
    (if Payload(b, c) == NULL then [] else [Payload(b, c)]) + [c]
  }

  /** Every block a list owns, in the order a dealloc pass frees them. */
  function FreeOrder(b: Blocks, cells: seq<Ptr>): seq<Ptr> {
    if cells == [] then [] else
      FreeOrder(b, cells[..|cells| - 1]) + Piece(b, cells[|cells| - 1])
  }

  lemma {:induction false} InFreeOrder(b: Blocks, cells: seq<Ptr>, p: Ptr)
    ensures p in FreeOrder(b, cells) <==> exists i :: 0 <= i < |cells| && p in Piece(b, cells[i])
  {
    if cells == [] {
    } else {
      var init := cells[..|cells| - 1];
      InFreeOrder(b, init, p);
      assert forall i :: 0 <= i < |init| ==> init[i] == cells[i];
      if p in Piece(b, cells[|cells| - 1]) {}
    }
  }

  /** Only the pieces of the cells matter. */
  lemma {:induction false} FreeOrderFrame(b: Blocks, b': Blocks, cells: seq<Ptr>)
    requires forall i :: 0 <= i < |cells| ==> Payload(b, cells[i]) == Payload(b', cells[i])
    ensures FreeOrder(b, cells) == FreeOrder(b', cells)
  {
    if cells == [] {
    } else {
      var init := cells[..|cells| - 1];
      assert forall i :: 0 <= i < |init| ==> init[i] == cells[i];
      FreeOrderFrame(b, b', init);
    }
  }

  /** The pieces of two different cells of an owned list are disjoint. */
  lemma {:induction false} PiecesDisjoint(b: Blocks, head: Ptr, t: ElemType, cells: seq<Ptr>, i: nat, j: nat, p: Ptr)
    requires Owns(b, head, t, cells)
    requires i < |cells| && j < |cells| && i != j
    requires p in Piece(b, cells[i])
    ensures p !in Piece(b, cells[j])
  {
  }

  /** The blocks of the cells before number `i` and those of cell `i` itself are disjoint. */
  lemma {:induction false} PrefixDisjoint(b: Blocks, head: Ptr, t: ElemType, cells: seq<Ptr>, i: nat, p: Ptr)
    requires Owns(b, head, t, cells)
    requires i < |cells|
    requires p in Piece(b, cells[i])
    ensures p !in FreeOrder(b, cells[..i])
  {
    InFreeOrder(b, cells[..i], p);
    if p in FreeOrder(b, cells[..i]) {
      var j :| 0 <= j < i && p in Piece(b, cells[..i][j]);
      PiecesDisjoint(b, head, t, cells, i, j, p);
    }
  }

  lemma {:induction false} NoDupConcat(s: seq<Ptr>, t: seq<Ptr>)
    requires NoDup(s) && NoDup(t)
    requires forall p :: p in t ==> p !in s
    ensures NoDup(s + t)
  {
    forall i, j | 0 <= i < j < |s + t| ensures (s + t)[i] != (s + t)[j] {
      if i < |s| && |s| <= j {
        assert (s + t)[i] in s;
        assert (s + t)[j] in t;
      }
    }
  }

  /** A dealloc pass frees no block twice. */
  lemma {:induction false} FreeOrderNoDup(b: Blocks, head: Ptr, t: ElemType, cells: seq<Ptr>, n: nat)
    requires Owns(b, head, t, cells)
    requires n <= |cells|
    ensures NoDup(FreeOrder(b, cells[..n]))
  {
    if n == 0 {
    } else {
      FreeOrderNoDup(b, head, t, cells, n - 1);
      assert cells[..n][..n - 1] == cells[..n - 1];
      var c := cells[n - 1];
      assert HasType(b, b[c].value, t);
      forall p | p in Piece(b, c) ensures p !in FreeOrder(b, cells[..n - 1]) {
        PrefixDisjoint(b, head, t, cells, n - 1, p);
      }
      NoDupConcat(FreeOrder(b, cells[..n - 1]), Piece(b, c));
    }
  }

  /** Every block of an owned list is allocated. */
  lemma {:induction false} FreeOrderLive(b: Blocks, head: Ptr, t: ElemType, cells: seq<Ptr>, p: Ptr)
    requires Owns(b, head, t, cells)
    requires p in FreeOrder(b, cells)
    ensures p in b && p != NULL
  {
    InFreeOrder(b, cells, p);
    var i :| 0 <= i < |cells| && p in Piece(b, cells[i]);
    assert HasType(b, b[cells[i]].value, t);
  }

  /** A dealloc pass frees each block once, and only blocks that are there. */
  lemma {:induction false} OwnedFreedOnce(b: Blocks, head: Ptr, t: ElemType, cells: seq<Ptr>, frees: seq<Ptr>)
    requires Owns(b, head, t, cells)
    ensures NoDup((frees + FreeOrder(b, cells))[|frees|..])
    ensures forall p :: p in FreeOrder(b, cells) ==> p in b && p != NULL
  {
    FreeOrderNoDup(b, head, t, cells, |cells|);
    assert cells[..|cells|] == cells;
    assert (frees + FreeOrder(b, cells))[|frees|..] == FreeOrder(b, cells);
    forall p | p in FreeOrder(b, cells) ensures p in b && p != NULL {
      FreeOrderLive(b, head, t, cells, p);
    }
  }

  /** A list of scalars owns its cells and nothing else. */
  lemma {:induction false} ScalarFreeOrder(b: Blocks, cells: seq<Ptr>)
    requires forall i :: 0 <= i < |cells| ==> Payload(b, cells[i]) == NULL
    ensures FreeOrder(b, cells) == cells
  {
    if cells == [] {
    } else {
      var init := cells[..|cells| - 1];
      assert forall i :: 0 <= i < |init| ==> init[i] == cells[i];
      ScalarFreeOrder(b, init);
      var last := cells[|cells| - 1];
      assert Piece(b, last) == [last];
      assert FreeOrder(b, cells) == init + [last] == cells;
    }
  }

  // ----- building a list with an input visitor -----

  /** Since the heap was `b0` with `top0` the next address, nothing has been freed or overwritten,
      and exactly the blocks of the list `cells` at `head` have been allocated. */
  ghost predicate Building(b0: Blocks, top0: Ptr, b: Blocks, top: Ptr,
                           head: Ptr, t: ElemType, cells: seq<Ptr>) {
    && 0 < top0 <= top
    && (forall p :: p in b0 ==> p < top0)
    && Owns(b, head, t, cells)
    && (forall p :: p in b0 ==> p in b && b[p] == b0[p])
    && (forall p :: p in b <==> p in b0 || top0 <= p < top)
    && (forall p :: p in FreeOrder(b, cells) <==> top0 <= p < top)
  }

  /** Freeing a list under construction restores the heap and frees each new block once. */
  lemma {:induction false} BuildingUndone(b0: Blocks, top0: Ptr, b: Blocks, top: Ptr, head: Ptr, t: ElemType,
                                          cells: seq<Ptr>, frees: seq<Ptr>)
    requires Building(b0, top0, b, top, head, t, cells)
    ensures Without(b, FreeOrder(b, cells)) == b0
    ensures FreedExactly(frees, frees + FreeOrder(b, cells), top0, top)
  {
    FreeOrderNoDup(b, head, t, cells, |cells|);
    assert cells[..|cells|] == cells;
    assert (frees + FreeOrder(b, cells))[|frees|..] == FreeOrder(b, cells);
  }

  /** An empty list, or one fresh zeroed cell. */
  lemma {:induction false} BuildingStart(b0: Blocks, top0: Ptr, t: ElemType)
    requires 0 < top0 && forall p :: p in b0 ==> p < top0
    ensures Building(b0, top0, b0, top0, NULL, t, [])
    ensures Building(b0, top0, b0[top0 := Cell(NULL, Zero(t))], top0 + 1, top0, t, [top0])
  {
    var b := b0[top0 := Cell(NULL, Zero(t))];
    assert FreeOrder(b, [top0]) == [top0] by {
      assert [top0][..0] == [];
    }
  }

  /** Every cell of a list under construction was allocated since, and before `top`. */
  lemma {:induction false} BuildingCells(b0: Blocks, top0: Ptr, b: Blocks, top: Ptr, head: Ptr, t: ElemType,
                                         cells: seq<Ptr>, i: nat)
    requires Building(b0, top0, b, top, head, t, cells) && i < |cells|
    ensures top0 <= cells[i] < top && cells[i] !in b0
    ensures Payload(b, cells[i]) < top
  {
    InFreeOrder(b, cells, cells[i]);
    assert cells[i] in Piece(b, cells[i]);
    assert HasType(b, b[cells[i]].value, t);
  }

  /** The list is still owned when its last cell, so far without a string, gets a fresh value. */
  lemma {:induction false} StoreOwns(b: Blocks, top: Ptr, head: Ptr, t: ElemType, cells: seq<Ptr>, value: Value,
                                     b1: Blocks, b': Blocks)
    requires Owns(b, head, t, cells) && cells != []
    requires forall p :: p in b ==> p < top
    requires b1 == b || exists s :: b1 == b[top := Text(s)]
    requires HasType(b1, value, t) && (t.StrType? ==> value.p in {NULL, top})
    requires var c := cells[|cells| - 1]; b' == b1[c := Cell(b[c].next, value)]
    ensures Owns(b', head, t, cells)
    ensures forall i :: 0 <= i < |cells| - 1 ==> ReadCell(b', cells[i]) == ReadCell(b, cells[i])
    ensures forall i :: 0 <= i < |cells| - 1 ==> Payload(b', cells[i]) == Payload(b, cells[i])
  {
    var n := |cells| - 1;
    forall i | 0 <= i < n
      ensures cells[i] != cells[n] && b'[cells[i]] == b[cells[i]]
      ensures Payload(b, cells[i]) != top
      ensures HasType(b', b'[cells[i]].value, t)
      ensures ReadCell(b', cells[i]) == ReadCell(b, cells[i])
    {
      assert HasType(b, b[cells[i]].value, t);
      assert Payload(b, cells[i]) in b || Payload(b, cells[i]) == NULL;
    }
    assert HasType(b', value, t);
    assert Linked(b', head, cells) by {
      forall i | 0 <= i < |cells|
        ensures cells[i] in b' && b'[cells[i]].Cell? && b'[cells[i]].next == b[cells[i]].next
      {
        if i < n {
          assert b'[cells[i]] == b[cells[i]];
        }
      }
      assert Linked(b, head, cells);
    }
  }

  /** A fresh string in the last cell, which had none, is freed with the list. */
  lemma {:induction false} StoreFrees(b: Blocks, top: Ptr, cells: seq<Ptr>, text: bool, b': Blocks)
    requires cells != []
    requires forall i :: 0 <= i < |cells| - 1 ==> Payload(b', cells[i]) == Payload(b, cells[i])
    requires Payload(b, cells[|cells| - 1]) == NULL
    requires Payload(b', cells[|cells| - 1]) == if text then top else NULL
    requires top != NULL
    ensures forall p :: p in FreeOrder(b', cells) <==> p in FreeOrder(b, cells) || (text && p == top)
  {
    var n := |cells| - 1;
    var init := cells[..n];
    assert forall i :: 0 <= i < |init| ==> init[i] == cells[i];
    FreeOrderFrame(b, b', init);
    var c := cells[n];
    assert Piece(b, c) == [c];
    assert Piece(b', c) == if text then [top, c] else [c];
    assert FreeOrder(b, cells) == FreeOrder(b, init) + [c];
    assert FreeOrder(b', cells) == FreeOrder(b, init) + Piece(b', c);
  }

  /** Storing a freshly read value into the last cell, which was still zero. `text` says whether a
      string block was allocated for it at `top`. */
  lemma {:induction false} StoreValue(b0: Blocks, top0: Ptr, b: Blocks, top: Ptr, head: Ptr, t: ElemType,
                                      cells: seq<Ptr>, text: bool, s: string, value: Value, b': Blocks)
    requires Building(b0, top0, b, top, head, t, cells)
    requires cells != [] && b[cells[|cells| - 1]].value == Zero(t)
    requires text ==> t.StrType? && value == Str(top)
    requires !text ==> HasType(b, value, t) && (t.StrType? ==> value == Str(NULL))
    requires var c := cells[|cells| - 1];
             b' == (if text then b[top := Text(s)] else b)[c := Cell(b[c].next, value)]
    ensures Building(b0, top0, b', if text then top + 1 else top, head, t, cells)
    ensures forall i :: 0 <= i < |cells| - 1 ==> ReadCell(b', cells[i]) == ReadCell(b, cells[i])
    ensures ReadCell(b', cells[|cells| - 1]) == if text then QString(s) else ReadValue(b, value)
  {
    var n := |cells| - 1;
    var c := cells[n];
    BuildingCells(b0, top0, b, top, head, t, cells, n);
    StoreOwns(b, top, head, t, cells, value, if text then b[top := Text(s)] else b, b');
    StoreFrees(b, top, cells, text, b');
  }

  /** The cells keep their values, and the new one is linked behind the last, when one more zeroed
      cell, allocated at `top`, is appended. */
  lemma {:induction false} AppendLinked(b: Blocks, top: Ptr, head: Ptr, cells: seq<Ptr>, t: ElemType, b': Blocks)
    requires Linked(b, head, cells) && cells != [] && 0 < top
    requires forall p :: p in b ==> p < top
    requires var c := cells[|cells| - 1];
             b' == b[top := Cell(NULL, Zero(t))][c := Cell(top, b[c].value)]
    ensures Linked(b', head, cells + [top])
    ensures forall i :: 0 <= i < |cells| ==> cells[i] < top && b'[cells[i]].value == b[cells[i]].value
  {
    var n := |cells| - 1;
    forall i | 0 <= i < |cells|
      ensures cells[i] < top && b'[cells[i]].value == b[cells[i]].value
      ensures b'[cells[i]].next == if i < n then cells[i + 1] else top
    {
      if i < n {
        assert cells[i] != cells[n];
        LinkAt(b, head, cells, i);
      }
    }
    NoDupConcat(cells, [top]);
  }

  /** The list is still owned when one more zeroed cell, allocated at `top`, is linked last. */
  lemma {:induction false} AppendOwns(b: Blocks, top: Ptr, head: Ptr, t: ElemType, cells: seq<Ptr>, b': Blocks)
    requires Owns(b, head, t, cells) && cells != [] && 0 < top
    requires forall p :: p in b ==> p < top
    requires var c := cells[|cells| - 1];
             b' == b[top := Cell(NULL, Zero(t))][c := Cell(top, b[c].value)]
    ensures Owns(b', head, t, cells + [top])
    ensures forall i :: 0 <= i < |cells| ==> ReadCell(b', cells[i]) == ReadCell(b, cells[i])
    ensures forall i :: 0 <= i < |cells| ==> Payload(b', cells[i]) == Payload(b, cells[i])
  {
    AppendLinked(b, top, head, cells, t, b');
    forall i | 0 <= i < |cells|
      ensures HasType(b', b'[cells[i]].value, t)
      ensures ReadCell(b', cells[i]) == ReadCell(b, cells[i])
    {
      assert HasType(b, b[cells[i]].value, t);
    }
  }

  /** Linking one more zeroed cell, allocated at `top`, after the last one. */
  lemma {:induction false} AppendCell(b0: Blocks, top0: Ptr, b: Blocks, top: Ptr, head: Ptr, t: ElemType,
                                      cells: seq<Ptr>, b': Blocks)
    requires Building(b0, top0, b, top, head, t, cells)
    requires cells != []
    requires var c := cells[|cells| - 1];
             b' == b[top := Cell(NULL, Zero(t))][c := Cell(top, b[c].value)]
    ensures Building(b0, top0, b', top + 1, head, t, cells + [top])
    ensures forall i :: 0 <= i < |cells| ==> ReadCell(b', cells[i]) == ReadCell(b, cells[i])
    ensures b'[top].value == Zero(t)
  {
    BuildingCells(b0, top0, b, top, head, t, cells, |cells| - 1);
    AppendOwns(b, top, head, t, cells, b');
    assert (cells + [top])[..|cells|] == cells;
    assert FreeOrder(b', cells + [top]) == FreeOrder(b, cells) + [top] by {
      FreeOrderFrame(b, b', cells);
    }
  }

  // ----- taking a list apart with a dealloc visitor -----

  /** Halfway through a dealloc pass: the cells from number `i` on are as they were. */
  lemma {:induction false} DeallocSurvivor(b0: Blocks, head: Ptr, t: ElemType, cells: seq<Ptr>, i: nat)
    requires Owns(b0, head, t, cells) && i < |cells|
    ensures var b := Without(b0, FreeOrder(b0, cells[..i]));
            && cells[i] in b && b[cells[i]] == b0[cells[i]]
            && HasType(b, b[cells[i]].value, t)
  {
    assert HasType(b0, b0[cells[i]].value, t);
    forall p | p in Piece(b0, cells[i]) ensures p !in FreeOrder(b0, cells[..i]) {
      PrefixDisjoint(b0, head, t, cells, i, p);
    }
  }

  /** One turn of a dealloc pass: free the string if there is one, then the cell. */
  lemma {:induction false} DeallocTurn(b0: Blocks, head: Ptr, t: ElemType, cells: seq<Ptr>, i: nat, b': Blocks)
    requires Owns(b0, head, t, cells) && i < |cells|
    requires b' == Without(b0, FreeOrder(b0, cells[..i])) - {Payload(b0, cells[i])} - {cells[i]}
    requires NULL !in b0
    ensures b' == Without(b0, FreeOrder(b0, cells[..i + 1]))
    ensures FreeOrder(b0, cells[..i + 1]) == FreeOrder(b0, cells[..i]) + Piece(b0, cells[i])
  {
    assert cells[..i + 1][..i] == cells[..i];
  }
}
