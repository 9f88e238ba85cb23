/**
  The C heap the generated QAPI code works on. A block is reached only through the
  `blocks` map, so reading, writing or freeing a block that is not allocated is a
  verification error: use after free and double free cannot be written down.
  Addresses are never handed out twice, so a dangling pointer stays dangling.
 */
module CHeap {
  import opened Common

  /** The element types of the lists: a scalar, or a pointer to an owned string. */
  datatype ElemType = U64 | StrType

  datatype Value = Num(n: nat) | Str(p: Ptr)

  /** A list cell, laid out as `next` then `value`, or the bytes of a string. */
  datatype Block = Cell(next: Ptr, value: Value) | Text(s: string)

  type Blocks = map<Ptr, Block>

  /** What zero-filled memory reads as. */
  function Zero(t: ElemType): Value {
    if t.U64? then Num(0) else Str(NULL)
  }

  /** `s` has no repeated entry. */
  ghost predicate NoDup(s: seq<Ptr>) {
    forall i, j :: 0 <= i < j < |s| ==> s[i] != s[j]
  }

  /** The heap `b` after every address in `s` has been freed. */
  ghost function Without(b: Blocks, s: seq<Ptr>): Blocks {
    map p | p in b && p !in s :: b[p]
  }

  /** Between two free logs, exactly the addresses in [lo, hi) were freed, each of them once. */
  ghost predicate FreedExactly(before: seq<Ptr>, after: seq<Ptr>, lo: Ptr, hi: Ptr) {
    && |before| <= |after|
    && after[..|before|] == before
    && NoDup(after[|before|..])
    && forall p :: p in after[|before|..] <==> lo <= p < hi
  }

  class Heap {
    var blocks: Blocks
    /** Every address handed out so far is below `top`. */
    var top: Ptr
    /** Visitor objects created and not yet released. */
    var visitors: nat
    /** Every successful free, oldest first. */
    ghost var frees: seq<Ptr>

    ghost predicate Valid()
      reads this
    {
      0 < top && forall p :: p in blocks ==> 0 < p < top
    }

    constructor ()
      ensures Valid() && blocks == map[] && visitors == 0 && frees == []
    {
      blocks, top, visitors, frees := map[], 1, 0, [];
    }

    method AllocCell(t: ElemType) returns (p: Ptr)
      requires Valid()
      modifies this`blocks, this`top
      ensures Valid() && p == old(top) && top == p + 1
      ensures blocks == old(blocks)[p := Cell(NULL, Zero(t))]
    {
      p := top;
      blocks, top := blocks[p := Cell(NULL, Zero(t))], top + 1;
    }

    method AllocText(s: string) returns (p: Ptr)
      requires Valid()
      modifies this`blocks, this`top
      ensures Valid() && p == old(top) && top == p + 1
      ensures blocks == old(blocks)[p := Text(s)]
    {
      p := top;
      blocks, top := blocks[p := Text(s)], top + 1;
    }

    /** `g_free`: does nothing on NULL, and demands a live block otherwise. */
    method Free(p: Ptr)
      requires Valid()
      requires p == NULL || p in blocks
      modifies this`blocks, this`frees
      ensures Valid()
      ensures blocks == old(blocks) - {p}
      ensures frees == old(frees) + (if p == NULL then [] else [p])
    {
      if p != NULL {
        blocks := blocks - {p};
        frees := frees + [p];
      }
    }

    method SetNext(c: Ptr, next: Ptr)
      requires Valid() && c in blocks && blocks[c].Cell?
      modifies this`blocks
      ensures Valid() && blocks == old(blocks)[c := Cell(next, old(blocks)[c].value)]
    {
      blocks := blocks[c := Cell(next, blocks[c].value)];
    }

    method SetValue(c: Ptr, value: Value)
      requires Valid() && c in blocks && blocks[c].Cell?
      modifies this`blocks
      ensures Valid() && blocks == old(blocks)[c := Cell(old(blocks)[c].next, value)]
    {
      blocks := blocks[c := Cell(blocks[c].next, value)];
    }
  }
}
