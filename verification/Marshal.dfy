/**
  `qmp_marshal_block_latency_histogram_set`: parse a dictionary into a zeroed argument struct
  with one string and four optional lists, call the handler if everything parsed, and release
  whatever was built, however far parsing got.
 */
module Marshal {
  import opened Common
  import opened CHeap
  import opened Visitors
  import opened Lists
  import opened ListVisit

  /** The values of `has_x` and `x`. */
  datatype Field = Field(has: bool, head: Ptr)

  /** The list members of a struct filled with zeros. */
  const BLANK := [Field(false, NULL), Field(false, NULL), Field(false, NULL), Field(false, NULL)]

  /** `has_x` and `x` of an optional list member. */
  class OptionalList {
    var has: bool
    const slot: ListSlot

    function View(): Field
      reads this, slot
    {
      Field(has, slot.head)
    }

    constructor ()
      ensures !has && slot.head == NULL && fresh(slot)
    {
      has := false;
      slot := new ListSlot(NULL);
    }
  }

  /** The names of the optional members, in the order of the schema. */
  const NAMES := ["boundaries", "boundaries-read", "boundaries-write", "boundaries-flush"]

  /** The struct `q_obj_block_latency_histogram_set_arg`: `id`, then one `has_x`, `x` pair for each
      of the names above. */
  class HistogramArg {
    var id: Value
    const lists: seq<OptionalList>

    /** `arg = {0}`. */
    constructor ()
      ensures id == Str(NULL) && Distinct()
      ensures View() == BLANK
      ensures forall k :: 0 <= k < 4 ==> fresh(lists[k]) && fresh(lists[k].slot)
    {
      id := Str(NULL);
      var boundaries := new OptionalList();
      var boundariesRead := new OptionalList();
      var boundariesWrite := new OptionalList();
      var boundariesFlush := new OptionalList();
      lists := [boundaries, boundariesRead, boundariesWrite, boundariesFlush];
    }

    /** The members do not overlap in memory. */
    ghost predicate Distinct() {
      && |lists| == 4
      && (forall i, j :: 0 <= i < j < 4 ==> lists[i] != lists[j])
      && (forall i, j :: 0 <= i < j < 4 ==> lists[i].slot != lists[j].slot)
    }

    ghost function Slots(): set<ListSlot> {
      set f | f in lists :: f.slot
    }

    ghost function View(): seq<Field>
      requires |lists| == 4
      reads lists, Slots()
    {
      [lists[0].View(), lists[1].View(), lists[2].View(), lists[3].View()]
    }
  }

  /** What the handler is called with: `id`, and for each optional list its elements if present. */
  datatype HistogramCall = HistogramCall(id: string, lists: seq<Option<seq<QObject>>>)

  // ----- what the command means, in terms of the dictionary alone -----

  /** An optional member is absent, or a list of 64-bit numbers. */
  ghost predicate OptionalFits(dict: map<string, QObject>, name: string) {
    name in dict ==> dict[name].QList? && AllFit(dict[name].items, U64)
  }

  /** The list given for an optional member. */
  function ListMember(dict: map<string, QObject>, name: string): Option<seq<QObject>> {
    if name in dict && dict[name].QList? then Some(dict[name].items) else None
  }

  /** Visitor calls made for an optional member. */
  function Cost(dict: map<string, QObject>, name: string): nat {
    if ListMember(dict, name).Some? then |ListMember(dict, name).value| + 2 else 0
  }

  /** Visitor calls made for `id` and the first `k` optional members. */
  function CostUpTo(dict: map<string, QObject>, k: nat): nat
    requires k <= 4
  {
    if k == 0 then 1 else CostUpTo(dict, k - 1) + Cost(dict, NAMES[k - 1])
  }

  function MembersUpTo(k: nat): set<string>
    requires k <= 4
  {
    if k == 0 then {"id"} else MembersUpTo(k - 1) + {NAMES[k - 1]}
  }

  ghost predicate MembersFit(dict: map<string, QObject>, k: nat)
    requires k <= 4
  {
    && "id" in dict && dict["id"].QString?
    && forall j :: 0 <= j < k ==> OptionalFits(dict, NAMES[j])
  }

  /** The dictionary has the members the schema asks for, of the right types, and no others, and
      none of the visitor calls needed to parse it is made to fail. */
  ghost predicate Accepted(dict: map<string, QObject>, faults: set<nat>) {
    && MembersFit(dict, 4)
    && dict.Keys <= MembersUpTo(4)
    && NoFault(faults, 0, CostUpTo(dict, 4) + 2)
  }

  ghost function Decoded(dict: map<string, QObject>): HistogramCall
    requires MembersFit(dict, 4)
  {
    HistogramCall(dict["id"].s, seq(4, k requires 0 <= k < 4 => ListMember(dict, NAMES[k])))
  }

  // ----- the same, by name and position -----

  /** An optional member as the schema describes it. */
  ghost predicate NumbersOrAbsent(dict: map<string, QObject>, name: string) {
    name in dict ==>
      && dict[name].QList?
      && forall i :: 0 <= i < |dict[name].items| ==>
           dict[name].items[i].QNum? && 0 <= dict[name].items[i].n < 0x1_0000_0000_0000_0000
  }

  /** Visitor calls an optional member takes: start, one for each element, check. */
  function CallsFor(dict: map<string, QObject>, name: string): nat {
    if name in dict && dict[name].QList? then 2 + |dict[name].items| else 0
  }

  lemma {:induction false} FourNames()
    ensures |NAMES| == 4 && NAMES[0] == "boundaries" && NAMES[1] == "boundaries-read"
    ensures NAMES[2] == "boundaries-write" && NAMES[3] == "boundaries-flush"
  {
  }

  lemma {:induction false} OptionalByName(dict: map<string, QObject>, name: string)
    ensures OptionalFits(dict, name) <==> NumbersOrAbsent(dict, name)
    ensures Cost(dict, name) == CallsFor(dict, name)
  {
  }

  /** Which dictionaries are accepted, at which failing calls. */
  lemma {:induction false} AcceptedByName(dict: map<string, QObject>, faults: set<nat>)
    ensures Accepted(dict, faults)
            <==> && "id" in dict && dict["id"].QString?
                 && NumbersOrAbsent(dict, "boundaries") && NumbersOrAbsent(dict, "boundaries-read")
                 && NumbersOrAbsent(dict, "boundaries-write") && NumbersOrAbsent(dict, "boundaries-flush")
                 && dict.Keys <= {"id", "boundaries", "boundaries-read", "boundaries-write", "boundaries-flush"}
                 && forall f :: f in faults ==>
                      f >= 3 + CallsFor(dict, "boundaries") + CallsFor(dict, "boundaries-read")
                           + CallsFor(dict, "boundaries-write") + CallsFor(dict, "boundaries-flush")
  {
    FourNames();
    OptionalByName(dict, "boundaries");
    OptionalByName(dict, "boundaries-read");
    OptionalByName(dict, "boundaries-write");
    OptionalByName(dict, "boundaries-flush");
    hide Cost, CallsFor, OptionalFits, NumbersOrAbsent, NAMES;
    CostOfAll(dict);
    assert MembersFit(dict, 4)
           <==> "id" in dict && dict["id"].QString?
                && OptionalFits(dict, NAMES[0]) && OptionalFits(dict, NAMES[1])
                && OptionalFits(dict, NAMES[2]) && OptionalFits(dict, NAMES[3]);
  }

  lemma {:induction false} CostOfAll(dict: map<string, QObject>)
    ensures CostUpTo(dict, 4)
            == 1 + Cost(dict, NAMES[0]) + Cost(dict, NAMES[1]) + Cost(dict, NAMES[2]) + Cost(dict, NAMES[3])
    ensures MembersUpTo(4) == {"id", NAMES[0], NAMES[1], NAMES[2], NAMES[3]}
  {
    assert CostUpTo(dict, 0) == 1;
    assert CostUpTo(dict, 1) == CostUpTo(dict, 0) + Cost(dict, NAMES[0]);
    assert CostUpTo(dict, 2) == CostUpTo(dict, 1) + Cost(dict, NAMES[1]);
    assert MembersUpTo(2) == {"id", NAMES[0], NAMES[1]};
  }

  /** Which member of the dictionary reaches which argument of the handler. */
  lemma {:induction false} DecodedByName(dict: map<string, QObject>)
    requires MembersFit(dict, 4)
    ensures var d := Decoded(dict);
            && d.id == dict["id"].s && |d.lists| == 4
            && d.lists[0]
               == (if "boundaries" in dict && dict["boundaries"].QList?
                   then Some(dict["boundaries"].items) else None)
            && d.lists[1]
               == (if "boundaries-read" in dict && dict["boundaries-read"].QList?
                   then Some(dict["boundaries-read"].items) else None)
            && d.lists[2]
               == (if "boundaries-write" in dict && dict["boundaries-write"].QList?
                   then Some(dict["boundaries-write"].items) else None)
            && d.lists[3]
               == (if "boundaries-flush" in dict && dict["boundaries-flush"].QList?
                   then Some(dict["boundaries-flush"].items) else None)
  {
  }

  // ----- ownership while the struct is filled and emptied -----

  /** The heap and the free log before the struct was filled. */
  datatype Origin = Origin(b0: Blocks, top0: Ptr, frees0: seq<Ptr>)

  /** Since `o`, every address handed out is either in `order`, still allocated, or has been freed
      once; nothing older has been touched. */
  ghost predicate Pending(o: Origin, b: Blocks, top: Ptr, frees: seq<Ptr>, order: seq<Ptr>) {
    && 0 < o.top0 <= top
    && |o.frees0| <= |frees| && frees[..|o.frees0|] == o.frees0
    && NoDup(frees[|o.frees0|..] + order)
    && (forall p :: p in frees[|o.frees0|..] + order <==> o.top0 <= p < top)
    && (forall p :: p in o.b0 ==> p < o.top0)
    && (forall p :: p in b <==> p in o.b0 || p in order)
    && (forall p :: p in o.b0 ==> p in b && b[p] == o.b0[p])
  }

  lemma {:induction false} PendingStart(b: Blocks, top: Ptr, frees: seq<Ptr>)
    requires 0 < top && forall p :: p in b ==> p < top
    ensures Pending(Origin(b, top, frees), b, top, frees, [])
  {
  }

  /** New blocks at [top, top') join the pending ones. */
  lemma {:induction false} PendingGrown(o: Origin, b: Blocks, top: Ptr, frees: seq<Ptr>, order: seq<Ptr>,
                                        b': Blocks, top': Ptr, cells: seq<Ptr>)
    requires Pending(o, b, top, frees, order)
    requires top <= top' && NoDup(cells) && forall p :: p in cells <==> top <= p < top'
    requires forall p :: p in b ==> p in b' && b'[p] == b[p]
    requires forall p :: p in b' <==> p in b || top <= p < top'
    ensures Pending(o, b', top', frees, order + cells)
  {
    var since := frees[|o.frees0|..];
    assert since + (order + cells) == (since + order) + cells;
    NoDupConcat(since + order, cells);
  }

  lemma {:induction false} NoDupPrefix(s: seq<Ptr>, t: seq<Ptr>)
    requires NoDup(s + t)
    ensures NoDup(s)
  {
    forall i, j | 0 <= i < j < |s| ensures s[i] != s[j] {
      assert (s + t)[i] == s[i] && (s + t)[j] == s[j];
    }
  }

  lemma {:induction false} NoDupInsert(s: seq<Ptr>, more: seq<Ptr>, t: seq<Ptr>)
    requires NoDup(s + t) && NoDup(more)
    requires forall p :: p in more ==> p !in s && p !in t
    ensures NoDup(s + more + t)
  {
    NoDupPrefix(s, t);
    NoDupConcat(s, more);
    forall i, j | 0 <= i < j < |t| ensures t[i] != t[j] {
      assert (s + t)[|s| + i] == t[i] && (s + t)[|s| + j] == t[j];
    }
    forall i, j | 0 <= i < |s| && 0 <= j < |t| ensures s[i] != t[j] {
      assert (s + t)[i] == s[i] && (s + t)[|s| + j] == t[j];
    }
    NoDupConcat(s + more, t);
  }

  /** Blocks allocated and freed again leave the pending ones as they are. */
  lemma {:induction false} PendingAfterUndo(o: Origin, b: Blocks, top: Ptr, frees: seq<Ptr>, order: seq<Ptr>,
                                            top': Ptr, frees': seq<Ptr>)
    requires Pending(o, b, top, frees, order)
    requires top <= top' && FreedExactly(frees, frees', top, top')
    ensures Pending(o, b, top', frees', order)
  {
    var since, more := frees[|o.frees0|..], frees'[|frees|..];
    assert frees' == frees + more;
    assert frees'[|o.frees0|..] == since + more;
    assert forall p :: p in since || p in order <==> p in since + order;
    NoDupInsert(since, more, order);
    assert forall p :: p in since + more + order <==> p in since + order || p in more;
  }

  lemma {:induction false} PendingNoDup(o: Origin, b: Blocks, top: Ptr, frees: seq<Ptr>, order: seq<Ptr>)
    requires Pending(o, b, top, frees, order)
    ensures NoDup(order)
  {
    var since := frees[|o.frees0|..];
    forall i, j | 0 <= i < j < |order| ensures order[i] != order[j] {
      assert (since + order)[|since| + i] == order[i] && (since + order)[|since| + j] == order[j];
    }
  }

  /** Freeing the pending blocks in order restores the heap, every block freed once. */
  lemma {:induction false} PendingReleased(o: Origin, b: Blocks, top: Ptr, frees: seq<Ptr>, order: seq<Ptr>)
    requires Pending(o, b, top, frees, order)
    ensures Without(b, order) == o.b0
    ensures FreedExactly(o.frees0, frees + order, o.top0, top)
  {
    var all := frees[|o.frees0|..] + order;
    assert (frees + order)[|o.frees0|..] == all;
    forall k | 0 <= k < |order| ensures order[k] !in o.b0 {
      assert all[|frees| - |o.frees0| + k] == order[k] && order[k] in all;
    }
    assert (frees + order)[..|o.frees0|] == o.frees0;
  }

  lemma {:induction false} OwnsScalars(b: Blocks, head: Ptr, cells: seq<Ptr>)
    requires Owns(b, head, U64, cells)
    ensures FreeOrder(b, cells) == cells && NoDup(cells)
  {
    forall i | 0 <= i < |cells| ensures Payload(b, cells[i]) == NULL {
      assert HasType(b, b[cells[i]].value, U64);
    }
    ScalarFreeOrder(b, cells);
  }

  /** A list of scalars survives the freeing of blocks that are not its cells. */
  lemma {:induction false} OwnsShrunk(b: Blocks, gone: seq<Ptr>, head: Ptr, cells: seq<Ptr>)
    requires Owns(b, head, U64, cells)
    requires forall i :: 0 <= i < |cells| ==> cells[i] !in gone
    ensures Owns(Without(b, gone), head, U64, cells)
  {
  }

  /** `if (visit_optional(...)) { if (!visit_type_uint64List(...)) return false; }` */
  method VisitOptional(h: Heap, v: Visitor, name: string, f: OptionalList, ghost owned: seq<Ptr>,
                       ghost o: Origin, ghost order: seq<Ptr>)
    returns (ok: bool, ghost cells: seq<Ptr>)
    requires h.Valid() && v.Valid() && !v.kind.Output? && v.stack != []
    requires v.kind.Input? ==>
               && var top := v.stack[|v.stack| - 1];
               && top.InDict? && top.unvisited <= top.dict.Keys
               && Pending(o, h.blocks, h.top, h.frees, order)
               && f.slot.head == NULL
    requires v.kind.Dealloc? ==>
               Owns(h.blocks, f.slot.head, U64, owned) && (!f.has ==> owned == [])
    modifies h, v`calls, v`stack, v`result, f, f.slot
    ensures h.Valid() && v.Valid() && h.visitors == old(h.visitors)
    ensures Bracketed(old(v.stack), v.stack)
    ensures v.kind.Input? ==>
              && var dict := old(v.stack)[|old(v.stack)| - 1].dict;
              && var unvisited := old(v.stack)[|old(v.stack)| - 1].unvisited;
              && (ok <==> OptionalFits(dict, name) && NoFault(v.faults, old(v.calls), old(v.calls) + Cost(dict, name)))
              && (f.has <==> name in dict)
              && (ok ==> v.stack[|v.stack| - 1] == InDict(dict, unvisited - {name})
                         && v.calls == old(v.calls) + Cost(dict, name)
                         && (f.has ==> Some(Contents(h.blocks, cells)) == ListMember(dict, name)))
              && (!ok || !f.has ==> cells == [])
              && Owns(h.blocks, f.slot.head, U64, cells)
              && Pending(o, h.blocks, h.top, h.frees, order + cells)
              && (forall p :: p in old(h.blocks) ==> p in h.blocks && h.blocks[p] == old(h.blocks)[p])
    ensures v.kind.Dealloc? ==>
              && ok && v.stack == old(v.stack) && h.top == old(h.top)
              && h.blocks == Without(old(h.blocks), owned) && h.frees == old(h.frees) + owned
              && f.has == old(f.has) && f.slot.head == old(f.slot.head)
  {
    ok, cells := true, [];
    var has := v.Optional(name, f.has);
    f.has := has;
    ghost var b, top, frees := h.blocks, h.top, h.frees;
    if v.kind.Dealloc? {
      OwnsScalars(b, f.slot.head, owned);
    }
    if has {
      ok, cells := VisitTypeList(h, v, name, f.slot, U64, owned);
      if v.kind.Input? {
        if ok {
          OwnsScalars(h.blocks, f.slot.head, cells);
          PendingGrown(o, b, top, frees, order, h.blocks, h.top, cells);
        } else {
          cells := [];
          PendingAfterUndo(o, b, top, frees, order, h.top, h.frees);
        }
      }
    } else if v.kind.Input? {
      assert v.stack == v.stack[..|v.stack| - 1] + [v.stack[|v.stack| - 1]];
    }
    assert order + [] == order;
  }

  /** The cells of a struct filled with zeros. */
  const NO_CELLS: seq<seq<Ptr>> := [[], [], [], []]

  function IdOrder(id: Value): seq<Ptr> {
    if id.Str? && id.p != NULL then [id.p] else []
  }

  /** The cells of the first `k` lists. */
  function Flat(own: seq<seq<Ptr>>, k: nat): seq<Ptr>
    requires k <= |own|
  {
    if k == 0 then [] else Flat(own, k - 1) + own[k - 1]
  }

  /** The blocks of `id` and of the first `k` lists, in the order the dealloc pass frees them. */
  function Order(id: Value, own: seq<seq<Ptr>>, k: nat): seq<Ptr>
    requires k <= |own|
  {
    IdOrder(id) + Flat(own, k)
  }

  lemma {:induction false} FlatUpdate(own: seq<seq<Ptr>>, k: nat, cells: seq<Ptr>, n: nat)
    requires n <= k < |own|
    ensures Flat(own[k := cells], n) == Flat(own, n)
  {
    if n == 0 {
    } else {
      FlatUpdate(own, k, cells, n - 1);
    }
  }

  lemma {:induction false} FlatEmptyTail(own: seq<seq<Ptr>>, k: nat, n: nat)
    requires k <= n <= |own|
    requires forall j :: k <= j < n ==> own[j] == []
    ensures Flat(own, n) == Flat(own, k)
  {
    if k == n {
    } else {
      FlatEmptyTail(own, k, n - 1);
    }
  }

  lemma {:induction false} OrderPrefix(id: Value, own: seq<seq<Ptr>>, k: nat, n: nat)
    requires k <= n <= |own| && NoDup(Order(id, own, n))
    ensures NoDup(Order(id, own, k))
  {
    if k == n {
    } else {
      assert Order(id, own, n) == Order(id, own, n - 1) + own[n - 1];
      NoDupPrefix(Order(id, own, n - 1), own[n - 1]);
      OrderPrefix(id, own, k, n - 1);
    }
  }

  ghost predicate FieldOwns(b: Blocks, f: Field, cells: seq<Ptr>) {
    Owns(b, f.head, U64, cells) && (!f.has ==> cells == [])
  }

  /** The struct with string `id` and list members `fields` owns the lists `own`. */
  ghost predicate ArgOwns(b: Blocks, id: Value, fields: seq<Field>, own: seq<seq<Ptr>>) {
    && |fields| == 4 == |own|
    && HasType(b, id, StrType)
    && forall k :: 0 <= k < 4 ==> FieldOwns(b, fields[k], own[k])
  }

  /** A list member holds what the dictionary says. */
  ghost predicate FieldHolds(b: Blocks, f: Field, cells: seq<Ptr>, dict: map<string, QObject>, name: string) {
    && (f.has <==> name in dict)
    && (f.has ==> Some(Contents(b, cells)) == ListMember(dict, name))
  }

  /** The struct holds what the dictionary says, as far as the first `k` optional members. */
  ghost predicate ArgHolds(b: Blocks, id: Value, fields: seq<Field>, own: seq<seq<Ptr>>,
                           dict: map<string, QObject>, k: nat)
    requires k <= |fields| == 4 == |own|
  {
    && "id" in dict && ReadValue(b, id) == dict["id"]
    && forall j :: 0 <= j < k ==> FieldHolds(b, fields[j], own[j], dict, NAMES[j])
  }

  /** `visit_type_str(v, "id", &obj->id, errp)`. */
  method VisitId(h: Heap, v: Visitor, arg: HistogramArg, ghost o: Origin) returns (ok: bool)
    requires h.Valid() && v.Valid() && !v.kind.Output? && v.stack != []
    requires v.kind.Input? ==>
               && var top := v.stack[|v.stack| - 1];
               && top.InDict?
               && Pending(o, h.blocks, h.top, h.frees, [])
    requires v.kind.Dealloc? ==> HasType(h.blocks, arg.id, StrType)
    modifies h, v`calls, v`stack, v`result, arg`id
    ensures h.Valid() && v.Valid() && h.visitors == old(h.visitors)
    ensures Bracketed(old(v.stack), v.stack) && v.calls == old(v.calls) + 1
    ensures v.kind.Input? ==>
              && var dict := old(v.stack)[|old(v.stack)| - 1].dict;
              && var unvisited := old(v.stack)[|old(v.stack)| - 1].unvisited;
              && (ok <==> "id" in dict && dict["id"].QString? && old(v.calls) !in v.faults)
              && (ok ==> v.stack[|v.stack| - 1] == InDict(dict, unvisited - {"id"})
                         && ReadValue(h.blocks, arg.id) == dict["id"])
              && HasType(h.blocks, arg.id, StrType)
              && Pending(o, h.blocks, h.top, h.frees, IdOrder(arg.id))
    ensures v.kind.Dealloc? ==>
              && ok && v.stack == old(v.stack) && h.top == old(h.top)
              && h.blocks == Without(old(h.blocks), IdOrder(arg.id))
              && h.frees == old(h.frees) + IdOrder(arg.id) && arg.id == old(arg.id)
  {
    ghost var b, top, frees := h.blocks, h.top, h.frees;
    var value;
    ok, value := v.VisitElem(h, "id", StrType, arg.id);
    arg.id := value;
    if ok && v.kind.Input? {
      PendingGrown(o, b, top, frees, [], h.blocks, h.top, [top]);
      assert [] + [top] == [top];
    }
  }

  ghost predicate Grown(b: Blocks, b': Blocks) {
    forall p :: p in b ==> p in b' && b'[p] == b[p]
  }

  /** A list still to be released stays as it is while the earlier members are. */
  lemma {:induction false} FieldLeft(b: Blocks, gone: seq<Ptr>, f: Field, cells: seq<Ptr>)
    requires FieldOwns(b, f, cells)
    requires NoDup(gone + cells)
    ensures FieldOwns(Without(b, gone), f, cells)
  {
    var all := gone + cells;
    forall i, k | 0 <= i < |cells| && 0 <= k < |gone| ensures gone[k] != cells[i] {
      assert all[k] == gone[k] && all[|gone| + i] == cells[i];
    }
    OwnsShrunk(b, gone, f.head, cells);
  }

  /** An input visitor has filled `id` and the first `k` lists; the others are still zero. */
  ghost predicate Filled(o: Origin, dict: map<string, QObject>, k: nat, b: Blocks, top: Ptr, frees: seq<Ptr>,
                         id: Value, fields: seq<Field>, own: seq<seq<Ptr>>) {
    && k <= 4
    && ArgOwns(b, id, fields, own) && ArgHolds(b, id, fields, own, dict, k)
    && (forall j :: k <= j < 4 ==> own[j] == [] && fields[j].head == NULL)
    && Pending(o, b, top, frees, Order(id, own, 4))
  }

  lemma {:induction false} OrderWith(id: Value, own: seq<seq<Ptr>>, k: nat, cells: seq<Ptr>)
    requires k < 4 == |own|
    requires forall j :: k <= j < 4 ==> own[j] == []
    ensures Order(id, own[k := cells], 4) == Order(id, own, k) + cells
  {
    var own' := own[k := cells];
    FlatUpdate(own, k, cells, k);
    FlatEmptyTail(own', k + 1, 4);
    assert Flat(own', k + 1) == Flat(own, k) + cells;
  }

  /** The members already parsed keep their lists and contents when the heap grows. */
  lemma {:induction false} ArgKept(b: Blocks, b': Blocks, id: Value, fields: seq<Field>, own: seq<seq<Ptr>>,
                                   k: nat, f: Field, cells: seq<Ptr>)
    requires k < 4 && ArgOwns(b, id, fields, own) && Grown(b, b') && FieldOwns(b', f, cells)
    ensures ArgOwns(b', id, fields[k := f], own[k := cells])
    ensures forall j :: 0 <= j < k ==> Contents(b', own[j]) == Contents(b, own[j])
    ensures ReadValue(b', id) == ReadValue(b, id)
  {
  }

  lemma {:induction false} FillMemberStart(o: Origin, dict: map<string, QObject>, k: nat, b: Blocks, top: Ptr,
                                           frees: seq<Ptr>, id: Value, fields: seq<Field>, own: seq<seq<Ptr>>)
    requires k < 4 == |own| && Filled(o, dict, k, b, top, frees, id, fields, own)
    ensures Pending(o, b, top, frees, Order(id, own, k)) && fields[k].head == NULL
  {
    FlatEmptyTail(own, k, 4);
  }

  /** Member `k` has been visited: `f` is its new value, `cells` its list, empty if `ok` is false. */
  lemma {:induction false} FillMember(o: Origin, dict: map<string, QObject>, k: nat, b: Blocks, top: Ptr,
                                      frees: seq<Ptr>, id: Value, fields: seq<Field>, own: seq<seq<Ptr>>,
                                      ok: bool, b': Blocks, top': Ptr, frees': seq<Ptr>, f: Field, cells: seq<Ptr>)
    requires k < 4 && Filled(o, dict, k, b, top, frees, id, fields, own)
    requires Grown(b, b') && FieldOwns(b', f, cells)
    requires ok ==> FieldHolds(b', f, cells, dict, NAMES[k])
    requires Pending(o, b', top', frees', Order(id, own, k) + cells)
    ensures ArgOwns(b', id, fields[k := f], own[k := cells])
    ensures Pending(o, b', top', frees', Order(id, own[k := cells], 4))
    ensures ok ==> Filled(o, dict, k + 1, b', top', frees', id, fields[k := f], own[k := cells])
  {
    OrderWith(id, own, k, cells);
    ArgKept(b, b', id, fields, own, k, f, cells);
  }

  /** A dealloc visitor has freed `id` and the first `k` lists; the others are still there. */
  ghost predicate Released(b0: Blocks, frees0: seq<Ptr>, k: nat, b: Blocks, frees: seq<Ptr>,
                           id: Value, fields: seq<Field>, own: seq<seq<Ptr>>) {
    && k <= 4
    && ArgOwns(b0, id, fields, own) && NoDup(Order(id, own, 4))
    && b == Without(b0, Order(id, own, k))
    && frees == frees0 + Order(id, own, k)
  }

  lemma {:induction false} ReleasedAll(b0: Blocks, frees0: seq<Ptr>, b: Blocks, frees: seq<Ptr>,
                                       id: Value, fields: seq<Field>, own: seq<seq<Ptr>>)
    requires |own| == 4 && Released(b0, frees0, 4, b, frees, id, fields, own)
    ensures b == Without(b0, Order(id, own, 4)) && frees == frees0 + Order(id, own, 4)
  {
  }

  lemma {:induction false} EmptyMember(b0: Blocks, frees0: seq<Ptr>, k: nat, b: Blocks, frees: seq<Ptr>,
                                       id: Value, fields: seq<Field>, own: seq<seq<Ptr>>)
    requires k < 4 && Released(b0, frees0, k, b, frees, id, fields, own)
    ensures FieldOwns(b, fields[k], own[k])
    ensures Released(b0, frees0, k + 1, Without(b, own[k]), frees + own[k], id, fields, own)
  {
    OrderPrefix(id, own, k + 1, 4);
    assert Order(id, own, k + 1) == Order(id, own, k) + own[k];
    FieldLeft(b0, Order(id, own, k), fields[k], own[k]);
  }

  /** What a dealloc pass began with. */
  datatype Release = Release(b: Blocks, frees: seq<Ptr>)

  /** `VisitOptional` on list member number `k`, which leaves the other members alone. */
  method VisitListAt(h: Heap, v: Visitor, arg: HistogramArg, k: nat, ghost owned: seq<Ptr>,
                     ghost o: Origin, ghost order: seq<Ptr>)
    returns (ok: bool, ghost cells: seq<Ptr>)
    requires h.Valid() && v.Valid() && !v.kind.Output? && v.stack != []
    requires arg.Distinct() && k < 4
    requires v.kind.Input? ==>
               && var top := v.stack[|v.stack| - 1];
               && top.InDict? && top.unvisited <= top.dict.Keys
               && Pending(o, h.blocks, h.top, h.frees, order)
               && arg.View()[k].head == NULL
    requires v.kind.Dealloc? ==> FieldOwns(h.blocks, arg.View()[k], owned)
    modifies h, v`calls, v`stack, v`result, arg.lists[k], arg.lists[k].slot
    ensures h.Valid() && v.Valid() && h.visitors == old(h.visitors)
    ensures Bracketed(old(v.stack), v.stack)
    ensures arg.View() == old(arg.View())[k := arg.lists[k].View()]
    ensures v.kind.Input? ==>
              && var dict := old(v.stack)[|old(v.stack)| - 1].dict;
              && var unvisited := old(v.stack)[|old(v.stack)| - 1].unvisited;
              && (ok <==> OptionalFits(dict, NAMES[k])
                          && NoFault(v.faults, old(v.calls), old(v.calls) + Cost(dict, NAMES[k])))
              && (ok ==> v.stack[|v.stack| - 1] == InDict(dict, unvisited - {NAMES[k]})
                         && v.calls == old(v.calls) + Cost(dict, NAMES[k])
                         && FieldHolds(h.blocks, arg.lists[k].View(), cells, dict, NAMES[k]))
              && FieldOwns(h.blocks, arg.lists[k].View(), cells)
              && Pending(o, h.blocks, h.top, h.frees, order + cells)
              && Grown(old(h.blocks), h.blocks)
    ensures v.kind.Dealloc? ==>
              && ok && v.stack == old(v.stack) && h.top == old(h.top)
              && h.blocks == Without(old(h.blocks), owned) && h.frees == old(h.frees) + owned
              && arg.View() == old(arg.View())
  {
    ok, cells := VisitOptional(h, v, NAMES[k], arg.lists[k], owned, o, order);
  }

  /** The visits of `id` and of the first list members, chained. */
  ghost predicate Through(dict: map<string, QObject>, k: nat, faults: set<nat>, first: nat)
    requires k <= 4
  {
    MembersFit(dict, k) && NoFault(faults, first, first + CostUpTo(dict, k))
  }

  lemma {:induction false} ThroughId(dict: map<string, QObject>, faults: set<nat>, first: nat)
    ensures Through(dict, 0, faults, first) <==> "id" in dict && dict["id"].QString? && first !in faults
    ensures CostUpTo(dict, 0) == 1 && MembersUpTo(0) == {"id"}
  {
  }

  lemma {:induction false} ThroughNext(dict: map<string, QObject>, k: nat, faults: set<nat>, first: nat)
    requires k < 4
    ensures Through(dict, k + 1, faults, first) <==>
              && Through(dict, k, faults, first)
              && OptionalFits(dict, NAMES[k])
              && NoFault(faults, first + CostUpTo(dict, k), first + CostUpTo(dict, k) + Cost(dict, NAMES[k]))
    ensures CostUpTo(dict, k + 1) == CostUpTo(dict, k) + Cost(dict, NAMES[k])
    ensures MembersUpTo(k + 1) == MembersUpTo(k) + {NAMES[k]}
  {
  }

  lemma {:induction false} ThroughMonotone(dict: map<string, QObject>, k: nat, faults: set<nat>, first: nat)
    requires k <= 4 && !Through(dict, k, faults, first)
    ensures !Through(dict, 4, faults, first)
    decreases 4 - k
  {
    if k < 4 {
      ThroughNext(dict, k, faults, first);
      ThroughMonotone(dict, k + 1, faults, first);
    }
  }

  /** An input visitor that started with call number `first` has been through `id` and the first `k`
      list members; `frame` is its innermost level. */
  ghost predicate At(dict: map<string, QObject>, k: nat, faults: set<nat>, first: nat, calls: nat, frame: Frame)
    requires k <= 4
  {
    && Through(dict, k, faults, first)
    && calls == first + CostUpTo(dict, k)
    && frame == InDict(dict, dict.Keys - MembersUpTo(k))
  }

  /** Optional member number `k`. */
  method VisitMember(h: Heap, v: Visitor, arg: HistogramArg, k: nat, ghost own: seq<seq<Ptr>>,
                     ghost o: Origin, ghost dict: map<string, QObject>, ghost first: nat, ghost r: Release)
    returns (ok: bool, ghost own': seq<seq<Ptr>>)
    requires h.Valid() && v.Valid() && !v.kind.Output? && v.stack != []
    requires arg.Distinct() && k < 4 == |own|
    requires v.kind.Input? ==>
               && At(dict, k, v.faults, first, v.calls, v.stack[|v.stack| - 1])
               && Filled(o, dict, k, h.blocks, h.top, h.frees, arg.id, arg.View(), own)
    requires v.kind.Dealloc? ==>
               Released(r.b, r.frees, k, h.blocks, h.frees, arg.id, arg.View(), own)
    modifies h, v`calls, v`stack, v`result, arg.lists, arg.Slots()
    ensures h.Valid() && v.Valid() && h.visitors == old(h.visitors)
    ensures Bracketed(old(v.stack), v.stack) && |own'| == 4
    ensures v.kind.Input? ==>
              && (if ok then
                    && At(dict, k + 1, v.faults, first, v.calls, v.stack[|v.stack| - 1])
                    && Filled(o, dict, k + 1, h.blocks, h.top, h.frees, arg.id, arg.View(), own')
                  else
                    !Through(dict, 4, v.faults, first))
              && ArgOwns(h.blocks, arg.id, arg.View(), own')
              && Pending(o, h.blocks, h.top, h.frees, Order(arg.id, own', 4))
    ensures v.kind.Dealloc? ==>
              && ok && own' == own && v.stack == old(v.stack) && h.top == old(h.top)
              && Released(r.b, r.frees, k + 1, h.blocks, h.frees, arg.id, arg.View(), own)
  {
    hide Filled, Released, Pending, ArgOwns, FieldOwns, FieldHolds, Order, Grown, OptionalFits, Cost, NoFault, Without,
         Through, CostUpTo, MembersUpTo;
    ghost var b, top, frees, fields := h.blocks, h.top, h.frees, arg.View();
    ghost var before := Order(arg.id, own, k);
    if v.kind.Dealloc? {
      EmptyMember(r.b, r.frees, k, b, frees, arg.id, fields, own);
    } else {
      FillMemberStart(o, dict, k, b, top, frees, arg.id, fields, own);
      ThroughNext(dict, k, v.faults, first);
    }
    ghost var cells;
    ok, cells := VisitListAt(h, v, arg, k, own[k], o, before);
    own' := own;
    if v.kind.Input? {
      own' := own[k := cells];
      FillMember(o, dict, k, b, top, frees, arg.id, fields, own,
                 ok, h.blocks, h.top, h.frees, arg.lists[k].View(), cells);
      if !ok {
        ThroughMonotone(dict, k + 1, v.faults, first);
      }
    }
  }

  /** With `id` read and no list visited yet. */
  lemma {:induction false} FillStart(o: Origin, dict: map<string, QObject>, b: Blocks, top: Ptr, frees: seq<Ptr>,
                                     id: Value, fields: seq<Field>, read: bool)
    requires Pending(o, b, top, frees, IdOrder(id)) && HasType(b, id, StrType)
    requires fields == BLANK
    requires read ==> "id" in dict && ReadValue(b, id) == dict["id"]
    ensures var own := NO_CELLS;
            && |own| == 4
            && ArgOwns(b, id, fields, own) && Pending(o, b, top, frees, Order(id, own, 4))
            && (read ==> Filled(o, dict, 0, b, top, frees, id, fields, own))
  {
    var own := NO_CELLS;
    FlatEmptyTail(own, 0, 4);
    assert Order(id, own, 4) == IdOrder(id);
  }

  /** After `id` has been released. */
  lemma {:induction false} EmptyStart(b0: Blocks, frees0: seq<Ptr>, id: Value, fields: seq<Field>, own: seq<seq<Ptr>>)
    requires ArgOwns(b0, id, fields, own) && NoDup(Order(id, own, 4))
    ensures Released(b0, frees0, 0, Without(b0, IdOrder(id)), frees0 + IdOrder(id), id, fields, own)
    ensures HasType(b0, id, StrType)
  {
    assert Order(id, own, 0) == IdOrder(id);
  }

  /** `visit_type_q_obj_block_latency_histogram_set_arg_members`: an input visitor fills the struct
      as far as it gets, a dealloc visitor releases what is there. */
  method VisitMembers(h: Heap, v: Visitor, arg: HistogramArg, ghost own: seq<seq<Ptr>>, ghost o: Origin)
    returns (ok: bool, ghost own': seq<seq<Ptr>>)
    requires h.Valid() && v.Valid() && !v.kind.Output? && v.stack != [] && arg.Distinct() && |own| == 4
    requires v.kind.Input? ==>
               && var top := v.stack[|v.stack| - 1];
               && top.InDict? && top.unvisited == top.dict.Keys
               && Pending(o, h.blocks, h.top, h.frees, [])
               && arg.id == Str(NULL) && own == NO_CELLS
               && arg.View() == BLANK
    requires v.kind.Dealloc? ==>
               ArgOwns(h.blocks, arg.id, arg.View(), own) && NoDup(Order(arg.id, own, 4))
    modifies h, v`calls, v`stack, v`result, arg`id, arg.lists, arg.Slots()
    ensures h.Valid() && v.Valid() && h.visitors == old(h.visitors)
    ensures Bracketed(old(v.stack), v.stack) && |own'| == 4
    ensures v.kind.Input? ==>
              && var dict := old(v.stack)[|old(v.stack)| - 1].dict;
              && (ok <==> Through(dict, 4, v.faults, old(v.calls)))
              && (ok ==> && At(dict, 4, v.faults, old(v.calls), v.calls, v.stack[|v.stack| - 1])
                         && Filled(o, dict, 4, h.blocks, h.top, h.frees, arg.id, arg.View(), own'))
              && ArgOwns(h.blocks, arg.id, arg.View(), own')
              && Pending(o, h.blocks, h.top, h.frees, Order(arg.id, own', 4))
    ensures v.kind.Dealloc? ==>
              && ok && v.stack == old(v.stack) && h.top == old(h.top) && arg.id == old(arg.id)
              && Released(old(h.blocks), old(h.frees), 4, h.blocks, h.frees, arg.id, arg.View(), own)
  {
    hide Filled, Released, Pending, ArgOwns, Order, Through, IdOrder, Without, HasType, CostUpTo, MembersUpTo;
    ghost var r := Release(h.blocks, h.frees);
    ghost var first := v.calls;
    ghost var dict := if v.kind.Input? then v.stack[|v.stack| - 1].dict else map[];
    if v.kind.Dealloc? {
      EmptyStart(r.b, r.frees, arg.id, arg.View(), own);
    }
    own' := own;
    ok := VisitId(h, v, arg, o);
    ThroughId(dict, v.faults, first);
    if v.kind.Input? {
      FillStart(o, dict, h.blocks, h.top, h.frees, arg.id, arg.View(), ok);
    }
    if !ok {
      ThroughMonotone(dict, 0, v.faults, first);
      return;
    }
    ok, own' := VisitMember(h, v, arg, 0, own', o, dict, first, r);
    if !ok {
      return;
    }
    ok, own' := VisitMember(h, v, arg, 1, own', o, dict, first, r);
    if !ok {
      return;
    }
    ok, own' := VisitMember(h, v, arg, 2, own', o, dict, first, r);
    if !ok {
      return;
    }
    ok, own' := VisitMember(h, v, arg, 3, own', o, dict, first, r);
  }

  /** What a struct says to whoever reads it. */
  ghost function Seen(b: Blocks, id: Value, fields: seq<Field>, own: seq<seq<Ptr>>): HistogramCall
    requires |fields| == 4 == |own|
  {
    var q := ReadValue(b, id);
    HistogramCall(if q.QString? then q.s else "",
                  seq(4, k requires 0 <= k < 4 => if fields[k].has then Some(Contents(b, own[k])) else None))
  }

  /** A completely filled struct says what the dictionary says. */
  lemma {:induction false} SeenAsDecoded(o: Origin, dict: map<string, QObject>, b: Blocks, top: Ptr, frees: seq<Ptr>,
                                         id: Value, fields: seq<Field>, own: seq<seq<Ptr>>)
    requires Filled(o, dict, 4, b, top, frees, id, fields, own) && MembersFit(dict, 4)
    ensures |own| == 4
    ensures Seen(b, id, fields, own) == Decoded(dict)
  {
  }

  /** `qmp_block_latency_histogram_set`, of which only the calls made and the verdict matter. */
  class Handler {
    const fails: bool
    ghost var log: seq<HistogramCall>

    constructor (fails: bool)
      ensures this.fails == fails && log == []
    {
      this.fails, log := fails, [];
    }

    method Invoke(h: Heap, arg: HistogramArg, ghost own: seq<seq<Ptr>>) returns (err: bool)
      requires |arg.lists| == 4 == |own| && ArgOwns(h.blocks, arg.id, arg.View(), own)
      modifies this`log
      ensures err == fails
      ensures log == old(log) + [Seen(h.blocks, arg.id, arg.View(), own)]
    {
      log := log + [Seen(h.blocks, arg.id, arg.View(), own)];
      err := fails;
    }
  }

  /** The calls that decide whether a dictionary is accepted. */
  lemma {:induction false} AcceptedStepwise(dict: map<string, QObject>, faults: set<nat>)
    ensures Accepted(dict, faults) ==> 0 !in faults && Through(dict, 4, faults, 1)
  {
  }

  /** Once the members have been visited, only `visit_check_struct` can still object. */
  lemma {:induction false} AcceptedByCheck(dict: map<string, QObject>, faults: set<nat>, calls: nat, frame: Frame)
    requires At(dict, 4, faults, 1, calls, frame) && 0 !in faults
    ensures frame.InDict?
    ensures Accepted(dict, faults) <==> calls !in faults && frame.unvisited == {}
    ensures MembersFit(dict, 4)
  {
  }

  lemma {:induction false} PendingAtStart(h: Heap)
    requires h.Valid()
    ensures Pending(Origin(h.blocks, h.top, h.frees), h.blocks, h.top, h.frees, [])
  {
    PendingStart(h.blocks, h.top, h.frees);
  }

  /** The struct visit of the marshaller: start, members, check, end. */
  method VisitArg(h: Heap, v: Visitor, arg: HistogramArg, ghost o: Origin)
    returns (ok: bool, ghost own: seq<seq<Ptr>>)
    requires h.Valid() && v.Valid() && v.kind.Input? && v.root.QDict? && v.calls == 0 && v.stack == []
    requires arg.Distinct() && arg.id == Str(NULL) && o == Origin(h.blocks, h.top, h.frees)
    requires arg.View() == BLANK
    modifies h, v`calls, v`stack, v`result, arg`id, arg.lists, arg.Slots()
    ensures h.Valid() && v.Valid() && v.stack == [] && h.visitors == old(h.visitors) && |own| == 4
    ensures ok <==> Accepted(v.root.members, v.faults)
    ensures ok ==> Filled(o, v.root.members, 4, h.blocks, h.top, h.frees, arg.id, arg.View(), own)
    ensures ArgOwns(h.blocks, arg.id, arg.View(), own)
    ensures Pending(o, h.blocks, h.top, h.frees, Order(arg.id, own, 4))
  {
    hide Filled, Released, Pending, ArgOwns, Order, Through, At, Accepted, CostUpTo, MembersUpTo, MembersFit,
         NO_CELLS, BLANK, HistogramArg.View, Heap.Valid, Visitor.Valid;
    ghost var dict := v.root.members;
    PendingAtStart(h);
    AcceptedStepwise(dict, v.faults);
    FillStart(o, dict, h.blocks, h.top, h.frees, arg.id, arg.View(), false);
    own := NO_CELLS;
    ok := v.StartStruct("");
    if !ok {
      return;
    }
    ok, own := VisitMembers(h, v, arg, own, o);
    if ok {
      AcceptedByCheck(dict, v.faults, v.calls, v.stack[|v.stack| - 1]);
      ok := v.CheckStruct();
    }
    v.EndStruct();
  }

  /** The part of the marshaller above `out:`. */
  method Parse(h: Heap, v: Visitor, arg: HistogramArg, handler: Handler, ghost o: Origin)
    returns (err: bool, ghost own: seq<seq<Ptr>>)
    requires h.Valid() && v.Valid() && v.kind.Input? && v.root.QDict? && v.calls == 0 && v.stack == []
    requires arg.Distinct() && arg.id == Str(NULL) && o == Origin(h.blocks, h.top, h.frees)
    requires arg.View() == BLANK
    modifies h, v`calls, v`stack, v`result, arg`id, arg.lists, arg.Slots(), handler`log
    ensures h.Valid() && v.Valid() && v.stack == [] && h.visitors == old(h.visitors) && |own| == 4
    ensures ArgOwns(h.blocks, arg.id, arg.View(), own)
    ensures Pending(o, h.blocks, h.top, h.frees, Order(arg.id, own, 4))
    ensures var dict := v.root.members;
            if Accepted(dict, v.faults) then
              handler.log == old(handler.log) + [Decoded(dict)] && err == handler.fails
            else
              handler.log == old(handler.log) && err
  {
    hide Filled, Pending, ArgOwns, Order, NoFault, Seen, Decoded, MembersFit;
    var ok;
    ok, own := VisitArg(h, v, arg, o);
    if !ok {
      return true, own;
    }
    SeenAsDecoded(o, v.root.members, h.blocks, h.top, h.frees, arg.id, arg.View(), own);
    err := handler.Invoke(h, arg, own);
  }

  /** The part of the marshaller below `out:`, after the input visitor is gone. */
  method ReleaseArg(h: Heap, arg: HistogramArg, ghost own: seq<seq<Ptr>>, ghost o: Origin)
    requires h.Valid() && arg.Distinct() && |own| == 4
    requires ArgOwns(h.blocks, arg.id, arg.View(), own)
    requires Pending(o, h.blocks, h.top, h.frees, Order(arg.id, own, 4))
    modifies h, arg`id, arg.lists, arg.Slots()
    ensures h.Valid() && h.visitors == old(h.visitors) && h.top == old(h.top)
    ensures h.blocks == o.b0 && FreedExactly(o.frees0, h.frees, o.top0, h.top)
  {
    hide Pending, ArgOwns, Order, FreedExactly, Released, Without, NoDup;
    PendingReleased(o, h.blocks, h.top, h.frees, Order(arg.id, own, 4));
    PendingNoDup(o, h.blocks, h.top, h.frees, Order(arg.id, own, 4));
    var v := new Visitor(h, Dealloc, QNull, {});
    var ok := v.StartStruct("");
    ghost var own';
    ok, own' := VisitMembers(h, v, arg, own, o);
    ReleasedAll(old(h.blocks), old(h.frees), h.blocks, h.frees, arg.id, arg.View(), own);
    v.EndStruct();
    v.Release(h);
  }

  /** `qmp_marshal_block_latency_histogram_set`. Whatever the dictionary and wherever parsing fails,
      the heap afterwards is the heap before, every block allocated meanwhile has been freed exactly
      once, and no visitor is left. The handler is called once, with what the dictionary says, if the
      whole dictionary was accepted, and not at all otherwise. */
  method QmpMarshal(h: Heap, args: map<string, QObject>, faults: set<nat>, handler: Handler) returns (err: bool)
    requires h.Valid()
    modifies h, handler`log
    ensures h.Valid() && h.blocks == old(h.blocks) && h.visitors == old(h.visitors)
    ensures FreedExactly(old(h.frees), h.frees, old(h.top), h.top)
    ensures handler.log == old(handler.log) + if Accepted(args, faults) then [Decoded(args)] else []
    ensures err <==> !Accepted(args, faults) || handler.fails
  {
    hide Pending, ArgOwns, Order, FreedExactly, Accepted, Decoded;
    ghost var o := Origin(h.blocks, h.top, h.frees);
    var arg := new HistogramArg();
    var v := new Visitor(h, Input, QDict(args), faults);
    ghost var own;
    err, own := Parse(h, v, arg, handler, o);
    v.Release(h);
    ReleaseArg(h, arg, own, o);
  }
}
