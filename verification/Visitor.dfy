/**
  The visitor operations the generated code calls, as one reference visitor. The
  generated code is verified against the contracts of these methods only. A visitor
  carries a set of call numbers at which it fails for reasons of its own, so every
  theorem that ranges over visitors ranges over every point of failure; a dealloc
  visitor never fails.
 */
module Visitors {
  import opened Common
  import opened CHeap

  datatype QObject =
    | QNull
    | QNum(n: int)
    | QString(s: string)
    | QList(items: seq<QObject>)
    | QDict(members: map<string, QObject>)

  datatype Kind = Input | Output | Dealloc

  /** One level of nesting, as the three kinds of visitor keep it. */
  datatype Frame =
    | InList(rest: seq<QObject>)
    | InDict(dict: map<string, QObject>, unvisited: set<string>)
    | OutList(done: seq<QObject>)
    | Plain

  /** A variable of type `XList *` whose address is passed to a visitor. */
  class ListSlot {
    var head: Ptr
    constructor (p: Ptr)
      ensures head == p
    {
      head := p;
    }
  }

  /** An input element of type `t`. */
  predicate Fits(q: QObject, t: ElemType) {
    match t
    case U64 => q.QNum? && 0 <= q.n < TWO_TO_64
    case StrType => q.QString?
  }

  /** `v` may stand in a `value` field of type `t`: a string is absent or a live text block. */
  ghost predicate HasType(b: Blocks, v: Value, t: ElemType) {
    match t
    case U64 => v.Num? && v.n < TWO_TO_64
    case StrType => v.Str? && (v.p == NULL || (v.p in b && b[v.p].Text?))
  }

  /** What an output visitor writes for a value; an absent string is written as the empty one. */
  function ReadValue(b: Blocks, v: Value): QObject {
    match v
    case Num(n) => QNum(n)
    case Str(p) =>
      if p == NULL then QString("")
      else if p in b && b[p].Text? then QString(b[p].s)
      else QNull
  }

  /** The object an input visitor will read next under `name`, if there is one. */
  function Peek(root: QObject, stack: seq<Frame>, name: string): Option<QObject> {
    if stack == [] then Some(root)
    else match stack[|stack| - 1]
      case InList(rest) => if rest == [] then None else Some(rest[0])
      case InDict(dict, _) => if name in dict then Some(dict[name]) else None
      case _ => None
  }

  /** The stack after the object under `name` has been read. */
  function Consumed(stack: seq<Frame>, name: string): seq<Frame> {
    if stack == [] then stack
    else match stack[|stack| - 1]
      case InList(rest) => stack[..|stack| - 1] + [InList(if rest == [] then rest else rest[1..])]
      case InDict(dict, unvisited) => stack[..|stack| - 1] + [InDict(dict, unvisited - {name})]
      case _ => stack
  }

  /** The stack after an output visitor has added `q` to the list it is writing. */
  function Attached(stack: seq<Frame>, q: QObject): seq<Frame> {
    if stack == [] then stack
    else match stack[|stack| - 1]
      case OutList(done) => stack[..|stack| - 1] + [OutList(done + [q])]
      case _ => stack
  }

  class Visitor {
    const kind: Kind
    /** What an input visitor reads. */
    const root: QObject
    /** The numbers of the calls that fail whatever they are given. */
    const faults: set<nat>
    /** Fallible calls made so far. */
    var calls: nat
    var stack: seq<Frame>
    /** What an output visitor has written at top level. */
    var result: Option<QObject>
    /** False once `visit_free` has released the visitor. */
    var live: bool

    ghost predicate Valid()
      reads this
    {
      live && (kind.Dealloc? ==> faults == {})
    }

    constructor (h: Heap, kind: Kind, root: QObject, faults: set<nat>)
      requires kind.Dealloc? ==> faults == {}
      modifies h`visitors
      ensures Valid() && this.kind == kind && this.root == root && this.faults == faults
      ensures calls == 0 && stack == [] && result == None
      ensures h.visitors == old(h.visitors) + 1
    {
      this.kind, this.root, this.faults := kind, root, faults;
      calls, stack, result, live := 0, [], None, true;
      new;
      h.visitors := h.visitors + 1;
    }

    /** `visit_free`. */
    method Release(h: Heap)
      requires Valid() && 0 < h.visitors
      modifies this`live, h`visitors
      ensures !live && h.visitors == old(h.visitors) - 1
    {
      live := false;
      h.visitors := h.visitors - 1;
    }

    /** `visit_start_list`: an input visitor leaves NULL in `obj` when it fails. */
    method StartList(h: Heap, name: string, obj: ListSlot, t: ElemType) returns (ok: bool)
      requires Valid() && h.Valid()
      modifies this`calls, this`stack, h`blocks, h`top, obj
      ensures Valid() && h.Valid() && calls == old(calls) + 1
      ensures match kind
              case Input =>
                var q := Peek(root, old(stack), name);
                && (ok <==> old(calls) !in faults && q.Some? && q.value.QList?)
                && stack == Consumed(old(stack), name) + (if ok then [InList(q.value.items)] else [])
                && (if ok && q.value.items != [] then
                      && obj.head == old(h.top) && h.top == old(h.top) + 1
                      && h.blocks == old(h.blocks)[obj.head := Cell(NULL, Zero(t))]
                    else
                      obj.head == NULL && h.top == old(h.top) && h.blocks == old(h.blocks))
              case Output =>
                && (ok <==> old(calls) !in faults)
                && stack == old(stack) + (if ok then [OutList([])] else [])
                && obj.head == old(obj.head) && h.top == old(h.top) && h.blocks == old(h.blocks)
              case Dealloc =>
                && ok && stack == old(stack) + [Plain]
                && obj.head == old(obj.head) && h.top == old(h.top) && h.blocks == old(h.blocks)
    {
      ok := calls !in faults;
      match kind {
      case Input =>
        var q := Peek(root, stack, name);
        ok := ok && q.Some? && q.value.QList?;
        stack := Consumed(stack, name) + (if ok then [InList(q.value.items)] else []);
        if ok && q.value.items != [] {
          var p := h.AllocCell(t);
          obj.head := p;
        } else {
          obj.head := NULL;
        }
      case Output =>
        stack := stack + (if ok then [OutList([])] else []);
      case Dealloc =>
        stack := stack + [Plain];
      }
      calls := calls + 1;
    }

    /** `visit_type_str` and `visit_type_uint64`: the value is passed in and out. */
    method VisitElem(h: Heap, name: string, t: ElemType, value: Value) returns (ok: bool, value': Value)
      requires Valid() && h.Valid()
      requires !kind.Input? ==> HasType(h.blocks, value, t)
      modifies this`calls, this`stack, this`result, h`blocks, h`top, h`frees
      ensures Valid() && h.Valid() && calls == old(calls) + 1
      ensures match kind
              case Input =>
                var q := Peek(root, old(stack), name);
                && (ok <==> old(calls) !in faults && q.Some? && Fits(q.value, t))
                && stack == Consumed(old(stack), name) && result == old(result)
                && h.frees == old(h.frees)
                && (if ok && t.StrType? then
                      && value' == Str(old(h.top)) && h.top == old(h.top) + 1
                      && h.blocks == old(h.blocks)[old(h.top) := Text(q.value.s)]
                    else
                      && h.top == old(h.top) && h.blocks == old(h.blocks)
                      && value' == if ok then Num(q.value.n) else if t.StrType? then Str(NULL) else value)
              case Output =>
                && (ok <==> old(calls) !in faults)
                && value' == value
                && h.blocks == old(h.blocks) && h.top == old(h.top) && h.frees == old(h.frees)
                && (if ok then stack == Attached(old(stack), ReadValue(h.blocks, value)) else stack == old(stack))
                && result == if ok && old(stack) == [] then Some(ReadValue(h.blocks, value)) else old(result)
              case Dealloc =>
                && ok && value' == value
                && stack == old(stack) && result == old(result) && h.top == old(h.top)
                && h.blocks == old(h.blocks) - (if value.Str? then {value.p} else {})
                && h.frees == old(h.frees) + (if value.Str? && value.p != NULL then [value.p] else [])
    {
      ok, value' := calls !in faults, value;
      match kind {
      case Input =>
        var q := Peek(root, stack, name);
        ok := ok && q.Some? && Fits(q.value, t);
        stack := Consumed(stack, name);
        if t.StrType? {
          var p := NULL;
          if ok {
            p := h.AllocText(q.value.s);
          }
          value' := Str(p);
        } else if ok {
          value' := Num(q.value.n);
        }
      case Output =>
        if ok {
          var q := ReadValue(h.blocks, value);
          if stack == [] {
            result := Some(q);
          }
          stack := Attached(stack, q);
        }
      case Dealloc =>
        if value.Str? {
          h.Free(value.p);
        }
      }
      calls := calls + 1;
    }

    /** `visit_next_list`: an input visitor allocates and links the next cell, a dealloc visitor
        frees the cell it is given after reading its link. */
    method NextList(h: Heap, tail: Ptr, t: ElemType) returns (next: Ptr)
      requires Valid() && h.Valid()
      requires tail in h.blocks && h.blocks[tail].Cell?
      requires kind.Input? ==> stack != [] && stack[|stack| - 1].InList?
      modifies h`blocks, h`top, h`frees
      ensures h.Valid()
      ensures match kind
              case Input =>
                && h.frees == old(h.frees)
                && (if stack[|stack| - 1].rest == [] then
                      next == NULL && h.top == old(h.top) && h.blocks == old(h.blocks)
                    else
                      && next == old(h.top) && h.top == next + 1
                      && h.blocks == old(h.blocks)[next := Cell(NULL, Zero(t))]
                                      [tail := Cell(next, old(h.blocks)[tail].value)])
              case Output =>
                && next == old(h.blocks)[tail].next
                && h.blocks == old(h.blocks) && h.top == old(h.top) && h.frees == old(h.frees)
              case Dealloc =>
                && next == old(h.blocks)[tail].next
                && h.blocks == old(h.blocks) - {tail} && h.top == old(h.top)
                && h.frees == old(h.frees) + [tail]
    {
      match kind
      case Input =>
        if stack[|stack| - 1].rest == [] {
          next := NULL;
        } else {
          next := h.AllocCell(t);
          h.SetNext(tail, next);
        }
      case Output =>
        next := h.blocks[tail].next;
      case Dealloc =>
        next := h.blocks[tail].next;
        h.Free(tail);
    }

    /** `visit_check_list`: an input visitor also objects to elements left unread. */
    method CheckList() returns (ok: bool)
      requires Valid()
      requires kind.Input? ==> stack != [] && stack[|stack| - 1].InList?
      modifies this`calls
      ensures Valid() && calls == old(calls) + 1
      ensures ok <==> old(calls) !in faults && (kind.Input? ==> stack[|stack| - 1].rest == [])
    {
      ok := calls !in faults && (!kind.Input? || stack[|stack| - 1].rest == []);
      calls := calls + 1;
    }

    /** `visit_end_list`: leaves the innermost level; an output visitor hands its list on. */
    method EndList()
      requires Valid() && stack != []
      requires kind.Output? ==> stack[|stack| - 1].OutList?
      modifies this`stack, this`result
      ensures Valid()
      ensures var outer := old(stack)[..|old(stack)| - 1];
              if kind.Output? then
                var q := QList(old(stack)[|old(stack)| - 1].done);
                && stack == Attached(outer, q)
                && result == if outer == [] then Some(q) else old(result)
              else
                stack == outer && result == old(result)
    {
      var outer := stack[..|stack| - 1];
      if kind.Output? {
        var q := QList(stack[|stack| - 1].done);
        if outer == [] {
          result := Some(q);
        }
        stack := Attached(outer, q);
      } else {
        stack := outer;
      }
    }

    /** `visit_start_struct` with no object to allocate, as the marshallers call it. */
    method StartStruct(name: string) returns (ok: bool)
      requires Valid() && !kind.Output?
      modifies this`calls, this`stack
      ensures Valid() && calls == old(calls) + 1
      ensures if kind.Input? then
                var q := Peek(root, old(stack), name);
                && (ok <==> old(calls) !in faults && q.Some? && q.value.QDict?)
                && stack == Consumed(old(stack), name)
                            + (if ok then [InDict(q.value.members, q.value.members.Keys)] else [])
              else
                ok && stack == old(stack) + [Plain]
    {
      ok := calls !in faults;
      if kind.Input? {
        var q := Peek(root, stack, name);
        ok := ok && q.Some? && q.value.QDict?;
        stack := Consumed(stack, name)
                 + (if ok then [InDict(q.value.members, q.value.members.Keys)] else []);
      } else {
        stack := stack + [Plain];
      }
      calls := calls + 1;
    }

    /** `visit_optional`: an input visitor reports presence, the others leave the flag as it is. */
    method Optional(name: string, present: bool) returns (present': bool)
      requires Valid()
      ensures present' == if kind.Input? then Peek(root, stack, name).Some? else present
    {
      present' := if kind.Input? then Peek(root, stack, name).Some? else present;
    }

    /** `visit_check_struct`: an input visitor also objects to members nobody asked for. */
    method CheckStruct() returns (ok: bool)
      requires Valid()
      requires kind.Input? ==> stack != [] && stack[|stack| - 1].InDict?
      modifies this`calls
      ensures Valid() && calls == old(calls) + 1
      ensures ok <==> old(calls) !in faults && (kind.Input? ==> stack[|stack| - 1].unvisited == {})
    {
      ok := calls !in faults && (!kind.Input? || stack[|stack| - 1].unvisited == {});
      calls := calls + 1;
    }

    /** `visit_end_struct`. */
    method EndStruct()
      requires Valid() && stack != [] && !kind.Output?
      modifies this`stack
      ensures Valid() && stack == old(stack)[..|old(stack)| - 1]
    {
      stack := stack[..|stack| - 1];
    }
  }
}
