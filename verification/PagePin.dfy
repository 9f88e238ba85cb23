/**
  `simple_ioctl` of the sample character device: PIN takes references on the pages behind a user
  buffer, with rollback when only part of them could be pinned, and FREE drops them again. The
  user-page lookup is outside the module: how many pages it pins, which frames, and whether the
  array could be allocated are parameters of PIN.
 */
module PagePin {
  import opened Common

  const PAGE_SIZE := 4096
  const TWO_TO_31 := 0x8000_0000
  const TWO_TO_44 := 0x1000_0000_0000
  const EINVAL := 22

  type Page = nat

  // ----- how many pages -----

  function OffsetInPage(buf: nat): nat {
    buf % PAGE_SIZE
  }

  /** `pages_nr`: a 64-bit sum, shifted, then cut down to an `unsigned int`. */
  function PagesNr(buf: nat, len: nat): nat {
    ((len + OffsetInPage(buf) + PAGE_SIZE - 1) % TWO_TO_64 / PAGE_SIZE) % TWO_TO_32
  }

  /** `n` pages from the one `buf` lies in contain every byte of the buffer. */
  ghost predicate Covers(buf: nat, len: nat, n: nat) {
    forall a :: buf <= a < buf + len ==> buf / PAGE_SIZE <= a / PAGE_SIZE < buf / PAGE_SIZE + n
  }

  /** `n` pages are enough and one fewer is not. */
  ghost predicate ExactCover(buf: nat, len: nat, n: nat) {
    0 < n && Covers(buf, len, n) && !Covers(buf, len, n - 1)
  }

  /** The page of the last byte decides. */
  lemma {:induction false} CoversByLastByte(buf: nat, len: nat, n: nat)
    requires 0 < len
    ensures Covers(buf, len, n) <==> (OffsetInPage(buf) + len - 1) / PAGE_SIZE < n
  {
    var last := buf + len - 1;
    assert last / PAGE_SIZE == buf / PAGE_SIZE + (OffsetInPage(buf) + len - 1) / PAGE_SIZE;
    if (OffsetInPage(buf) + len - 1) / PAGE_SIZE < n {
      forall a | buf <= a < buf + len ensures buf / PAGE_SIZE <= a / PAGE_SIZE < buf / PAGE_SIZE + n {
        assert a / PAGE_SIZE <= last / PAGE_SIZE;
      }
    }
  }

  /** For every address and every nonzero length the page count is the smallest that covers the
      buffer, exactly when the sum in it stays below 2^44: beyond that the count no longer fits
      32 bits or the sum itself wraps. */
  lemma {:induction false} PageCountExact(buf: nat, len: nat)
    requires 0 < len < TWO_TO_64
    ensures ExactCover(buf, len, PagesNr(buf, len)) <==> len + OffsetInPage(buf) + PAGE_SIZE - 1 < TWO_TO_44
  {
    var sum := len + OffsetInPage(buf) + PAGE_SIZE - 1;
    var n := PagesNr(buf, len);
    CoversByLastByte(buf, len, n);
    if 0 < n {
      CoversByLastByte(buf, len, n - 1);
    }
    assert (sum - PAGE_SIZE) / PAGE_SIZE == sum / PAGE_SIZE - 1;
    if sum < TWO_TO_44 {
      assert sum / PAGE_SIZE < TWO_TO_32;
    } else {
      assert TWO_TO_32 <= sum / PAGE_SIZE;
    }
  }

  /** Beyond that the count is the right one modulo 2^32, and 0 or 1 where the 64-bit sum wraps. */
  lemma {:induction false} PageCountCut(buf: nat, len: nat, n: nat)
    requires 0 < len < TWO_TO_64 && ExactCover(buf, len, n)
    ensures var sum := len + OffsetInPage(buf) + PAGE_SIZE - 1;
            && (sum < 0x1_0000_0000_0000_0000 ==> PagesNr(buf, len) == n % 0x1_0000_0000)
            && (0x1_0000_0000_0000_0000 <= sum ==>
                  PagesNr(buf, len) == if sum < 0x1_0000_0000_0000_1000 then 0 else 1)
  {
    CoversByLastByte(buf, len, n);
    CoversByLastByte(buf, len, n - 1);
    var sum := len + OffsetInPage(buf) + PAGE_SIZE - 1;
    assert (sum - PAGE_SIZE) / PAGE_SIZE == sum / PAGE_SIZE - 1;
    assert n == sum / PAGE_SIZE;
  }

  /** The shift in the source is a ceiling division. */
  lemma {:induction false} PageCountIsCeiling(buf: nat, len: nat)
    requires len + OffsetInPage(buf) + PAGE_SIZE - 1 < TWO_TO_44
    ensures var n := PagesNr(buf, len);
            n * PAGE_SIZE - PAGE_SIZE < len + OffsetInPage(buf) <= n * PAGE_SIZE
  {
  }

  // ----- reference counts -----

  ghost function Plus(refs: map<Page, int>, held: multiset<Page>): map<Page, int> {
    map p | p in refs :: refs[p] + held[p]
  }

  ghost function Minus(refs: map<Page, int>, held: multiset<Page>): map<Page, int> {
    map p | p in refs :: refs[p] - held[p]
  }

  lemma {:induction false} PlusPlus(refs: map<Page, int>, a: multiset<Page>, b: multiset<Page>)
    ensures Plus(Plus(refs, a), b) == Plus(refs, a + b)
  {
  }

  lemma {:induction false} PlusMinus(refs: map<Page, int>, a: multiset<Page>, b: multiset<Page>)
    ensures Minus(Plus(refs, a + b), b) == Plus(refs, a)
  {
  }

  lemma {:induction false} PlusNothing(refs: map<Page, int>)
    ensures Plus(refs, multiset([])) == refs
  {
  }

  lemma {:induction false} MinusNothing(refs: map<Page, int>)
    ensures Minus(refs, multiset([])) == refs
  {
  }

  lemma {:induction false} Restored(refs: map<Page, int>, a: multiset<Page>)
    ensures Minus(Plus(refs, a), a) == refs
  {
  }

  /** What one successful PIN holds: the array it allocated and the pages it pinned. */
  datatype Pin = Pin(at: Ptr, frames: seq<Page>)

  /** All references held by a list of pins. */
  ghost function Held(live: seq<Pin>): multiset<Page> {
    if live == [] then multiset{} else Held(live[..|live| - 1]) + multiset(live[|live| - 1].frames)
  }

  ghost function Removed(live: seq<Pin>, i: nat): seq<Pin>
    requires i < |live|
  {
    live[..i] + live[i + 1..]
  }

  lemma {:induction false} HeldAppended(live: seq<Pin>, p: Pin)
    ensures Held(live + [p]) == Held(live) + multiset(p.frames)
  {
  }

  lemma {:induction false} HeldRemoved(live: seq<Pin>, i: nat)
    requires i < |live|
    ensures Held(live) == Held(Removed(live, i)) + multiset(live[i].frames)
  {
    hide Held;
    var n := |live| - 1;
    assert live == live[..n] + [live[n]];
    HeldAppended(live[..n], live[n]);
    if i < n {
      HeldRemoved(live[..n], i);
      assert Removed(live, i) == Removed(live[..n], i) + [live[n]];
      HeldAppended(Removed(live[..n], i), live[n]);
    } else {
      assert Removed(live, i) == live[..n];
    }
  }

  // ----- the two commands -----

  /** The fields of `struct dma_io_cb` the driver reads and writes. */
  datatype IoCb = IoCb(buf: nat, len: nat, pages: Ptr, physAddr: nat, pinned: int)

  /** `Fault`: the kernel follows a pointer, or an entry of a pages array, that PIN never set up. */
  datatype Outcome = Ret(code: int) | Fault

  /** What the world outside the driver does during one PIN. */
  datatype World = World(allocOk: bool, pinned: int, frames: seq<Page>)

  /** The C conversion of a negative `int` to `unsigned int`. */
  function U32(x: int): nat {
    x % TWO_TO_32
  }

  /** `get_user_pages_fast` pins at most what was asked for, or reports an error and pins nothing. */
  ghost predicate GupContract(w: World, refs: map<Page, int>, pagesNr: nat) {
    && -4095 <= w.pinned <= pagesNr && w.pinned < TWO_TO_31
    && |w.frames| == (if w.pinned < 0 then 0 else w.pinned)
    && forall i :: 0 <= i < |w.frames| ==> w.frames[i] in refs
  }

  /** PIN goes past the rollback. */
  predicate PinPasses(arg: IoCb, w: World) {
    w.allocOk && U32(w.pinned) == PagesNr(arg.buf, arg.len)
  }

  /** What PIN reports, given the address of the array it allocated. */
  function PinOutcome(arg: IoCb, w: World): Outcome {
    if !PinPasses(arg, w) then Ret(-EINVAL) else if w.pinned <= 0 then Fault else Ret(0)
  }

  /** The block a successful PIN hands back. */
  function Reported(arg: IoCb, w: World, at: Ptr): IoCb
    requires w.frames != []
  {
    arg.(pages := at, physAddr := w.frames[0] * PAGE_SIZE, pinned := w.pinned)
  }

  function Filled(frames: seq<Page>): seq<Option<Page>> {
    seq(|frames|, i requires 0 <= i < |frames| => Some(frames[i]))
  }

  // ----- the driver as a state machine -----

  /** Reference counts, live pins in the order they were made, next array address. */
  datatype State = State(refs: map<Page, int>, live: seq<Pin>, next: Ptr)

  /** FREE names the pin whose block it is given. */
  datatype Command = DoPin(arg: IoCb, w: World) | DoFree(i: nat)

  ghost predicate Legal(s: State, c: Command) {
    match c
    case DoPin(arg, w) => w.allocOk ==> GupContract(w, s.refs, PagesNr(arg.buf, arg.len))
    case DoFree(i) => i < |s.live|
  }

  ghost function Do(s: State, c: Command): State
    requires Legal(s, c)
  {
    match c
    case DoPin(arg, w) =>
      if !w.allocOk then s
      else if PinOutcome(arg, w) == Ret(0) then
        State(Plus(s.refs, multiset(w.frames)), s.live + [Pin(s.next, w.frames)], s.next + 1)
      else s.(next := s.next + 1)
    case DoFree(i) =>
      State(Minus(s.refs, multiset(s.live[i].frames)), Removed(s.live, i), s.next)
  }

  /** A sequence of commands every one of which is legal when its turn comes. */
  ghost predicate LegalRun(s: State, cs: seq<Command>)
    decreases cs
  {
    cs == [] || (Legal(s, cs[0]) && LegalRun(Do(s, cs[0]), cs[1..]))
  }

  ghost function Run(s: State, cs: seq<Command>): State
    requires LegalRun(s, cs)
    decreases cs
  {
    if cs == [] then s else Run(Do(s, cs[0]), cs[1..])
  }

  ghost predicate Conserved(s: State, base: map<Page, int>) {
    s.refs == Plus(base, Held(s.live))
  }

  lemma {:induction false} StepConserves(s: State, c: Command, base: map<Page, int>)
    requires Legal(s, c) && Conserved(s, base)
    ensures Conserved(Do(s, c), base)
  {
    match c
    case DoPin(arg, w) =>
      HeldAppended(s.live, Pin(s.next, w.frames));
      PlusPlus(base, Held(s.live), multiset(w.frames));
    case DoFree(i) =>
      HeldRemoved(s.live, i);
      PlusMinus(base, Held(Removed(s.live, i)), multiset(s.live[i].frames));
  }

  /** A page under a live pin has at least one more reference than it started with. */
  lemma {:induction false} LivePageHeld(s: State, base: map<Page, int>, i: nat, p: Page)
    requires Conserved(s, base)
    requires i < |s.live| && p in s.live[i].frames && p in base
    ensures base[p] < s.refs[p]
  {
    HeldRemoved(s.live, i);
    assert p in multiset(s.live[i].frames);
  }

  /** Over every sequence of successful, short and failing PINs and of FREEs, each page's count is
      its initial value plus the references of the live pins: above that value while a pin covers
      the page, and back at it once all pins are freed. */
  lemma {:induction false} RunConserves(s: State, cs: seq<Command>, base: map<Page, int>)
    requires LegalRun(s, cs) && Conserved(s, base)
    ensures Conserved(Run(s, cs), base)
    ensures forall i, p :: 0 <= i < |Run(s, cs).live| && p in Run(s, cs).live[i].frames && p in base ==>
              base[p] < Run(s, cs).refs[p]
    ensures Run(s, cs).live == [] ==> Run(s, cs).refs == base
    decreases cs
  {
    if cs == [] {
      assert s.live == [] ==> Plus(base, Held(s.live)) == base;
      forall i, p | 0 <= i < |s.live| && p in s.live[i].frames && p in base ensures base[p] < s.refs[p] {
        LivePageHeld(s, base, i, p);
      }
    } else {
      StepConserves(s, cs[0], base);
      RunConserves(Do(s, cs[0]), cs[1..], base);
    }
  }

  /** Some result of the page lookup makes PIN fault exactly for these page counts: none at all, or
      so many that a negative result, compared as unsigned, equals them. */
  lemma {:induction false} PinCanFault(s: State, arg: IoCb)
    ensures var n := PagesNr(arg.buf, arg.len);
            (exists w :: Legal(s, DoPin(arg, w)) && PinOutcome(arg, w) == Fault)
            <==> n == 0 || TWO_TO_32 - 4095 <= n
  {
    var n := PagesNr(arg.buf, arg.len);
    if n == 0 || TWO_TO_32 - 4095 <= n {
      var w := World(true, if n == 0 then 0 else n - TWO_TO_32, []);
      assert U32(w.pinned) == n;
      assert Legal(s, DoPin(arg, w)) && PinOutcome(arg, w) == Fault;
    } else {
      forall w | Legal(s, DoPin(arg, w)) ensures PinOutcome(arg, w) != Fault {
        assert w.allocOk && w.pinned < 0 ==> U32(w.pinned) == w.pinned + TWO_TO_32;
      }
    }
  }

  /** PIN succeeds exactly if the array could be allocated and every page was pinned, of which there
      is at least one; it faults exactly if none was pinned and the result, as an `unsigned int`, is
      the page count all the same; otherwise it fails. */
  lemma {:induction false} PinOutcomeExactly(s: State, arg: IoCb, w: World)
    requires Legal(s, DoPin(arg, w))
    ensures var out, n := PinOutcome(arg, w), PagesNr(arg.buf, arg.len);
            && (out == Ret(0) <==> w.allocOk && 0 < w.pinned == n)
            && (out == Fault <==> w.allocOk && w.pinned <= 0 && (w.pinned == n || w.pinned + 0x1_0000_0000 == n))
            && (out == Ret(0) || out == Fault || out == Ret(-22))
  {
  }

  /** The physical address of the byte at `a`, for a buffer at `buf` whose pages are `frames`. */
  function PhysOfByte(buf: nat, frames: seq<Page>, a: nat): nat
    requires buf <= a && a / PAGE_SIZE - buf / PAGE_SIZE < |frames|
  {
    frames[a / PAGE_SIZE - buf / PAGE_SIZE] * PAGE_SIZE + a % PAGE_SIZE
  }

  lemma {:induction false} ByteOfPage(buf: nat, len: nat, k: nat)
    requires 0 < len && len + OffsetInPage(buf) + PAGE_SIZE - 1 < TWO_TO_44 && k < PagesNr(buf, len)
    ensures var a := if k == 0 then buf else (buf / PAGE_SIZE + k) * PAGE_SIZE;
            buf <= a < buf + len && a / PAGE_SIZE - buf / PAGE_SIZE == k
  {
    PageCountIsCeiling(buf, len);
  }

  lemma {:induction false} PageOfByte(buf: nat, len: nat, a: nat)
    requires 0 < len && len + OffsetInPage(buf) + PAGE_SIZE - 1 < TWO_TO_44 && buf <= a < buf + len
    ensures 0 <= a / PAGE_SIZE - buf / PAGE_SIZE < PagesNr(buf, len)
  {
    PageCountExact(buf, len);
  }

  /** Counting on from the reported address leads to the byte at `a`. */
  ghost predicate Reached(arg: IoCb, w: World, at: Ptr, a: nat)
    requires w.frames != []
  {
    && arg.buf <= a && a / PAGE_SIZE - arg.buf / PAGE_SIZE < |w.frames|
    && Reported(arg, w, at).physAddr + OffsetInPage(arg.buf) + (a - arg.buf) == PhysOfByte(arg.buf, w.frames, a)
  }

  lemma {:induction false} ReachedExactly(arg: IoCb, w: World, at: Ptr, a: nat)
    requires w.frames != [] && arg.buf <= a && a / PAGE_SIZE - arg.buf / PAGE_SIZE < |w.frames|
    ensures var k := a / PAGE_SIZE - arg.buf / PAGE_SIZE;
            Reached(arg, w, at, a) <==> w.frames[k] == w.frames[0] + k
  {
  }

  /** PIN reports one physical address, that of the first page. Counting on from it, a device reaches
      every byte of the buffer exactly if the frames are consecutive. */
  lemma {:induction false} ReportedReaches(arg: IoCb, w: World, at: Ptr)
    requires 0 < arg.len && arg.len + OffsetInPage(arg.buf) + PAGE_SIZE - 1 < TWO_TO_44
    requires |w.frames| == PagesNr(arg.buf, arg.len) && w.frames != []
    ensures (forall a :: arg.buf <= a < arg.buf + arg.len ==> Reached(arg, w, at, a))
            <==> forall k :: 0 <= k < |w.frames| ==> w.frames[k] == w.frames[0] + k
  {
    hide Reached, PagesNr;
    var buf, len, frames := arg.buf, arg.len, w.frames;
    if forall k :: 0 <= k < |frames| ==> frames[k] == frames[0] + k {
      forall a | buf <= a < buf + len ensures Reached(arg, w, at, a) {
        PageOfByte(buf, len, a);
        ReachedExactly(arg, w, at, a);
      }
    } else {
      var k :| 0 <= k < |frames| && frames[k] != frames[0] + k;
      ByteOfPage(buf, len, k);
      ReachedExactly(arg, w, at, if k == 0 then buf else (buf / PAGE_SIZE + k) * PAGE_SIZE);
    }
  }

  /** Below the bound on the sum, only an empty buffer at a page boundary has no pages. */
  lemma {:induction false} NoPages(buf: nat, len: nat)
    requires len + OffsetInPage(buf) + PAGE_SIZE - 1 < TWO_TO_44
    ensures PagesNr(buf, len) == 0 <==> len == 0 && OffsetInPage(buf) == 0
  {
  }

  /** PIN of an empty buffer at a page boundary faults although the lookup does all it was asked. */
  lemma {:induction false} EmptyBufferFaults(s: State, arg: IoCb)
    requires arg.len == 0 && OffsetInPage(arg.buf) == 0
    ensures Legal(s, DoPin(arg, World(true, 0, []))) && PinOutcome(arg, World(true, 0, [])) == Fault
  {
    NoPages(arg.buf, 0);
  }

  /** The pages that FREE of a block drops, if its array is that of a pin of `frames`. */
  function Named(frames: seq<Page>, pinned: int): (named: seq<Page>)
    requires pinned <= |frames|
    ensures named <= frames && |named| == if pinned < 0 then 0 else pinned
    ensures pinned == |frames| ==> named == frames
  {
    if pinned < 0 then [] else frames[..pinned]
  }

  /** The live pin number `i` undone, as far as a block with this page count does. */
  ghost function Freed(s: State, i: nat, pinned: int): (s': State)
    requires i < |s.live| && pinned <= |s.live[i].frames|
    ensures pinned == |s.live[i].frames| ==> s' == Do(s, DoFree(i))
  {
    State(Minus(s.refs, multiset(Named(s.live[i].frames, pinned))), Removed(s.live, i), s.next)
  }

  /** FREE of the live pin number `i` with a block that names `pinned` of its pages keeps the counts
      right exactly if those are all of them. */
  lemma {:induction false} FreeConserves(s: State, i: nat, pinned: int, base: map<Page, int>)
    requires Conserved(s, base) && i < |s.live| && s.live[i].frames != [] && pinned <= |s.live[i].frames|
    requires forall j :: 0 <= j < |s.live[i].frames| ==> s.live[i].frames[j] in s.refs
    ensures Conserved(Freed(s, i, pinned), base) <==> pinned == |s.live[i].frames|
  {
    hide Held;
    var frames := s.live[i].frames;
    var k: nat := if pinned < 0 then 0 else pinned;
    var rest := Held(Removed(s.live, i));
    HeldRemoved(s.live, i);
    if k == |frames| {
      assert frames[..k] == frames;
      PlusMinus(base, rest, multiset(frames));
    } else {
      var p := frames[k];
      assert frames == frames[..k] + frames[k..];
      assert p in multiset(frames[k..]);
      assert multiset(frames[..k])[p] < multiset(frames)[p];
      assert Minus(s.refs, multiset(frames[..k]))[p] != Plus(base, rest)[p];
    }
  }

  // ----- the driver itself -----

  /** The allocated arrays are those of the live pins, one each, holding the pages pinned, and the
      abandoned ones. */
  ghost predicate ArraysMatch(live: seq<Pin>, lost: set<Ptr>, arrays: map<Ptr, seq<Option<Page>>>,
                              pages: set<Page>, next: Ptr) {
    && (forall i, j :: 0 <= i < j < |live| ==> live[i].at != live[j].at)
    && (forall i :: 0 <= i < |live| ==>
          && live[i].at in arrays && live[i].at !in lost
          && live[i].frames != [] && arrays[live[i].at] == Filled(live[i].frames)
          && forall k :: 0 <= k < |live[i].frames| ==> live[i].frames[k] in pages)
    && (forall p :: p in lost ==> p in arrays && forall k :: 0 <= k < |arrays[p]| ==> arrays[p][k] == None)
    && (forall p :: p in arrays ==> NULL < p < next) && NULL < next
    && arrays.Keys == lost + Ats(live)
  }

  lemma {:induction false} ArrayUndone(live: seq<Pin>, lost: set<Ptr>, arrays: map<Ptr, seq<Option<Page>>>,
                                       pages: set<Page>, next: Ptr, entries: seq<Option<Page>>)
    requires ArraysMatch(live, lost, arrays, pages, next)
    ensures arrays[next := entries] - {next} == arrays
    ensures ArraysMatch(live, lost, arrays, pages, next + 1)
  {
  }

  lemma {:induction false} ArrayLost(live: seq<Pin>, lost: set<Ptr>, arrays: map<Ptr, seq<Option<Page>>>,
                                     pages: set<Page>, next: Ptr, entries: seq<Option<Page>>)
    requires ArraysMatch(live, lost, arrays, pages, next)
    requires forall k :: 0 <= k < |entries| ==> entries[k] == None
    ensures ArraysMatch(live, lost + {next}, arrays[next := entries], pages, next + 1)
  {
  }

  lemma {:induction false} ArrayKept(live: seq<Pin>, lost: set<Ptr>, arrays: map<Ptr, seq<Option<Page>>>,
                                     pages: set<Page>, next: Ptr, frames: seq<Page>)
    requires ArraysMatch(live, lost, arrays, pages, next)
    requires frames != [] && forall k :: 0 <= k < |frames| ==> frames[k] in pages
    ensures ArraysMatch(live + [Pin(next, frames)], lost, arrays[next := Filled(frames)], pages, next + 1)
  {
  }

  ghost function Ats(live: seq<Pin>): set<Ptr> {
    set x | x in live :: x.at
  }

  lemma {:induction false} ArrayFreed(live: seq<Pin>, lost: set<Ptr>, arrays: map<Ptr, seq<Option<Page>>>,
                                      pages: set<Page>, next: Ptr, i: nat)
    requires ArraysMatch(live, lost, arrays, pages, next) && i < |live|
    ensures ArraysMatch(Removed(live, i), lost, arrays - {live[i].at}, pages, next)
  {
  }

  /** The array exists and its first `n` entries have been filled in. */
  predicate FilledIn(arrays: map<Ptr, seq<Option<Page>>>, pages: Ptr, n: int) {
    pages in arrays && n <= |arrays[pages]| && forall k :: 0 <= k < n ==> arrays[pages][k].Some?
  }

  /** FREE touches only what PIN set up, or nothing. */
  predicate FreeDefined(arrays: map<Ptr, seq<Option<Page>>>, arg: IoCb) {
    FilledIn(arrays, arg.pages, arg.pinned) || (arg.pages == NULL && arg.pinned <= 0)
  }

  lemma {:induction false} LostFreed(live: seq<Pin>, lost: set<Ptr>, arrays: map<Ptr, seq<Option<Page>>>,
                                     pages: set<Page>, next: Ptr, p: Ptr, pinned: int)
    requires ArraysMatch(live, lost, arrays, pages, next) && p in arrays && p !in Ats(live)
    ensures p in lost && ArraysMatch(live, lost - {p}, arrays - {p}, pages, next)
    ensures FilledIn(arrays, p, pinned) <==> pinned <= 0
  {
    if 0 < pinned && |arrays[p]| != 0 {
      assert arrays[p][0] == None;
    }
  }

  lemma {:induction false} NullFreed(live: seq<Pin>, lost: set<Ptr>, arrays: map<Ptr, seq<Option<Page>>>,
                                     pages: set<Page>, next: Ptr)
    requires ArraysMatch(live, lost, arrays, pages, next)
    ensures NULL !in arrays && NULL !in lost
    ensures forall i :: 0 <= i < |live| ==> live[i].at in arrays && live[i].at !in lost
  {
  }

  lemma {:induction false} NamedFilledIn(live: seq<Pin>, lost: set<Ptr>, arrays: map<Ptr, seq<Option<Page>>>,
                                         pages: set<Page>, next: Ptr, i: nat, pinned: int)
    requires ArraysMatch(live, lost, arrays, pages, next) && i < |live|
    ensures FilledIn(arrays, live[i].at, pinned) <==> pinned <= |live[i].frames|
    ensures forall j :: 0 <= j < |live| && live[j].at == live[i].at ==> j == i
    ensures live[i].at in arrays && |arrays[live[i].at]| == |live[i].frames| != 0
    ensures forall k :: 0 <= k < |live[i].frames| ==>
              arrays[live[i].at][k] == Some(live[i].frames[k]) && live[i].frames[k] in pages
  {
  }

  lemma {:induction false} ArraysAre(live: seq<Pin>, lost: set<Ptr>, arrays: map<Ptr, seq<Option<Page>>>,
                                     pages: set<Page>, next: Ptr)
    requires ArraysMatch(live, lost, arrays, pages, next)
    ensures arrays.Keys == lost + Ats(live) && forall i :: 0 <= i < |live| ==> live[i].at !in lost
  {
  }

  /** FREE is harmless exactly for a block that names the array of a live pin and no more pages than
      it holds, and for one that names no page and NULL or an abandoned array. */
  lemma {:induction false} FreeDefinedExactly(live: seq<Pin>, lost: set<Ptr>, arrays: map<Ptr, seq<Option<Page>>>,
                                              pages: set<Page>, next: Ptr, arg: IoCb)
    requires ArraysMatch(live, lost, arrays, pages, next)
    ensures FreeDefined(arrays, arg)
            <==> || (exists i :: 0 <= i < |live| && live[i].at == arg.pages && arg.pinned <= |live[i].frames|)
                 || (arg.pinned <= 0 && (arg.pages == 0 || arg.pages in lost))
  {
    hide ArraysMatch, FilledIn, Filled;
    NullFreed(live, lost, arrays, pages, next);
    ArraysAre(live, lost, arrays, pages, next);
    if arg.pages in Ats(live) {
      var x :| x in live && x.at == arg.pages;
      var i :| 0 <= i < |live| && live[i] == x;
      NamedFilledIn(live, lost, arrays, pages, next, i, arg.pinned);
    } else if arg.pages in arrays {
      LostFreed(live, lost, arrays, pages, next, arg.pages, arg.pinned);
    } else {
      NotFilledIn(arrays, arg.pages, arg.pinned);
    }
  }

  lemma {:induction false} NotFilledIn(arrays: map<Ptr, seq<Option<Page>>>, pages: Ptr, pinned: int)
    requires pages !in arrays
    ensures !FilledIn(arrays, pages, pinned)
  {
  }

  class Driver {
    /** Reference counts of all page frames. */
    var refs: map<Page, int>
    /** Allocated pages arrays; an entry is absent until the lookup fills it in. */
    var arrays: map<Ptr, seq<Option<Page>>>
    var next: Ptr
    ghost var live: seq<Pin>
    /** Arrays abandoned by a faulting PIN. */
    ghost var lost: set<Ptr>

    ghost function View(): State
      reads this
    {
      State(refs, live, next)
    }

    ghost predicate Valid()
      reads this
    {
      ArraysMatch(live, lost, arrays, refs.Keys, next)
    }

    constructor (refs: map<Page, int>)
      ensures Valid() && View() == State(refs, [], 1) && lost == {}
    {
      this.refs, arrays, next, live, lost := refs, map[], 1, [], {};
    }

    /** `for (i=0; i<pinned; i++) put_page(pages[i]);` */
    method PutPages(pages: Ptr, pinned: int, ghost frames: seq<Page>)
      requires pages in arrays && |frames| <= |arrays[pages]|
      requires forall i :: 0 <= i < |frames| ==> arrays[pages][i] == Some(frames[i]) && frames[i] in refs
      requires |frames| == (if pinned < 0 then 0 else pinned)
      modifies this`refs
      ensures refs == Minus(old(refs), multiset(frames)) && refs.Keys == old(refs).Keys
    {
      var i := 0;
      assert frames[..0] == [];
      while i < pinned
        invariant 0 <= i <= |frames|
        invariant refs == Minus(old(refs), multiset(frames[..i]))
      {
        var page := arrays[pages][i].value;
        refs := refs[page := refs[page] - 1];
        assert frames[..i + 1] == frames[..i] + [frames[i]];
        i := i + 1;
      }
      assert frames[..i] == frames;
    }

    /** `get_user_pages_fast(buf, pages_nr, 1, pages)`: references the frames and stores them. */
    method GetUserPages(pages: Ptr, pagesNr: nat, w: World) returns (pinned: int)
      requires pages in arrays && |arrays[pages]| == pagesNr && GupContract(w, refs, pagesNr)
      modifies this`refs, this`arrays
      ensures pinned == w.pinned
      ensures refs == Plus(old(refs), multiset(w.frames)) && refs.Keys == old(refs).Keys
      ensures arrays == old(arrays)[pages := Filled(w.frames) + old(arrays)[pages][|w.frames|..]]
    {
      pinned := w.pinned;
      TakePages(w.frames);
      arrays := arrays[pages := Filled(w.frames) + arrays[pages][|w.frames|..]];
    }

    /** One more reference on each frame. */
    method TakePages(frames: seq<Page>)
      requires forall i :: 0 <= i < |frames| ==> frames[i] in refs
      modifies this`refs
      ensures refs == Plus(old(refs), multiset(frames)) && refs.Keys == old(refs).Keys
    {
      var i := 0;
      assert frames[..0] == [];
      while i < |frames|
        invariant 0 <= i <= |frames|
        invariant refs == Plus(old(refs), multiset(frames[..i]))
      {
        refs := refs[frames[i] := refs[frames[i]] + 1];
        assert frames[..i + 1] == frames[..i] + [frames[i]];
        i := i + 1;
      }
      assert frames[..i] == frames;
    }

    /** The SIMPLE_IOCTL_PIN case. */
    method IoctlPin(arg: IoCb, w: World) returns (out: Outcome, arg': IoCb)
      requires Valid() && Legal(View(), DoPin(arg, w))
      modifies this
      ensures Valid()
      ensures View() == Do(old(View()), DoPin(arg, w))
      ensures out == PinOutcome(arg, w)
      ensures out == Ret(0) <==> w.allocOk && 0 < w.pinned == PagesNr(arg.buf, arg.len)
      ensures out == Ret(0) ==> live == old(live) + [Pin(old(next), w.frames)]
      ensures out != Ret(0) ==> live == old(live) && refs == old(refs)
      ensures out == Ret(0) ==> |w.frames| == w.pinned == PagesNr(arg.buf, arg.len) && lost == old(lost)
      ensures arg' == if out == Ret(0) then Reported(arg, w, old(next)) else arg
      ensures out == Ret(-EINVAL) ==> arrays == old(arrays) && lost == old(lost)
    {
      hide ArraysMatch, Plus, Minus;
      PinOutcomeExactly(View(), arg, w);
      arg' := arg;
      var pagesNr := PagesNr(arg.buf, arg.len);
      if !w.allocOk {
        return Ret(-EINVAL), arg;
      }
      var pages := next;
      next := next + 1;
      arrays := arrays[pages := seq(pagesNr, _ => None)];
      var pinned := GetUserPages(pages, pagesNr, w);
      ghost var entries := arrays[pages];
      assert arrays == old(arrays)[pages := entries];
      ArrayUndone(live, lost, old(arrays), old(refs).Keys, pages, entries);
      if U32(pinned) != pagesNr {
        PutPages(pages, pinned, w.frames);
        arrays := arrays - {pages};
        Restored(old(refs), multiset(w.frames));
        assert arrays == old(arrays);
        return Ret(-EINVAL), arg;
      }
      if pinned <= 0 {
        ArrayLost(live, lost, old(arrays), old(refs).Keys, pages, entries);
        PlusNothing(old(refs));
        lost := lost + {pages};
        return Fault, arg;
      }
      ArrayKept(live, lost, old(arrays), old(refs).Keys, pages, w.frames);
      assert pinned == pagesNr && entries == Filled(w.frames);
      var page0 := arrays[pages][0].value;
      arg' := arg.(pages := pages, physAddr := page0 * PAGE_SIZE, pinned := pinned);
      live := live + [Pin(pages, w.frames)];
      return Ret(0), arg';
    }

    /** The SIMPLE_IOCTL_FREE case, for whatever block it is given. A block that names a live pin
        and its page count undoes that pin. A smaller count leaves references behind, and any other
        block either does nothing or makes the kernel follow a bad pointer. So counts that were right
        stay right exactly if the block does not name fewer pages than its pin holds. */
    method IoctlFree(arg: IoCb, ghost base: map<Page, int>) returns (out: Outcome)
      requires Valid()
      modifies this
      ensures Valid() && next == old(next)
      ensures out == if FreeDefined(old(arrays), arg) then Ret(0) else Fault
      ensures forall i :: 0 <= i < |old(live)| && old(live)[i].at == arg.pages ==>
                && (out == Ret(0) <==> arg.pinned <= |old(live)[i].frames|)
                && (out == Ret(0) ==> View() == Freed(old(View()), i, arg.pinned) && lost == old(lost))
      ensures (arg.pages !in Ats(old(live)) || out == Fault) ==>
                live == old(live) && lost == old(lost) - (if out == Fault then {} else {arg.pages})
      ensures arg.pages !in Ats(old(live)) && out == Ret(0) ==> refs == old(refs)
      ensures Conserved(old(View()), base) && out == Ret(0) ==>
                (Conserved(View(), base)
                 <==> forall i :: 0 <= i < |old(live)| && old(live)[i].at == arg.pages ==>
                        arg.pinned == |old(live)[i].frames|)
    {
      hide ArraysMatch, Minus, Removed, Filled, Held, Plus, Conserved, Do, Legal;
      var pages, pinned := arg.pages, arg.pinned;
      if !FilledIn(arrays, pages, pinned) {
        // the loop or kfree() reaches something that is not there
        NullFreed(live, lost, arrays, refs.Keys, next);
        forall i | 0 <= i < |live| && live[i].at == pages ensures |live[i].frames| < pinned {
          NamedFilledIn(live, lost, arrays, refs.Keys, next, i, pinned);
        }
        return if pages == NULL && pinned <= 0 then Ret(0) else Fault;
      }
      ghost var frames: seq<Page> := [];
      ghost var i := |live|;
      if pages in Ats(live) {
        var x :| x in live && x.at == pages;
        i :| 0 <= i < |live| && live[i] == x;
        NamedFilledIn(live, lost, arrays, refs.Keys, next, i, pinned);
        ArrayFreed(live, lost, arrays, refs.Keys, next, i);
        frames := Named(live[i].frames, pinned);
        if Conserved(View(), base) {
          FreeConserves(View(), i, pinned, base);
        }
      } else {
        LostFreed(live, lost, arrays, refs.Keys, next, pages, pinned);
        MinusNothing(refs);
      }
      PutPages(pages, pinned, frames);
      arrays := arrays - {pages};
      if i < |live| {
        live := Removed(live, i);
      } else {
        lost := lost - {pages};
      }
      out := Ret(0);
    }
  }

  // ----- the driver under any client -----

  /** The client keeps the block of every live pin as PIN reported it. */
  ghost predicate Blocks(blocks: seq<IoCb>, live: seq<Pin>) {
    && |blocks| == |live|
    && forall i :: 0 <= i < |live| ==> blocks[i].pages == live[i].at && blocks[i].pinned == |live[i].frames|
  }

  lemma {:induction false} BlocksAppended(blocks: seq<IoCb>, live: seq<Pin>, arg: IoCb, p: Pin)
    requires Blocks(blocks, live) && arg.pages == p.at && arg.pinned == |p.frames|
    ensures Blocks(blocks + [arg], live + [p])
  {
  }

  lemma {:induction false} BlocksRemoved(blocks: seq<IoCb>, live: seq<Pin>, i: nat)
    requires Blocks(blocks, live) && i < |live|
    ensures |blocks| == |live| && blocks[i].pages == live[i].at && blocks[i].pinned == |live[i].frames|
    ensures Blocks(blocks[..i] + blocks[i + 1..], Removed(live, i))
  {
  }

  /** One command of a client that keeps its blocks. */
  method ExecuteOne(d: Driver, blocks: seq<IoCb>, c: Command, ghost base: map<Page, int>)
    returns (blocks': seq<IoCb>, faulted: bool)
    requires d.Valid() && Legal(d.View(), c) && Blocks(blocks, d.live)
    modifies d
    ensures d.Valid() && d.View() == Do(old(d.View()), c) && Blocks(blocks', d.live)
    ensures !faulted ==> d.lost == old(d.lost)
  {
    hide ArraysMatch, Blocks, Plus, Minus, Ats, Removed;
    match c
    case DoPin(arg, w) =>
      ghost var next := d.next;
      var out, arg' := d.IoctlPin(arg, w);
      blocks', faulted := blocks, out == Fault;
      if out == Ret(0) {
        BlocksAppended(blocks, old(d.live), arg', Pin(next, w.frames));
        blocks' := blocks + [arg'];
      }
    case DoFree(i) =>
      BlocksRemoved(blocks, d.live, i);
      var _ := d.IoctlFree(blocks[i], base);
      blocks', faulted := blocks[..i] + blocks[i + 1..], false;
  }

  /** A client that issues any legal commands and frees with the blocks it was given: the driver goes
      through the states of the run, keeps one array for each live pin and, unless a PIN faults, no
      other one. */
  method Execute(d: Driver, blocks: seq<IoCb>, cs: seq<Command>, ghost base: map<Page, int>)
    returns (blocks': seq<IoCb>, faulted: bool)
    requires d.Valid() && LegalRun(d.View(), cs) && Blocks(blocks, d.live)
    requires Conserved(d.View(), base)
    modifies d
    ensures d.Valid() && d.View() == Run(old(d.View()), cs) && Blocks(blocks', d.live)
    ensures d.refs == Plus(base, Held(d.live))
    ensures d.live == [] ==> d.refs == base
    ensures !faulted ==> d.lost == old(d.lost) && d.arrays.Keys == old(d.lost) + Ats(d.live)
    decreases |cs|
  {
    hide ArraysMatch, Blocks, Plus, Held, Ats, Legal, Do;
    RunConserves(d.View(), cs, base);
    if cs == [] {
      ArraysAre(d.live, d.lost, d.arrays, d.refs.Keys, d.next);
      return blocks, false;
    }
    StepConserves(d.View(), cs[0], base);
    var first;
    blocks', first := ExecuteOne(d, blocks, cs[0], base);
    blocks', faulted := Execute(d, blocks', cs[1..], base);
    faulted := first || faulted;
  }
}
