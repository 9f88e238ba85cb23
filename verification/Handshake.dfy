/**
  The two DMA transactions of the sample application and the endpoint that serves them, in any
  interleaving. The host pins a page, programs six registers, polls at most ten times and frees
  the page, twice. The endpoint waits for `enable`, reads the registers, touches the target any
  number of times and sets `done`. Whether the page stays pinned for as long as it is in use is
  decided by the two PINs, whose results the host does not look at, and by three facts about the
  endpoint: whether it resets `enable` when it reads a transaction, whether it clears `done` when
  `enable` is written, and how many polls it may still be unfinished at.
 */
module Handshake {
  import opened Common
  import opened PagePin
  import Runs

  const DWORDS := 1024
  const MAX_POLLS := 10

  /** `clearsDone`: writing `enable` resets `done`. `oneShot`: reading a transaction resets `enable`,
      so that it is served once. `latency`: at most this many polls of a transaction find it owing
      its `done`. */
  datatype Device = Device(clearsDone: bool, oneShot: bool, latency: nat)

  // ----- the buffers -----

  /** One transaction: the block handed to PIN, of which the application fills in `buf` and `len`
      only, and what the page lookup does. */
  datatype Transfer = Transfer(arg: IoCb, w: World)

  /** What `posix_memalign` returned: any page boundary, with 4096 bytes to pin. */
  predicate Aligned(t: Transfer) {
    OffsetInPage(t.arg.buf) == 0 && t.arg.len == PAGE_SIZE
  }

  /** PIN succeeds. */
  predicate Passes(t: Transfer) {
    PinOutcome(t.arg, t.w) == Ret(0) && t.w.frames != []
  }

  /** The application's block after PIN, which leaves it alone if it fails. */
  function Block(t: Transfer, at: Ptr): IoCb {
    if Passes(t) then Reported(t.arg, t.w, at) else t.arg
  }

  /** The physical address found in it. */
  function Phys(t: Transfer): nat {
    Block(t, NULL).physAddr
  }

  /** The page PIN leaves pinned. */
  function PinnedPage(t: Transfer): Option<Page> {
    if Passes(t) then Some(t.w.frames[0]) else None
  }

  /** FREE of the block does not make the kernel follow a bad pointer. */
  predicate Freeable(t: Transfer) {
    Passes(t) || FreeDefined(map[], t.arg)
  }

  predicate BothPass(jobs: (Transfer, Transfer)) {
    Passes(jobs.0) && Passes(jobs.1)
  }

  /** Blocks whose address fields are 64 bits wide. */
  predicate Addressable(jobs: (Transfer, Transfer)) {
    Phys(jobs.0) < TWO_TO_64 && Phys(jobs.1) < TWO_TO_64
  }

  /** A buffer and lookup as PIN may meet them. */
  ghost predicate Pinnable(t: Transfer, refs: map<Page, int>) {
    Aligned(t) && (t.w.allocOk ==> GupContract(t.w, refs, 1))
  }

  ghost predicate BothPinnable(jobs: (Transfer, Transfer), refs: map<Page, int>) {
    Pinnable(jobs.0, refs) && Pinnable(jobs.1, refs)
  }

  // ----- the registers -----

  /** The value of a 64-bit address kept by the two 32-bit register writes. */
  function High(phys: nat): nat {
    (phys / TWO_TO_32) % TWO_TO_32
  }

  function Low(phys: nat): nat {
    (phys % TWO_TO_32) % TWO_TO_32
  }

  datatype Registers = Registers(high: nat, low: nat, count: nat, opcode: nat, enable: bool, done: bool)

  /** The address of double word `k` of the programmed transfer. */
  function Target(r: Registers, k: nat): nat {
    r.high * TWO_TO_32 + r.low + 4 * k
  }

  /** The two writes keep every 64-bit address, and each fits its register. */
  lemma {:induction false} AddressReassembled(phys: nat)
    requires phys < TWO_TO_64
    ensures High(phys) < 0x1_0000_0000 && Low(phys) < 0x1_0000_0000
    ensures High(phys) * TWO_TO_32 + Low(phys) == phys
  {
  }

  /** A page-aligned buffer of one page is pinned as one page, and the programmed double words are
      exactly the bytes of that page. */
  lemma {:induction false} TransferIsThePage(t: Transfer, r: Registers, a: nat)
    requires Aligned(t) && Passes(t) && Phys(t) < TWO_TO_64
    requires r.high == High(Phys(t)) && r.low == Low(Phys(t)) && r.count == DWORDS
    ensures PagesNr(t.arg.buf, t.arg.len) == 1
    ensures (exists k :: 0 <= k < r.count && Target(r, k) <= a < Target(r, k) + 4)
            <==> a / PAGE_SIZE == t.w.frames[0]
  {
    AddressReassembled(Phys(t));
    if a / PAGE_SIZE == t.w.frames[0] {
      var k := (a - Phys(t)) / 4;
      assert Target(r, k) <= a < Target(r, k) + 4;
    }
  }

  // ----- the protocol -----

  /** Where the host is in a transaction: register writes so far (0 means not pinned yet), or
      polling. */
  datatype Stage = Writing(n: nat) | Polling(polls: nat, isDone: bool)

  datatype Endpoint = Idle | Busy(r: Registers)

  datatype System = System(
    turn: nat,              // transaction 0 or 1; 2 when the application has ended
    stage: Stage,
    regs: Registers,
    pinned: Option<Page>,   // the frame the current pin covers
    ep: Endpoint,
    faulted: bool,          // FREE followed a bad pointer, which ends the application
    owed: bool,             // `enable` was written and no `done` has answered it yet
    late: bool,             // a poll found the endpoint unfinished beyond its latency
    broken: bool)           // the endpoint touched a frame that was not pinned

  /** `Fetch`: the endpoint sees `enable` and reads the registers. `Touch(k)`: it accesses double
      word `k`. `Complete`: it sets `done`. */
  datatype Event = Host | Fetch | Touch(k: nat) | Complete

  /** An endpoint that has not been enabled; its other registers hold anything. */
  function Boot(r: Registers): System {
    System(0, Writing(0), r.(enable := false), None, Idle, false, false, false, false)
  }

  function Job(turn: nat, jobs: (Transfer, Transfer)): Transfer {
    if turn == 0 then jobs.0 else jobs.1
  }

  /** The `n`-th step before polling: the PIN, then the five register writes. */
  function Program(d: Device, s: System, n: nat, t: Transfer): System {
    var s' := s.(stage := if n < 5 then Writing(n + 1) else Polling(0, false));
    match n
    case 0 => s'.(pinned := PinnedPage(t))
    case 1 => s'.(regs := s.regs.(high := High(Phys(t))))
    case 2 => s'.(regs := s.regs.(low := Low(Phys(t))))
    case 3 => s'.(regs := s.regs.(count := DWORDS))
    case 4 => s'.(regs := s.regs.(opcode := if s.turn == 0 then 1 else 0))
    case _ => s'.(regs := s.regs.(enable := true, done := s.regs.done && !d.clearsDone), owed := true)
  }

  /** The host's next step. */
  function HostStep(d: Device, s: System, t: Transfer): System {
    if 2 <= s.turn || s.faulted then s
    else match s.stage
      case Writing(n) => Program(d, s, n, t)
      case Polling(polls, isDone) =>
        if !isDone && polls < MAX_POLLS then
          s.(stage := Polling(polls + 1, s.regs.done), late := s.late || (s.owed && d.latency <= polls))
        else if Freeable(t) then
          s.(stage := Writing(0), turn := s.turn + 1, pinned := None)
        else
          s.(faulted := true)
  }

  function EndpointStep(d: Device, s: System, e: Event): System {
    match e
    case Host => s
    case Fetch =>
      if s.ep.Idle? && s.regs.enable then s.(ep := Busy(s.regs), regs := s.regs.(enable := !d.oneShot)) else s
    case Touch(k) =>
      if s.ep.Busy? && k < s.ep.r.count && s.pinned != Some(Target(s.ep.r, k) / PAGE_SIZE) then
        s.(broken := true)
      else s
    case Complete =>
      if s.ep.Busy? then s.(ep := Idle, regs := s.regs.(done := true), owed := false) else s
  }

  function Step(d: Device, s: System, e: Event, jobs: (Transfer, Transfer)): System {
    if e == Host then HostStep(d, s, Job(s.turn, jobs)) else EndpointStep(d, s, e)
  }

  function Stepper(d: Device, jobs: (Transfer, Transfer)): (System, Event) -> System {
    (s: System, e: Event) => Step(d, s, e, jobs)
  }

  function Run(d: Device, s: System, events: seq<Event>, jobs: (Transfer, Transfer)): System {
    Runs.Run(Stepper(d, jobs), s, events)
  }

  /** In no interleaving in which the endpoint keeps to its latency, from whatever register contents,
      does it touch a frame that is not pinned. */
  ghost predicate Safe(d: Device, jobs: (Transfer, Transfer)) {
    forall r, events :: var s := Run(d, Boot(r), events, jobs); s.late || !s.broken
  }

  // ----- a well-behaved endpoint -----

  /** Serves each `enable` once, and either is never found unfinished or clears `done` in time and is
      finished by the tenth poll. */
  predicate WellBehaved(d: Device) {
    d.oneShot && (d.latency == 0 || (d.clearsDone && d.latency < MAX_POLLS))
  }

  /** The registers after `n` steps of transaction `turn`: the header comment's opcode 1 is a write. */
  ghost predicate Programmed(r: Registers, t: Transfer, turn: nat, n: nat) {
    && (2 <= n ==> r.high == High(Phys(t)))
    && (3 <= n ==> r.low == Low(Phys(t)))
    && (4 <= n ==> r.count == DWORDS)
    && (5 <= n ==> r.opcode == if turn == 0 then 1 else 0)
  }

  ghost predicate Inv(d: Device, s: System, jobs: (Transfer, Transfer)) {
    var t := Job(s.turn, jobs);
    && !s.broken && !s.faulted && s.turn <= 2
    && (s.turn == 2 ==> s.stage == Writing(0))
    && (s.owed <==> s.regs.enable || s.ep.Busy?)
    && (s.ep.Busy? ==> !s.regs.enable)
    && (match s.stage
        case Writing(n) =>
          && n <= 5 && !s.owed
          && (s.pinned == if n == 0 then None else PinnedPage(t))
          && Programmed(s.regs, t, s.turn, n)
        case Polling(polls, isDone) =>
          && s.pinned == PinnedPage(t) && polls <= MAX_POLLS
          && Programmed(s.regs, t, s.turn, 5)
          && (s.ep.Busy? ==> Programmed(s.ep.r, t, s.turn, 5))
          && (s.regs.done && d.clearsDone ==> !s.owed)
          && (isDone ==> !s.owed)
          && (s.owed ==> polls <= d.latency))
  }

  lemma {:induction false} TouchesThePage(r: Registers, t: Transfer, turn: nat, k: nat)
    requires Passes(t) && Programmed(r, t, turn, 5) && Phys(t) < TWO_TO_64 && k < r.count
    ensures Some(Target(r, k) / PAGE_SIZE) == PinnedPage(t)
  {
  }

  lemma {:induction false} StepKeepsInv(d: Device, s: System, e: Event, jobs: (Transfer, Transfer))
    requires WellBehaved(d) && Addressable(jobs) && BothPass(jobs) && (s.late || Inv(d, s, jobs))
    ensures var s' := Step(d, s, e, jobs); s'.late || Inv(d, s', jobs)
  {
    hide High, Low, Phys, Passes, FreeDefined;
    if !s.late && e.Touch? && s.ep.Busy? && e.k < s.ep.r.count {
      TouchesThePage(s.ep.r, Job(s.turn, jobs), s.turn, e.k);
    }
  }

  lemma {:induction false} RunKeepsInv(d: Device, s: System, events: seq<Event>, jobs: (Transfer, Transfer))
    requires WellBehaved(d) && Addressable(jobs) && BothPass(jobs) && (s.late || Inv(d, s, jobs))
    ensures var s' := Run(d, s, events, jobs); s'.late || Inv(d, s', jobs)
    decreases events
  {
    hide Inv, Passes;
    if events == [] {
    } else {
      StepKeepsInv(d, s, events[0], jobs);
      RunKeepsInv(d, Step(d, s, events[0], jobs), events[1..], jobs);
    }
  }

  /** In every interleaving in which the endpoint keeps to its latency: outside the polling loop of a
      transaction (in particular after each FREE) it has nothing left to do, and every touch so far
      hit the pinned page. */
  lemma {:induction false} FreedAfterLastTouch(d: Device, r: Registers, events: seq<Event>,
                                               jobs: (Transfer, Transfer))
    requires WellBehaved(d) && Addressable(jobs) && BothPass(jobs)
    ensures var s := Run(d, Boot(r), events, jobs);
            !s.late ==>
              && !s.broken && !s.faulted
              && (s.regs.enable || s.ep.Busy? || s.owed ==>
                    s.stage.Polling? && s.pinned == PinnedPage(Job(s.turn, jobs)))
              && (s.pinned == None ==> !s.regs.enable && s.ep.Idle?)
  {
    RunKeepsInv(d, Boot(r), events, jobs);
  }

  /** What a busy endpoint works on is the current transaction as the application means it: a write in
      the first and a read in the second, of 1024 double words at the address of the pinned page. */
  lemma {:induction false} ServedAsProgrammed(d: Device, r: Registers, events: seq<Event>,
                                              jobs: (Transfer, Transfer))
    requires WellBehaved(d) && Addressable(jobs) && BothPass(jobs)
    ensures var s := Run(d, Boot(r), events, jobs);
            !s.late && s.ep.Busy? ==>
              && s.turn < 2 && s.pinned.Some?
              && s.ep.r.opcode == (if s.turn == 0 then 1 else 0)
              && s.ep.r.count == 1024
              && s.ep.r.high * 0x1_0000_0000 + s.ep.r.low == s.pinned.value * 4096
  {
    RunKeepsInv(d, Boot(r), events, jobs);
    AddressReassembled(Phys(jobs.0));
    AddressReassembled(Phys(jobs.1));
  }

  // ----- every endpoint, every outcome of the PINs -----

  const CLEAR := Registers(0, 0, 0, 0, false, false)

  /** What holds whatever the endpoint does: the opcode is that of the transaction, the host polls at
      most ten times, and only FREE of a block that PIN did not fill in can fault. */
  ghost predicate InOrder(s: System, jobs: (Transfer, Transfer)) {
    && s.turn <= 2
    && (s.turn == 2 ==> s.stage == Writing(0))
    && (s.stage.Writing? ==> s.stage.n <= 5)
    && (s.stage.Polling? ==> s.stage.polls <= 10)
    && (s.turn < 2 && (s.stage.Polling? || s.stage == Writing(5)) ==>
          s.regs.opcode == if s.turn == 0 then 1 else 0)
    && (1 <= s.turn ==> Freeable(jobs.0))
    && (s.turn == 2 ==> Freeable(jobs.1))
    && (s.faulted ==> s.turn < 2 && !Freeable(Job(s.turn, jobs)))
  }

  /** Steps `main` still has to take at most: in each transaction six before polling, ten polls and
      FREE. */
  function Left(s: System): nat {
    if 2 <= s.turn || s.faulted then 0
    else (1 - s.turn) * 17 + LeftOf(s.stage)
  }

  function LeftOf(stage: Stage): nat {
    match stage
    case Writing(n) => if n < 6 then 17 - n else 11
    case Polling(polls, isDone) => if isDone || 10 <= polls then 1 else 11 - polls
  }

  function Hosts(n: nat): seq<Event> {
    if n == 0 then [] else [Host] + Hosts(n - 1)
  }

  function HostTurns(events: seq<Event>): nat {
    if events == [] then 0 else (if events[0] == Host then 1 else 0) + HostTurns(events[1..])
  }

  lemma {:induction false} HostInOrder(d: Device, s: System, jobs: (Transfer, Transfer))
    requires InOrder(s, jobs)
    ensures InOrder(HostStep(d, s, Job(s.turn, jobs)), jobs)
  {
    hide Freeable, High, Low, Phys, PinnedPage;
  }

  lemma {:induction false} HostLeft(d: Device, s: System, t: Transfer)
    requires s.turn <= 2 && (s.stage.Writing? ==> s.stage.n <= 5)
    ensures Left(HostStep(d, s, t)) <= if Left(s) == 0 then 0 else Left(s) - 1
  {
    hide Freeable, High, Low, Phys, PinnedPage;
  }

  lemma {:induction false} StepInOrder(d: Device, s: System, e: Event, jobs: (Transfer, Transfer))
    requires InOrder(s, jobs)
    ensures var s' := Step(d, s, e, jobs);
            InOrder(s', jobs) && Left(s') <= Left(s) - (if e == Host && 0 < Left(s) then 1 else 0)
  {
    hide Freeable, HostStep;
    HostInOrder(d, s, jobs);
    HostLeft(d, s, Job(s.turn, jobs));
  }

  lemma {:induction false} RunInOrder(d: Device, s: System, events: seq<Event>, jobs: (Transfer, Transfer))
    requires InOrder(s, jobs)
    ensures var s' := Run(d, s, events, jobs);
            InOrder(s', jobs) && Left(s') <= if HostTurns(events) < Left(s) then Left(s) - HostTurns(events) else 0
    decreases events
  {
    hide InOrder, Left, Step;
    if events == [] {
    } else {
      StepInOrder(d, s, events[0], jobs);
      RunInOrder(d, Step(d, s, events[0], jobs), events[1..], jobs);
    }
  }

  /** In every run: once the opcode has been written, it is 1 in the first transaction and 0 in the
      second, and no transaction is polled more than ten times. */
  lemma {:induction false} OpcodeAndPolls(d: Device, r: Registers, events: seq<Event>,
                                          jobs: (Transfer, Transfer))
    ensures var s := Run(d, Boot(r), events, jobs);
            && s.turn <= 2
            && (s.turn < 2 && (s.stage.Polling? || s.stage.n >= 5) ==>
                  s.regs.opcode == if s.turn == 0 then 1 else 0)
            && (s.stage.Polling? ==> s.stage.polls <= 10)
  {
    RunInOrder(d, Boot(r), events, jobs);
  }

  /** Whatever the endpoint does, the application ends within 34 turns. It does so by a fault exactly
      if one of its PINs fails and left garbage in the block. */
  lemma {:induction false} Ends(d: Device, r: Registers, events: seq<Event>, jobs: (Transfer, Transfer),
                                refs: map<Page, int>)
    requires BothPinnable(jobs, refs) && 34 <= HostTurns(events)
    ensures var s := Run(d, Boot(r), events, jobs);
            && (s.turn == 2 <==> !s.faulted)
            && (s.faulted <==> Garbage(jobs.0) || Garbage(jobs.1))
  {
    hide Freeable, Garbage, Run, Pinnable;
    RunInOrder(d, Boot(r), events, jobs);
    GarbageFaults(jobs.0, refs);
    GarbageFaults(jobs.1, refs);
  }

  /** PIN fails, and the block has a pages pointer, or a count of pages, of its own. */
  predicate Garbage(t: Transfer) {
    && !(t.w.allocOk && t.w.pinned == 1)
    && (t.arg.pages != 0 || 0 < t.arg.pinned)
  }

  lemma {:induction false} GarbageFaults(t: Transfer, refs: map<Page, int>)
    requires Pinnable(t, refs)
    ensures Garbage(t) <==> !Freeable(t)
  {
    assert PagesNr(t.arg.buf, t.arg.len) == 1;
  }

  /** Nothing has answered the application, and nothing has stopped it. */
  ghost predicate Waiting(s: System) {
    && s.turn <= 2 && !s.regs.done && !s.faulted
    && match s.stage
       case Writing(n) => n <= 5
       case Polling(polls, isDone) => polls <= 10 && !isDone && s.turn < 2
  }

  lemma {:induction false} WaitingStep(d: Device, s: System, t: Transfer)
    requires Waiting(s) && Freeable(t)
    ensures var s' := HostStep(d, s, t);
            Waiting(s') && Left(s') == if Left(s) == 0 then 0 else Left(s) - 1
  {
    hide Freeable, High, Low, Phys, PinnedPage;
  }

  lemma {:induction false} Unanswered(d: Device, s: System, n: nat, jobs: (Transfer, Transfer))
    requires Waiting(s) && Freeable(jobs.0) && Freeable(jobs.1)
    ensures var s' := Run(d, s, Hosts(n), jobs);
            Waiting(s') && Left(s') == if n < Left(s) then Left(s) - n else 0
    decreases n
  {
    hide Freeable, Waiting, Left, HostStep, EndpointStep;
    if n == 0 {
    } else {
      WaitingStep(d, s, Job(s.turn, jobs));
      assert Hosts(n)[1..] == Hosts(n - 1);
      Unanswered(d, Step(d, s, Host, jobs), n - 1, jobs);
    }
  }

  /** Against an endpoint that does nothing it takes all 34 turns, so the host polls ten times in each
      transaction. */
  lemma {:induction false} TakesThirtyFour(d: Device, n: nat, jobs: (Transfer, Transfer))
    requires Freeable(jobs.0) && Freeable(jobs.1)
    ensures Run(d, Boot(CLEAR), Hosts(n), jobs).turn == 2 <==> 34 <= n
  {
    hide Freeable, Run;
    Unanswered(d, Boot(CLEAR), n, jobs);
  }

  // ----- what goes wrong otherwise -----

  /** The six programming steps and what follows. */
  function Programming(rest: seq<Event>): seq<Event> {
    [Host, Host, Host, Host] + ([Host] + ([Host] + rest))
  }

  /** The state after the six programming steps. */
  function Started(d: Device, s: System, t: Transfer): System {
    s.(stage := Polling(0, false), pinned := PinnedPage(t), owed := true,
       regs := Registers(High(Phys(t)), Low(Phys(t)), DWORDS, if s.turn == 0 then 1 else 0, true,
                         s.regs.done && !d.clearsDone))
  }

  lemma {:induction false} ProgramAll(d: Device, s: System, rest: seq<Event>, jobs: (Transfer, Transfer))
    requires s.turn < 2 && !s.faulted && s.stage == Writing(0)
    ensures Run(d, s, Programming(rest), jobs) == Run(d, Started(d, s, Job(s.turn, jobs)), rest, jobs)
  {
    hide High, Low, Phys, PinnedPage;
    var step := Stepper(d, jobs);
    var t := Job(s.turn, jobs);
    Runs.FourTurns(step, s, Host, Host, Host, Host, [Host] + ([Host] + rest));
    var s4 := s.(stage := Writing(4), pinned := PinnedPage(t),
                 regs := s.regs.(high := High(Phys(t)), low := Low(Phys(t)), count := DWORDS));
    assert step(step(step(step(s, Host), Host), Host), Host) == s4;
    Runs.Turn(step, s4, Host, [Host] + rest);
    Runs.Turn(step, step(s4, Host), Host, rest);
  }

  /** With nothing pinned, an enabled endpoint can touch a page at once. */
  lemma {:induction false} TouchUnpinned(d: Device, s: System, jobs: (Transfer, Transfer))
    requires s.pinned == None && s.ep.Idle? && s.regs.enable && 0 < s.regs.count
    ensures var s' := Run(d, s, [Fetch] + ([Touch(0)] + []), jobs); s'.broken && s'.late == s.late
  {
    Runs.Turn(Stepper(d, jobs), s, Fetch, [Touch(0)] + []);
    Runs.Turn(Stepper(d, jobs), Stepper(d, jobs)(s, Fetch), Touch(0), []);
  }

  /** The host goes on although its first PIN failed. */
  lemma {:induction false} FirstPinFails(d: Device, jobs: (Transfer, Transfer))
    requires !Passes(jobs.0)
    ensures !Safe(d, jobs)
  {
    var rest := [Fetch] + ([Touch(0)] + []);
    ProgramAll(d, Boot(CLEAR), rest, jobs);
    TouchUnpinned(d, Started(d, Boot(CLEAR), jobs.0), jobs);
    assert Run(d, Boot(CLEAR), Programming(rest), jobs).broken;
  }

  /** Polling a busy endpoint that has latency left. */
  lemma {:induction false} PollBusy(d: Device, s: System, n: nat, polls: nat, rest: seq<Event>,
                                    jobs: (Transfer, Transfer))
    requires s.turn < 2 && !s.faulted && s.stage == Polling(polls, false) && s.ep.Busy? && !s.regs.done
    requires polls + n <= MAX_POLLS <= d.latency
    ensures Run(d, s, Hosts(n) + rest, jobs) == Run(d, s.(stage := Polling(polls + n, false)), rest, jobs)
    decreases n
  {
    if n == 0 {
      assert Hosts(0) + rest == rest;
    } else {
      assert Hosts(n) + rest == [Host] + (Hosts(n - 1) + rest);
      Runs.Turn(Stepper(d, jobs), s, Host, Hosts(n - 1) + rest);
      PollBusy(d, s.(stage := Polling(polls + 1, false)), n - 1, polls + 1, rest, jobs);
    }
  }

  /** An endpoint that is still busy at the tenth poll touches a freed page. */
  lemma {:induction false} TooSlow(d: Device, jobs: (Transfer, Transfer))
    requires MAX_POLLS <= d.latency && Passes(jobs.0)
    ensures !Safe(d, jobs)
  {
    hide High, Low, Phys, Passes;
    var step := Stepper(d, jobs);
    var late := [Host] + ([Touch(0)] + []);
    ProgramAll(d, Boot(CLEAR), [Fetch] + (Hosts(10) + late), jobs);
    var s0 := Started(d, Boot(CLEAR), jobs.0);
    Runs.Turn(step, s0, Fetch, Hosts(10) + late);
    var s1 := step(s0, Fetch);
    PollBusy(d, s1, 10, 0, late, jobs);
    var s2 := s1.(stage := Polling(10, false));
    Runs.Turn(step, s2, Host, [Touch(0)] + []);
    Runs.Turn(step, step(s2, Host), Touch(0), []);
    assert Run(d, Boot(CLEAR), Programming([Fetch] + (Hosts(10) + late)), jobs).broken;
  }

  /** The state after a first transaction served before the first poll: `done` is still set. */
  function Second(d: Device, jobs: (Transfer, Transfer)): System {
    var phys := Phys(jobs.0);
    System(1, Writing(0), Registers(High(phys), Low(phys), DWORDS, 1, !d.oneShot, true), None, Idle,
           false, false, false, false)
  }

  lemma {:induction false} FirstTransaction(d: Device, rest: seq<Event>, jobs: (Transfer, Transfer))
    requires Passes(jobs.0)
    ensures Run(d, Boot(CLEAR), Programming([Fetch, Complete, Host, Host] + rest), jobs)
            == Run(d, Second(d, jobs), rest, jobs)
  {
    hide High, Low, Phys, Passes;
    ProgramAll(d, Boot(CLEAR), [Fetch, Complete, Host, Host] + rest, jobs);
    Runs.FourTurns(Stepper(d, jobs), Started(d, Boot(CLEAR), jobs.0), Fetch, Complete, Host, Host, rest);
  }

  /** The host goes on although its second PIN failed. */
  lemma {:induction false} SecondPinFails(d: Device, jobs: (Transfer, Transfer))
    requires Passes(jobs.0) && !Passes(jobs.1)
    ensures !Safe(d, jobs)
  {
    var rest := Programming([Fetch] + ([Touch(0)] + []));
    FirstTransaction(d, rest, jobs);
    ProgramAll(d, Second(d, jobs), [Fetch] + ([Touch(0)] + []), jobs);
    TouchUnpinned(d, Started(d, Second(d, jobs), jobs.1), jobs);
    assert Run(d, Boot(CLEAR), Programming([Fetch, Complete, Host, Host] + rest), jobs).broken;
  }

  /** A `done` left over from the first transaction ends the second one's polling at once, and the
      endpoint then touches a freed page. */
  lemma {:induction false} StaleDone(d: Device, jobs: (Transfer, Transfer))
    requires !d.clearsDone && 0 < d.latency && BothPass(jobs)
    ensures !Safe(d, jobs)
  {
    hide High, Low, Phys, Passes;
    var rest := Programming([Host, Host, Fetch, Touch(0)] + []);
    FirstTransaction(d, rest, jobs);
    ProgramAll(d, Second(d, jobs), [Host, Host, Fetch, Touch(0)] + [], jobs);
    Runs.FourTurns(Stepper(d, jobs), Started(d, Second(d, jobs), jobs.1), Host, Host, Fetch, Touch(0), []);
    assert Run(d, Boot(CLEAR), Programming([Fetch, Complete, Host, Host] + rest), jobs).broken;
  }

  /** The application never takes `enable` back: an endpoint that does not either serves the first
      transaction again and touches a freed page. */
  lemma {:induction false} ServedAgain(d: Device, jobs: (Transfer, Transfer))
    requires !d.oneShot && Passes(jobs.0)
    ensures !Safe(d, jobs)
  {
    var rest := [Fetch] + ([Touch(0)] + []);
    FirstTransaction(d, rest, jobs);
    TouchUnpinned(d, Second(d, jobs), jobs);
    assert Run(d, Boot(CLEAR), Programming([Fetch, Complete, Host, Host] + rest), jobs).broken;
  }

  /** For any endpoint and any two buffers: the page is pinned whenever the endpoint touches it, in
      every interleaving of both transactions, exactly if both PINs succeed and the endpoint serves
      each `enable` once and is either never found unfinished, or clears `done` on `enable` and is
      finished by the tenth poll. */
  lemma {:induction false} SafeExactlyWhen(d: Device, jobs: (Transfer, Transfer))
    requires Addressable(jobs)
    ensures Safe(d, jobs) <==> WellBehaved(d) && BothPass(jobs)
  {
    hide Run, Boot, Phys;
    if WellBehaved(d) && BothPass(jobs) {
      forall r, events ensures var s := Run(d, Boot(r), events, jobs); s.late || !s.broken {
        FreedAfterLastTouch(d, r, events, jobs);
      }
    } else if !Passes(jobs.0) {
      FirstPinFails(d, jobs);
    } else if !Passes(jobs.1) {
      SecondPinFails(d, jobs);
    } else if !d.oneShot {
      ServedAgain(d, jobs);
    } else if MAX_POLLS <= d.latency {
      TooSlow(d, jobs);
    } else {
      StaleDone(d, jobs);
    }
  }

  // ----- what the driver holds meanwhile -----

  /** The driver commands the host issues in one step: PIN, and FREE of the block a successful PIN
      gave back. FREE of the block that a failed one left alone is no command of a legal run. */
  function Issued(s: System, e: Event, jobs: (Transfer, Transfer)): seq<Command> {
    if e != Host || 2 <= s.turn || s.faulted then []
    else match s.stage
      case Writing(n) =>
        if n == 0 then [PinPage(Job(s.turn, jobs))] else []
      case Polling(polls, isDone) =>
        if (!isDone && polls < MAX_POLLS) || s.pinned == None then [] else [DoFree(0)]
  }

  function PinPage(t: Transfer): Command {
    DoPin(t.arg, t.w)
  }

  function Commands(d: Device, s: System, events: seq<Event>, jobs: (Transfer, Transfer)): seq<Command>
    decreases events
  {
    if events == [] then [] else
      Issued(s, events[0], jobs) + Commands(d, Step(d, s, events[0], jobs), events[1..], jobs)
  }

  lemma {:induction false} NothingIssued(s: System, e: Event, jobs: (Transfer, Transfer))
    requires e != Host
    ensures Issued(s, e, jobs) == []
  {
  }

  /** The driver's live pin, if any, is that of the page pinned for the current transaction. */
  ghost predicate Follows(k: State, s: System, base: map<Page, int>, jobs: (Transfer, Transfer)) {
    && Conserved(k, base)
    && s.turn <= 2 && (s.turn == 2 ==> s.stage == Writing(0))
    && (s.stage.Writing? ==> s.stage.n <= 5)
    && s.pinned == (if s.stage == Writing(0) then None else PinnedPage(Job(s.turn, jobs)))
    && (match s.pinned
        case None => k.live == []
        case Some(f) => |k.live| == 1 && k.live[0].frames == [f])
  }

  lemma {:induction false} OneCommand(k: State, c: Command)
    requires Legal(k, c)
    ensures LegalRun(k, [c]) && PagePin.Run(k, [c]) == Do(k, c)
  {
  }

  lemma {:induction false} NoCommand(k: State)
    ensures LegalRun(k, []) && PagePin.Run(k, []) == k
  {
  }

  /** A successful PIN of the application pins one page. */
  lemma {:induction false} OnePage(t: Transfer, refs: map<Page, int>)
    requires Passes(t) && Pinnable(t, refs)
    ensures t.w.frames == [t.w.frames[0]] && t.w.pinned == 1 && t.w.frames[0] in refs
  {
    assert PagesNr(t.arg.buf, t.arg.len) == 1;
  }

  lemma {:induction false} PinOne(k: State, t: Transfer, base: map<Page, int>)
    requires Conserved(k, base) && k.live == [] && Pinnable(t, base)
    ensures Legal(k, PinPage(t))
    ensures PinOutcome(t.arg, t.w) == if Passes(t) then Ret(0) else Ret(-EINVAL)
    ensures var k' := Do(k, PinPage(t));
            Conserved(k', base) && k'.live == if Passes(t) then [Pin(k.next, [t.w.frames[0]])] else []
  {
    if Passes(t) {
      OnePage(t, base);
    }
    assert k.refs.Keys == base.Keys;
    assert PagesNr(t.arg.buf, t.arg.len) == 1;
    StepConserves(k, PinPage(t), base);
  }

  lemma {:induction false} FreeOne(k: State, base: map<Page, int>)
    requires Conserved(k, base) && |k.live| == 1
    ensures Legal(k, DoFree(0))
    ensures var k' := Do(k, DoFree(0)); Conserved(k', base) && k'.live == []
  {
    StepConserves(k, DoFree(0), base);
  }

  lemma {:induction false} HostFollows(d: Device, k: State, s: System, jobs: (Transfer, Transfer),
                                       base: map<Page, int>)
    requires Follows(k, s, base, jobs) && BothPinnable(jobs, base)
    ensures var cs := Issued(s, Host, jobs);
            LegalRun(k, cs) && Follows(PagePin.Run(k, cs), HostStep(d, s, Job(s.turn, jobs)), base, jobs)
  {
    hide Conserved, PinPage, LegalRun, PagePin.Run, Legal, Do, Phys, High, Low, Passes, PinOutcome, Pinnable;
    NoCommand(k);
    if s.turn < 2 && s.stage == Writing(0) {
      PinOne(k, Job(s.turn, jobs), base);
      OneCommand(k, PinPage(Job(s.turn, jobs)));
    } else if Issued(s, Host, jobs) != [] {
      FreeOne(k, base);
      OneCommand(k, DoFree(0));
    }
  }

  lemma {:induction false} StepFollows(d: Device, k: State, s: System, e: Event, jobs: (Transfer, Transfer),
                                       base: map<Page, int>)
    requires Follows(k, s, base, jobs) && BothPinnable(jobs, base)
    ensures var cs := Issued(s, e, jobs);
            LegalRun(k, cs) && Follows(PagePin.Run(k, cs), Step(d, s, e, jobs), base, jobs)
  {
    hide Conserved, LegalRun, PagePin.Run, HostStep, PinnedPage;
    if e == Host {
      HostFollows(d, k, s, jobs, base);
    } else {
      NoCommand(k);
    }
  }

  lemma {:induction false} LegalConcat(k: State, a: seq<Command>, b: seq<Command>)
    requires LegalRun(k, a) && LegalRun(PagePin.Run(k, a), b)
    ensures LegalRun(k, a + b) && PagePin.Run(k, a + b) == PagePin.Run(PagePin.Run(k, a), b)
    decreases a
  {
    if a == [] {
      assert a + b == b;
    } else {
      assert (a + b)[1..] == a[1..] + b;
      LegalConcat(Do(k, a[0]), a[1..], b);
    }
  }

  lemma {:induction false} RunFollows(d: Device, k: State, s: System, events: seq<Event>,
                                      jobs: (Transfer, Transfer), base: map<Page, int>)
    requires Follows(k, s, base, jobs) && BothPinnable(jobs, base)
    ensures var cs := Commands(d, s, events, jobs);
            LegalRun(k, cs) && Follows(PagePin.Run(k, cs), Run(d, s, events, jobs), base, jobs)
    decreases events
  {
    hide Follows, Issued, Step;
    if events == [] {
    } else {
      StepFollows(d, k, s, events[0], jobs, base);
      var cs := Issued(s, events[0], jobs);
      var s' := Step(d, s, events[0], jobs);
      RunFollows(d, PagePin.Run(k, cs), s', events[1..], jobs, base);
      LegalConcat(k, cs, Commands(d, s', events[1..], jobs));
    }
  }

  /** What the driver's counts are while its live pin follows the application. */
  lemma {:induction false} FollowedCounts(k: State, s: System, base: map<Page, int>, jobs: (Transfer, Transfer))
    requires Follows(k, s, base, jobs)
    ensures s.pinned == None ==> k.refs == base
    ensures s.pinned.Some? && s.pinned.value in base ==>
              s.pinned.value in k.refs && k.refs[s.pinned.value] == base[s.pinned.value] + 1
  {
    if s.pinned == None {
      PlusNothing(base);
    } else {
      assert k.live[..0] == [];
      assert Held(k.live) == multiset([s.pinned.value]);
    }
  }

  /** Application, driver and endpoint together: whatever the interleaving, after the last FREE every
      page is back at its initial count, for any outcome of the two PINs. For any two buffers that get
      pinned, the page behind every double word the endpoint may touch has one reference more than it
      started with. */
  lemma {:induction false} TouchedPageIsReferenced(d: Device, r: Registers, events: seq<Event>,
                                                   jobs: (Transfer, Transfer), base: map<Page, int>, n: nat)
    requires BothPinnable(jobs, base)
    ensures var s := Run(d, Boot(r), events, jobs);
            var cs := Commands(d, Boot(r), events, jobs);
            && LegalRun(State(base, [], 1), cs)
            && var refs := PagePin.Run(State(base, [], 1), cs).refs;
            && (s.turn == 2 ==> refs == base)
            && (WellBehaved(d) && Addressable(jobs) && BothPass(jobs) && !s.late ==>
                  (s.ep.Busy? && n < s.ep.r.count ==>
                     var page := Target(s.ep.r, n) / PAGE_SIZE;
                     page in refs && page in base && refs[page] == base[page] + 1))
  {
    hide Passes, Phys, LegalRun, PagePin.Run, Commands, Run;
    var k, s := State(base, [], 1), Run(d, Boot(r), events, jobs);
    PlusNothing(base);
    RunFollows(d, k, Boot(r), events, jobs, base);
    FollowedCounts(PagePin.Run(k, Commands(d, Boot(r), events, jobs)), s, base, jobs);
    if WellBehaved(d) && Addressable(jobs) && BothPass(jobs) && !s.late {
      RunKeepsInv(d, Boot(r), events, jobs);
      OnePage(Job(s.turn, jobs), base);
      if s.ep.Busy? && n < s.ep.r.count {
        TouchesThePage(s.ep.r, Job(s.turn, jobs), s.turn, n);
      }
    }
  }

  // ----- application, driver and endpoint themselves -----

  /** The application's block is what PIN made of it, and the driver's live pin is the one reported. */
  ghost predicate Holds(live: seq<Pin>, t: Transfer, iocb: IoCb) {
    && iocb == Block(t, iocb.pages)
    && (Passes(t) ==> live == [Pin(iocb.pages, [t.w.frames[0]])])
  }

  lemma {:induction false} AddressFound(live: seq<Pin>, t: Transfer, iocb: IoCb)
    requires Holds(live, t, iocb)
    ensures iocb.physAddr == Phys(t)
  {
  }

  /** The state of `main`, the driver it calls and the memory-mapped registers, updated in place one
      access at a time. */
  class Rig {
    const device: Device
    const driver: Driver
    /** The block handed to the driver and filled in by it. */
    var iocb: IoCb
    var turn: nat
    var stage: Stage
    var regs: Registers
    var ep: Endpoint
    var faulted: bool
    ghost var pinned: Option<Page>
    ghost var owed: bool
    ghost var late: bool
    ghost var broken: bool

    ghost function View(): System
      reads this
    {
      System(turn, stage, regs, pinned, ep, faulted, owed, late, broken)
    }

    ghost predicate Valid(jobs: (Transfer, Transfer), base: map<Page, int>)
      reads this, driver
    {
      && driver.Valid() && driver.lost == {}
      && (faulted ==> turn < 2 && !Freeable(Job(turn, jobs)))
      && (!faulted ==> Follows(driver.View(), View(), base, jobs))
      && (!faulted && stage != Writing(0) ==> Holds(driver.live, Job(turn, jobs), iocb))
    }

    constructor (d: Device, r: Registers, jobs: (Transfer, Transfer), base: map<Page, int>)
      ensures View() == Boot(r) && device == d
      ensures fresh(driver) && driver.View() == State(base, [], 1) && Valid(jobs, base)
    {
      driver := new Driver(base);
      device, iocb := d, jobs.0.arg;
      turn, stage, regs, ep := 0, Writing(0), r.(enable := false), Idle;
      pinned, faulted, owed, late, broken := None, false, false, false, false;
      new;
      PlusNothing(base);
    }

    /** PIN of the block of a transaction, which is overwritten with what PIN reports if it succeeds.
        The result is not looked at. */
    method PinTurn(jobs: (Transfer, Transfer), ghost base: map<Page, int>)
      requires Valid(jobs, base) && BothPinnable(jobs, base)
      requires turn < 2 && !faulted && stage == Writing(0)
      modifies this, driver
      ensures Valid(jobs, base) && !faulted
      ensures View() == HostStep(device, old(View()), Job(old(turn), jobs))
      ensures Legal(old(driver.View()), PinPage(Job(old(turn), jobs)))
      ensures driver.View() == Do(old(driver.View()), PinPage(Job(old(turn), jobs)))
    {
      hide Conserved, Legal, Do, ArraysMatch, Passes, PinOutcome, Pinnable, Freeable;
      var t := Job(turn, jobs);
      PinOne(driver.View(), t, base);
      iocb := t.arg;
      var _, iocb' := driver.IoctlPin(iocb, t.w);
      iocb, pinned, stage := iocb', PinnedPage(t), Writing(1);
    }

    /** FREE with the block as PIN left it. */
    method FreeTurn(jobs: (Transfer, Transfer), ghost base: map<Page, int>)
      requires Valid(jobs, base) && BothPinnable(jobs, base)
      requires turn < 2 && !faulted && stage.Polling? && (stage.isDone || MAX_POLLS <= stage.polls)
      modifies this, driver
      ensures Valid(jobs, base)
      ensures View() == HostStep(device, old(View()), Job(old(turn), jobs))
      ensures !faulted ==> LegalRun(old(driver.View()), Issued(old(View()), Host, jobs))
      ensures !faulted ==>
                driver.View() == PagePin.Run(old(driver.View()), Issued(old(View()), Host, jobs))
    {
      hide Conserved, Legal, LegalRun, PagePin.Run, Do, ArraysMatch, Minus, Removed, Pinnable;
      ghost var k, t := driver.View(), Job(turn, jobs);
      NoCommand(k);
      if Passes(t) {
        OnePage(t, base);
        FreeOne(k, base);
        OneCommand(k, DoFree(0));
      } else {
        ArraysAre(driver.live, driver.lost, driver.arrays, driver.refs.Keys, driver.next);
        assert driver.arrays == map[];
      }
      var out := driver.IoctlFree(iocb, base);
      if out == Fault {
        faulted := true;
      } else {
        stage, turn, pinned := Writing(0), turn + 1, None;
      }
    }

    /** One of the five register writes. */
    method WriteRegister(jobs: (Transfer, Transfer))
      requires turn < 2 && !faulted && stage.Writing? && stage != Writing(0)
      requires iocb.physAddr == Phys(Job(turn, jobs))
      modifies this
      ensures View() == HostStep(device, old(View()), Job(old(turn), jobs)) && iocb == old(iocb)
    {
      hide Phys;
      var n := stage.n;
      if n == 1 {
        regs := regs.(high := (iocb.physAddr / TWO_TO_32) % TWO_TO_32);
      } else if n == 2 {
        regs := regs.(low := (iocb.physAddr % TWO_TO_32) % TWO_TO_32);
      } else if n == 3 {
        regs := regs.(count := DWORDS);
      } else if n == 4 {
        regs := regs.(opcode := if turn == 0 then 1 else 0);
      } else {
        regs := regs.(enable := true, done := if device.clearsDone then false else regs.done);
        owed := true;
      }
      stage := if n < 5 then Writing(n + 1) else Polling(0, false);
    }

    /** One register write or one poll. */
    method RegisterTurn(jobs: (Transfer, Transfer), ghost base: map<Page, int>)
      requires Valid(jobs, base) && BothPinnable(jobs, base)
      requires turn < 2 && !faulted && stage != Writing(0)
      requires stage.Polling? ==> !stage.isDone && stage.polls < MAX_POLLS
      modifies this
      ensures Valid(jobs, base) && driver.View() == old(driver.View())
      ensures View() == HostStep(device, old(View()), Job(old(turn), jobs))
    {
      hide Follows, LegalRun, PagePin.Run, ArraysMatch, Passes, Freeable, Holds, Phys, BothPinnable, High, Low;
      StepFollows(device, driver.View(), View(), Host, jobs, base);
      NoCommand(driver.View());
      if stage.Writing? {
        AddressFound(driver.live, Job(turn, jobs), iocb);
        WriteRegister(jobs);
      } else {
        late := late || (owed && device.latency <= stage.polls);
        stage := Polling(stage.polls + 1, regs.done);
      }
    }

    /** The next access of `main`: PIN, one register write, one poll, or FREE. */
    method HostTurn(jobs: (Transfer, Transfer), ghost base: map<Page, int>)
      requires Valid(jobs, base) && BothPinnable(jobs, base)
      modifies this, driver
      ensures Valid(jobs, base) && (old(faulted) ==> faulted)
      ensures View() == HostStep(device, old(View()), Job(old(turn), jobs))
      ensures !faulted ==> LegalRun(old(driver.View()), Issued(old(View()), Host, jobs))
      ensures !faulted ==>
                driver.View() == PagePin.Run(old(driver.View()), Issued(old(View()), Host, jobs))
    {
      hide Conserved, LegalRun, PagePin.Run, Legal, Do, ArraysMatch, Passes, Freeable, Pinnable;
      NoCommand(driver.View());
      if 2 <= turn || faulted {
        return;
      }
      if stage == Writing(0) {
        PinTurn(jobs, base);
        OneCommand(old(driver.View()), PinPage(Job(old(turn), jobs)));
      } else if stage.Polling? && (stage.isDone || MAX_POLLS <= stage.polls) {
        FreeTurn(jobs, base);
      } else {
        RegisterTurn(jobs, base);
      }
    }

    /** The next step of the endpoint, which does not reach the driver. */
    method EndpointTurn(e: Event, ghost jobs: (Transfer, Transfer), ghost base: map<Page, int>)
      requires Valid(jobs, base) && e != Host
      modifies this
      ensures Valid(jobs, base) && driver.View() == old(driver.View()) && faulted == old(faulted)
      ensures View() == EndpointStep(device, old(View()), e)
    {
      hide Conserved, ArraysMatch, Holds;
      match e
      case Host =>
      case Fetch =>
        if ep.Idle? && regs.enable {
          ep := Busy(regs);
          regs := regs.(enable := !device.oneShot);
        }
      case Touch(k) =>
        if ep.Busy? && k < ep.r.count && pinned != Some(Target(ep.r, k) / PAGE_SIZE) {
          broken := true;
        }
      case Complete =>
        if ep.Busy? {
          ep := Idle;
          regs := regs.(done := true);
          owed := false;
        }
    }
  }

  /** `main` and an endpoint take turns as a schedule says. */
  method Play(rig: Rig, events: seq<Event>, jobs: (Transfer, Transfer), ghost base: map<Page, int>)
    requires rig.Valid(jobs, base) && BothPinnable(jobs, base)
    modifies rig, rig.driver
    ensures rig.Valid(jobs, base) && (old(rig.faulted) ==> rig.faulted)
    ensures rig.View() == Run(rig.device, old(rig.View()), events, jobs)
    ensures !rig.faulted ==>
              var cs := Commands(rig.device, old(rig.View()), events, jobs);
              LegalRun(old(rig.driver.View()), cs) && rig.driver.View() == PagePin.Run(old(rig.driver.View()), cs)
    decreases |events|
  {
    hide Follows, LegalRun, PagePin.Run, Issued, HostStep, EndpointStep, ArraysMatch, Holds, Freeable;
    NoCommand(rig.driver.View());
    if events == [] {
      return;
    }
    ghost var k, s, e := rig.driver.View(), rig.View(), events[0];
    if events[0] == Host {
      rig.HostTurn(jobs, base);
    } else {
      rig.EndpointTurn(events[0], jobs, base);
      NothingIssued(s, e, jobs);
    }
    assert rig.View() == Step(rig.device, s, e, jobs);
    ghost var s' := rig.View();
    Play(rig, events[1..], jobs, base);
    if !rig.faulted {
      LegalConcat(k, Issued(s, e, jobs), Commands(rig.device, s', events[1..], jobs));
    }
  }

  /** The application on a fresh driver, against an endpoint with any register contents, for any
      outcome of the two PINs, under any schedule. */
  method Application(d: Device, r: Registers, jobs: (Transfer, Transfer), base: map<Page, int>,
                     schedule: seq<Event>)
    returns (refs: map<Page, int>, arrays: set<Ptr>, ended: bool, faulted: bool, ghost final: System)
    requires Addressable(jobs) && BothPinnable(jobs, base)
    ensures final == Run(d, Boot(r), schedule, jobs)
    ensures ended <==> final.turn == 2
    ensures faulted <==> final.faulted
    ensures !faulted ==>
              var cs := Commands(d, Boot(r), schedule, jobs);
              LegalRun(State(base, [], 1), cs) && refs == PagePin.Run(State(base, [], 1), cs).refs
    ensures faulted ==> !ended && !BothPass(jobs)
    ensures WellBehaved(d) && BothPass(jobs) && !final.late ==> !final.broken
    ensures ended ==> refs == base && arrays == {}
    ensures 34 <= HostTurns(schedule) ==>
              (ended <==> !faulted) && (faulted <==> Garbage(jobs.0) || Garbage(jobs.1))
  {
    hide ArraysMatch, Holds, Conserved, Run, Commands, PagePin.Run, LegalRun, Passes, Pinnable, Garbage;
    var rig := new Rig(d, r, jobs, base);
    Play(rig, schedule, jobs, base);
    ended, faulted, final := rig.turn == 2, rig.faulted, rig.View();
    refs, arrays := rig.driver.refs, rig.driver.arrays.Keys;
    if ended {
      FollowedCounts(rig.driver.View(), rig.View(), base, jobs);
      ArraysAre(rig.driver.live, rig.driver.lost, rig.driver.arrays, refs.Keys, rig.driver.next);
    }
    if WellBehaved(d) && BothPass(jobs) {
      FreedAfterLastTouch(d, r, schedule, jobs);
    }
    if 34 <= HostTurns(schedule) {
      Ends(d, r, schedule, jobs, base);
    }
  }
}
