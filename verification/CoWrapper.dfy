/**
  A coroutine wrapper and its entry function: the caller puts a request record on its stack,
  starts a coroutine and polls; the coroutine writes the result, clears `in_progress` and kicks
  the poller. Both sides advance one atomic step at a time, in any interleaving. The three
  closing steps of the entry function are a parameter, so that the order the source has can be
  compared with every other one.
 */
module CoWrapper {
  import Runs

  /** The statements of the entry function after the wrapped operation has returned. */
  datatype Action = WriteRet | ClearFlag | Kick

  /** Their order in the source. */
  const ENTRY: seq<Action> := [WriteRet, ClearFlag, Kick]

  /** `bdrv_poll_co`: become a waiter, test the flag, block until an event, return `ret`. */
  datatype Poller = Entering | Checking | Blocking | Leaving | Returned(value: int)

  /** Not entered yet, inside the wrapped operation, or past `done` of the closing actions. */
  datatype Coroutine = NotStarted | Running | After(done: nat)

  datatype State = State(
    live: bool,        // the record is still on the caller's stack
    inProgress: bool,
    ret: int,
    poller: Poller,
    co: Coroutine,
    waiting: bool,     // the poller is counted as a waiter
    kicked: bool,      // an event is queued for the poller
    broken: bool)      // the coroutine touched the record after it was gone

  /** `Poll`: the poller's next step, if it is not blocked. `Co`: the coroutine's next step, where
      inside the wrapped operation it may suspend and resume any number of times. `Finish`: the
      wrapped operation returns. `Other`: the blocked poller is woken by something else. */
  datatype Event = Poll | Co | Finish | Other

  const INIT := State(true, true, 0, Entering, NotStarted, false, false, false)

  function PollStep(s: State): State {
    match s.poller
    case Entering => s.(poller := Checking, waiting := true)
    case Checking => s.(poller := if s.inProgress then Blocking else Leaving)
    case Blocking => if s.kicked then s.(poller := Checking, kicked := false) else s
    case Leaving => s.(poller := Returned(s.ret), waiting := false, live := false)
    case Returned(_) => s
  }

  /** One closing action. The first two write to the record, the kick does not. */
  function Act(s: State, a: Action, result: int): State {
    match a
    case WriteRet => if s.live then s.(ret := result) else s.(broken := true)
    case ClearFlag => if s.live then s.(inProgress := false) else s.(broken := true)
    case Kick => if s.waiting then s.(kicked := true) else s
  }

  function CoStep(code: seq<Action>, s: State, result: int): State {
    match s.co
    case NotStarted => if s.live then s.(co := Running) else s.(broken := true)
    case Running => s
    case After(k) => if k < |code| then Act(s, code[k], result).(co := After(k + 1)) else s
  }

  function Step(code: seq<Action>, s: State, e: Event, result: int): State {
    match e
    case Poll => PollStep(s)
    case Co => CoStep(code, s, result)
    case Finish => if s.co.Running? then s.(co := After(0)) else s
    case Other => if s.poller.Blocking? then s.(poller := Checking) else s
  }

  function Stepper(code: seq<Action>, result: int): (State, Event) -> State {
    (s: State, e: Event) => Step(code, s, e, result)
  }

  function Run(code: seq<Action>, s: State, events: seq<Event>, result: int): State {
    Runs.Run(Stepper(code, result), s, events)
  }

  function Count(events: seq<Event>, e: Event): nat {
    if events == [] then 0 else (if events[0] == e then 1 else 0) + Count(events[1..], e)
  }

  // ----- the order of the source -----

  ghost predicate Inv(s: State, result: int) {
    && !s.broken
    && (s.co.After? ==> s.co.done <= 3)
    && (s.inProgress <==> !s.co.After? || s.co.done < 2)
    && (s.co.After? && 1 <= s.co.done ==> s.ret == result)
    && (s.live <==> !s.poller.Returned?)
    && (s.poller.Leaving? || s.poller.Returned? ==> !s.inProgress)
    && (s.poller.Returned? ==> s.poller.value == result)
    && (s.waiting <==> s.poller.Checking? || s.poller.Blocking? || s.poller.Leaving?)
    // no lost wake-up
    && (s.poller.Blocking? && s.co == After(3) ==> s.kicked)
  }

  lemma {:induction false} InvHolds(s: State, events: seq<Event>, result: int)
    requires Inv(s, result)
    ensures Inv(Run(ENTRY, s, events, result), result)
    decreases events
  {
    if events == [] {
    } else {
      InvHolds(Step(ENTRY, s, events[0], result), events[1..], result);
    }
  }

  /** In every interleaving, with any number of suspensions and unrelated wake-ups: the coroutine
      never touches the record once the wrapper may have returned, the wrapper returns the result of
      the wrapped operation, and by then only the kick, which leaves the record alone, is left. */
  lemma {:induction false} RecordOutlivesCoroutine(events: seq<Event>, result: int)
    ensures var s := Run(ENTRY, INIT, events, result);
            && !s.broken
            && (s.poller.Returned? ==> s.poller.value == result && s.co.After? && 2 <= s.co.done)
            && (!s.live <==> s.poller.Returned?)
  {
    InvHolds(INIT, events, result);
  }

  /** The coroutine's steps are never undone. */
  lemma {:induction false} CoroutineAdvances(code: seq<Action>, s: State, events: seq<Event>, result: int)
    requires |code| == 3 && s.co.After? && s.co.done <= 3
    ensures var s' := Run(code, s, events, result);
            && s'.co.After? && s.co.done <= s'.co.done <= 3
            && (3 <= s.co.done + Count(events, Co) ==> s'.co.done == 3)
    decreases events
  {
    if events == [] {
    } else {
      CoroutineAdvances(code, Step(code, s, events[0], result), events[1..], result);
    }
  }

  /** Poller steps left once the coroutine is done. */
  function Left(p: Poller): nat {
    match p
    case Entering => 4
    case Blocking => 3
    case Checking => 2
    case Leaving => 1
    case Returned(_) => 0
  }

  lemma {:induction false} PollerAdvances(s: State, events: seq<Event>, result: int)
    requires Inv(s, result) && s.co == After(3)
    requires Left(s.poller) <= Count(events, Poll)
    ensures Run(ENTRY, s, events, result).poller == Returned(result)
    decreases events
  {
    if events == [] {
    } else {
      PollerAdvances(Step(ENTRY, s, events[0], result), events[1..], result);
    }
  }

  /** Once the wrapped operation has finished, giving the coroutine three turns and then the poller
      four, among any other events, ends the wait with the operation's result. */
  lemma {:induction false} WaitEnds(before: seq<Event>, es: seq<Event>, es': seq<Event>, result: int)
    requires Run(ENTRY, INIT, before, result).co.After?
    requires 3 <= Count(es, Co) && 4 <= Count(es', Poll)
    ensures Run(ENTRY, INIT, before + es + es', result).poller == Returned(result)
  {
    var s := Run(ENTRY, INIT, before, result);
    InvHolds(INIT, before, result);
    InvHolds(s, es, result);
    CoroutineAdvances(ENTRY, s, es, result);
    Runs.RunConcat(Stepper(ENTRY, result), INIT, before, es);
    Runs.RunConcat(Stepper(ENTRY, result), INIT, before + es, es');
    PollerAdvances(Run(ENTRY, s, es, result), es', result);
  }

  /** Steps the coroutine has taken. */
  function Started(co: Coroutine): nat {
    match co
    case NotStarted => 0
    case Running => 1
    case After(k) => 1 + k
  }

  /** Steps the poller has taken at least. */
  function Polled(p: Poller): nat {
    match p
    case Entering => 0
    case Checking => 1
    case Blocking => 2
    case Leaving => 2
    case Returned(_) => 3
  }

  lemma {:induction false} CoSteps(s: State, result: int)
    ensures var s' := CoStep(ENTRY, s, result);
            && Started(s'.co) <= Started(s.co) + 1 && s'.poller == s.poller
            && (s'.co.After? <==> s.co.After?)
  {
  }

  lemma {:induction false} PollSteps(s: State)
    ensures var s' := PollStep(s); Polled(s'.poller) <= Polled(s.poller) + 1 && s'.co == s.co
  {
  }

  lemma {:induction false} OneStep(s: State, e: Event, result: int)
    ensures var s' := Step(ENTRY, s, e, result);
            && Started(s'.co) <= Started(s.co) + (if e == Co then 1 else 0)
            && Polled(s'.poller) <= Polled(s.poller) + (if e == Poll then 1 else 0)
            && (s'.co.After? && !s.co.After? ==> e == Finish)
  {
    hide CoStep, PollStep;
    CoSteps(s, result);
    PollSteps(s);
  }

  lemma {:induction false} StepsTaken(s: State, events: seq<Event>, result: int)
    ensures var s' := Run(ENTRY, s, events, result);
            && Started(s'.co) <= Started(s.co) + Count(events, Co)
            && Polled(s'.poller) <= Polled(s.poller) + Count(events, Poll)
            && (s'.co.After? && !s.co.After? ==> Finish in events)
    decreases events
  {
    if events == [] {
    } else {
      hide Step, Started, Polled;
      OneStep(s, events[0], result);
      StepsTaken(Step(ENTRY, s, events[0], result), events[1..], result);
    }
  }

  /** The wrapper does not return before the wrapped operation has finished and the coroutine has
      been started, has written the result and cleared the flag, and it tests the flag itself. */
  lemma {:induction false} ReturnedAfterFinish(events: seq<Event>, result: int)
    requires Run(ENTRY, INIT, events, result).poller.Returned?
    ensures Finish in events && 3 <= Count(events, Co) && 3 <= Count(events, Poll)
  {
    StepsTaken(INIT, events, result);
    RecordOutlivesCoroutine(events, result);
  }

  // ----- every other order -----

  /** The three closing actions, once each, in some order. */
  predicate Permutes(code: seq<Action>) {
    |code| == 3 && code[0] != code[1] && code[1] != code[2] && code[0] != code[2]
  }

  /** No run touches a dead record or returns something else than the result. */
  ghost predicate Safe(code: seq<Action>) {
    forall events, result ::
      var s := Run(code, INIT, events, result);
      !s.broken && (s.poller.Returned? ==> s.poller.value == result)
  }

  /** Once the wrapped operation has finished, `budget` turns of the coroutine and then `budget` of
      the poller, among any other events, end the wait. */
  ghost predicate Live(code: seq<Action>, budget: nat) {
    forall before, es, es', result {:trigger Run(code, INIT, before + es + es', result)} ::
      Run(code, INIT, before, result).co.After? && budget <= Count(es, Co) && budget <= Count(es', Poll) ==>
        Run(code, INIT, before + es + es', result).poller.Returned?
  }

  /** A wrapper entered after the flag has been cleared but before the result is written. */
  lemma {:induction false} ReturnsEarly(code: seq<Action>, start: seq<Event>, n: nat)
    requires Permutes(code)
    requires 1 <= n <= 2 && code[n - 1] == ClearFlag && (n == 2 ==> code[0] == Kick)
    requires Run(code, INIT, start, 1)
             == INIT.(co := After(n), inProgress := false)
    ensures Run(code, INIT, start + ([Poll, Poll, Poll, Other] + ([Co, Co, Co, Co] + [])), 1).broken
  {
    var s := Run(code, INIT, start, 1);
    var step := Stepper(code, 1);
    Runs.RunConcat(step, INIT, start, [Poll, Poll, Poll, Other] + ([Co, Co, Co, Co] + []));
    Runs.FourTurns(step, s, Poll, Poll, Poll, Other, [Co, Co, Co, Co] + []);
    var s' := INIT.(co := After(n), inProgress := false, poller := Returned(0), live := false);
    assert PollStep(PollStep(PollStep(s))) == s';
    Runs.FourTurns(step, s', Co, Co, Co, Co, []);
  }

  /** Clearing the flag before the result is written lets the wrapper return too early, and the
      coroutine then writes into the dead record. */
  lemma {:induction false} ClearedTooEarly(code: seq<Action>)
    requires Permutes(code)
    requires code[0] == ClearFlag || (code[0] == Kick && code[1] == ClearFlag)
    ensures !Safe(code)
  {
    if code[0] == ClearFlag {
      Runs.FourTurns(Stepper(code, 1), INIT, Co, Finish, Co, Other, []);
      ReturnsEarly(code, [Co, Finish, Co, Other] + [], 1);
    } else {
      Runs.FourTurns(Stepper(code, 1), INIT, Co, Finish, Co, Co, []);
      ReturnsEarly(code, [Co, Finish, Co, Co] + [], 2);
    }
  }

  /** The poller is blocked, the coroutine is done, and no kick is on its way. */
  ghost predicate Stuck(s: State) {
    s.co == After(3) && s.poller.Blocking? && !s.kicked
  }

  /** Nothing either side does changes a stuck state: however long the run, only a wake-up from
      elsewhere could. */
  lemma {:induction false} StuckForEver(code: seq<Action>, s: State, events: seq<Event>, result: int)
    requires |code| == 3 && Stuck(s) && Other !in events
    ensures Run(code, s, events, result) == s
    decreases events
  {
    if events == [] {
    } else {
      assert Step(code, s, events[0], result) == s;
      StuckForEver(code, s, events[1..], result);
    }
  }

  function Repeat(e: Event, n: nat): seq<Event> {
    seq(n, _ => e)
  }

  lemma {:induction false} CountRepeat(e: Event, n: nat)
    ensures Count(Repeat(e, n), e) == n
  {
    if n == 0 {
    } else {
      assert Repeat(e, n)[1..] == Repeat(e, n - 1);
      CountRepeat(e, n - 1);
    }
  }

  lemma {:induction false} CountConcat(a: seq<Event>, b: seq<Event>, e: Event)
    ensures Count(a + b, e) == Count(a, e) + Count(b, e)
    decreases a
  {
    if a == [] {
      assert a + b == b;
    } else {
      assert (a + b)[1..] == a[1..] + b;
      CountConcat(a[1..], b, e);
    }
  }

  /** The poller blocked, the wrapped operation finished. */
  const BLOCKED := INIT.(co := After(0), poller := Blocking, waiting := true)

  /** The poller blocks while the wrapped operation is under way, and the operation finishes. */
  lemma {:induction false} BlockedAtFinish(code: seq<Action>, rest: seq<Event>)
    ensures Run(code, INIT, [Co, Poll, Poll, Finish] + rest, 1)
            == Run(code, BLOCKED, rest, 1)
  {
    Runs.FourTurns(Stepper(code, 1), INIT, Co, Poll, Poll, Finish, rest);
  }

  /** The kick comes among the first two closing actions, and the poller blocks again after it. */
  lemma {:induction false} BlockedAgain(code: seq<Action>)
    requires Permutes(code) && code[2] == ClearFlag
    ensures Run(code, BLOCKED, [Co, Co, Poll, Poll] + [Co], 1)
            == BLOCKED.(co := After(3), ret := 1, inProgress := false)
  {
    var s, step := BLOCKED, Stepper(code, 1);
    Runs.FourTurns(step, s, Co, Co, Poll, Poll, [Co]);
    assert step(step(s, Co), Co) == s.(co := After(2), ret := 1, kicked := true);
    Runs.Turn(step, s.(co := After(2), ret := 1), Co, []);
    assert [Co] + [] == [Co];
  }

  /** Kicking before the flag is cleared loses the wake-up: the poller is woken, finds the flag still
      set and blocks again, and the run is stuck. */
  lemma {:induction false} WakeUpLost(code: seq<Action>)
    requires Permutes(code) && code[2] == ClearFlag
    ensures Run(code, INIT, [Co, Poll, Poll, Finish], 1).co.After?
    ensures Stuck(Run(code, INIT, [Co, Poll, Poll, Finish] + ([Co, Co, Poll, Poll] + [Co]), 1))
  {
    assert [Co, Poll, Poll, Finish] + [] == [Co, Poll, Poll, Finish];
    BlockedAtFinish(code, []);
    BlockedAtFinish(code, [Co, Co, Poll, Poll] + [Co]);
    BlockedAgain(code);
  }

  /** Under such an order the wait does not end, whatever turns either side is given. */
  lemma {:induction false} KickedTooEarly(code: seq<Action>, budget: nat)
    requires Permutes(code) && code[2] == ClearFlag
    ensures exists before ::
              && Run(code, INIT, before, 1).co.After?
              && forall events :: Other !in events ==> !Run(code, INIT, before + events, 1).poller.Returned?
    ensures !Live(code, budget)
  {
    var before, lost := [Co, Poll, Poll, Finish], [Co, Co, Poll, Poll] + [Co];
    WakeUpLost(code);
    var s := Run(code, INIT, before + lost, 1);
    forall events | Other !in events ensures Run(code, INIT, (before + lost) + events, 1) == s {
      Runs.RunConcat(Stepper(code, 1), INIT, before + lost, events);
      StuckForEver(code, s, events, 1);
    }
    assert Run(code, INIT, before + lost, 1).co.After?;
    var es, es' := lost + Repeat(Co, budget), Repeat(Poll, budget);
    CountConcat(lost, Repeat(Co, budget), Co);
    CountRepeat(Co, budget);
    CountRepeat(Poll, budget);
    assert before + es + es' == (before + lost) + (Repeat(Co, budget) + es');
    assert Run(code, INIT, before + es + es', 1) == s;
  }

  /** The source's order is the only one under which every run is safe and every wait ends within
      some number of turns; four are enough then. */
  lemma {:induction false} OnlyThisOrder(code: seq<Action>)
    requires Permutes(code)
    ensures Safe(code) && (exists budget :: Live(code, budget)) <==> code == ENTRY
    ensures code == ENTRY ==> Live(code, 4)
  {
    assert code == [code[0], code[1], code[2]];
    if code == ENTRY {
      forall events, result
        ensures var s := Run(code, INIT, events, result);
                !s.broken && (s.poller.Returned? ==> s.poller.value == result)
      {
        RecordOutlivesCoroutine(events, result);
      }
      forall before, es, es', result {:trigger Run(code, INIT, before + es + es', result)} |
        Run(code, INIT, before, result).co.After? && 4 <= Count(es, Co) && 4 <= Count(es', Poll)
        ensures Run(code, INIT, before + es + es', result).poller.Returned?
      {
        WaitEnds(before, es, es', result);
      }
      assert Live(code, 4);
    } else if code[2] == ClearFlag {
      forall budget ensures !Live(code, budget) {
        KickedTooEarly(code, budget);
      }
    } else {
      assert code[0] == ClearFlag || (code[0] == Kick && code[1] == ClearFlag);
      ClearedTooEarly(code);
    }
  }

  // ----- the wrapper itself -----

  /** The wrapped operation, of the child, offset, number of bytes and flags. */
  type Operation = (nat, int, int, int) -> int

  /** The request record and the two sides that share it, updated in place one step at a time. */
  class Handoff {
    const op: Operation
    const child: nat
    const offset: int
    const bytes: int
    const flags: int
    /** What the operation returns to the entry function. */
    var value: int
    var live: bool
    var inProgress: bool
    var ret: int
    var poller: Poller
    var co: Coroutine
    var waiting: bool
    var kicked: bool
    var broken: bool

    function View(): State
      reads this
    {
      State(live, inProgress, ret, poller, co, waiting, kicked, broken)
    }

    function Result(): int {
      op(child, offset, bytes, flags)
    }

    ghost predicate Valid()
      reads this
    {
      !co.NotStarted? ==> value == Result()
    }

    /** The caller fills in the record. */
    constructor (op: Operation, child: nat, offset: int, bytes: int, flags: int)
      ensures View() == INIT && Valid() && Result() == op(child, offset, bytes, flags)
    {
      this.op, this.child, this.offset, this.bytes, this.flags := op, child, offset, bytes, flags;
      value := 0;
      live, inProgress, ret := true, true, 0;
      poller, co, waiting, kicked, broken := Entering, NotStarted, false, false, false;
    }

    /** One step of `bdrv_poll_co`. */
    method PollTurn()
      requires Valid()
      modifies this
      ensures Valid() && View() == PollStep(old(View()))
    {
      match poller
      case Entering =>
        waiting := true;
        poller := Checking;
      case Checking =>
        poller := if inProgress then Blocking else Leaving;
      case Blocking =>
        if kicked {
          kicked := false;
          poller := Checking;
        }
      case Leaving =>
        poller := Returned(ret);
        waiting := false;
        live := false;
      case Returned(_) =>
    }

    /** One step of the coroutine: read the arguments from the record and call the operation, or one
        closing action. */
    method CoTurn()
      requires Valid()
      modifies this
      ensures Valid() && View() == CoStep(ENTRY, old(View()), Result())
    {
      match co
      case NotStarted =>
        if live {
          value := op(child, offset, bytes, flags);
          co := Running;
        } else {
          broken := true;
        }
      case Running =>
      case After(k) =>
        if k == 0 {
          if live {
            ret := value;
          } else {
            broken := true;
          }
        } else if k == 1 {
          if live {
            inProgress := false;
          } else {
            broken := true;
          }
        } else if k == 2 && waiting {
          kicked := true;
        }
        if k < 3 {
          co := After(k + 1);
        }
    }

    method Turn(e: Event)
      requires Valid()
      modifies this
      ensures Valid() && View() == Step(ENTRY, old(View()), e, Result())
    {
      match e
      case Poll => PollTurn();
      case Co => CoTurn();
      case Finish =>
        if co.Running? {
          co := After(0);
        }
      case Other =>
        if poller.Blocking? {
          poller := Checking;
        }
    }
  }

  /** A schedule that lets the wrapped operation finish and then gives each side turns enough. */
  ghost predicate Fair(schedule: seq<Event>, result: int) {
    exists before, es, es' ::
      && schedule == before + es + es'
      && Run(ENTRY, INIT, before, result).co.After?
      && 3 <= Count(es, Co) && 4 <= Count(es', Poll)
  }

  /** `bdrv_pwrite_zeroes` and every other wrapper: call the operation directly when already in a
      coroutine, otherwise hand it off. `done` is false if the schedule ended before the wait did. */
  method Wrapper(inCoroutine: bool, op: Operation, child: nat, offset: int, bytes: int, flags: int,
                 schedule: seq<Event>)
    returns (done: bool, ret: int, broken: bool)
    ensures done ==> ret == op(child, offset, bytes, flags)
    ensures !broken
    ensures inCoroutine ==> done
    ensures !inCoroutine ==>
              var result := op(child, offset, bytes, flags);
              && (done <==> Run(ENTRY, INIT, schedule, result).poller.Returned?)
              && (done ==> Finish in schedule && 3 <= Count(schedule, Co) && 3 <= Count(schedule, Poll))
              && (Fair(schedule, result) ==> done)
  {
    if inCoroutine {
      ret := op(child, offset, bytes, flags);
      return true, ret, false;
    }
    ghost var result := op(child, offset, bytes, flags);
    var s := new Handoff(op, child, offset, bytes, flags);
    var i := 0;
    assert schedule[..0] == [];
    while i < |schedule|
      invariant 0 <= i <= |schedule| && fresh(s) && s.Valid() && s.Result() == result
      invariant s.View() == Run(ENTRY, INIT, schedule[..i], result)
    {
      s.Turn(schedule[i]);
      Runs.RunConcat(Stepper(ENTRY, result), INIT, schedule[..i], [schedule[i]]);
      assert schedule[..i + 1] == schedule[..i] + [schedule[i]];
      assert [schedule[i]][1..] == [];
      i := i + 1;
    }
    assert schedule[..i] == schedule;
    RecordOutlivesCoroutine(schedule, result);
    if Fair(schedule, result) {
      ghost var before, es, es' :|
        && schedule == before + es + es'
        && Run(ENTRY, INIT, before, result).co.After?
        && 3 <= Count(es, Co) && 4 <= Count(es', Poll);
      WaitEnds(before, es, es', result);
    }
    if Run(ENTRY, INIT, schedule, result).poller.Returned? {
      ReturnedAfterFinish(schedule, result);
    }
    done, broken := s.poller.Returned?, s.broken;
    ret := if done then s.poller.value else 0;
  }
}
