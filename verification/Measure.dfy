/**
  `avy_wallclock_diff`: a table of ten timing records, found by key with one loop and filled
  with another. The clock reading is a parameter of each call. What the table holds after any
  sequence of calls is stated on the sequence alone, without the table.
 */
module Measure {
  import opened Common

  const SLOTS: nat := 10
  const KEY_SIZE := 64

  /** `TimeRecord`; a slot with an empty key is free. */
  datatype Record = Record(key: string, previous: int, start: int, cnt: nat)

  /** The numbers of one output line. */
  datatype Report = Report(cnt: nat, diff: int, total: int)

  datatype Call = Call(key: string, init: int, now: int)

  const FREE := Record("", 0, 0, 0)

  // ----- one call -----

  /** The first slot with this key, or the table's length. */
  function Slot(t: seq<Record>, key: string): (i: nat)
    ensures i <= |t|
    ensures i < |t| ==> t[i].key == key
    ensures forall j :: 0 <= j < i ==> t[j].key != key
  {
    if t == [] then 0
    else if t[0].key == key then 0
    else
      var i := Slot(t[1..], key);
      assert forall j :: 1 <= j < i + 1 ==> t[j] == t[1..][j - 1];
      i + 1
  }

  function Touched(r: Record, c: Call): Record {
    r.(previous := c.now, cnt := if c.init == 0 then (r.cnt + 1) % TWO_TO_64 else r.cnt)
  }

  function Apply(t: seq<Record>, c: Call): seq<Record> {
    var i := Slot(t, c.key);
    if i < |t| then t[i := Touched(t[i], c)]
    else
      var e := Slot(t, "");
      if e < |t| then t[e := Record(c.key, c.now, c.now, 1)] else t
  }

  function Reported(t: seq<Record>, c: Call): Option<Report> {
    var i := Slot(t, c.key);
    if i < |t| && c.init == 0 then
      Some(Report(Touched(t[i], c).cnt, c.now - t[i].previous, c.now - t[0].start))
    else None
  }

  class Records {
    const records: array<Record>
    ghost var history: seq<Call>

    /** The array is the table that the calls so far lead to, and no key was longer than its slot. */
    ghost predicate Valid()
      reads this, records
    {
      records[..] == Table(history) && Within(history)
    }

    constructor ()
      ensures Valid() && history == [] && fresh(records)
    {
      records := new Record[SLOTS](_ => FREE);
      history := [];
      new;
      assert records[..] == seq(SLOTS, _ => FREE);
    }

    /** `avy_wallclock_diff`. `overrun`: a new key is copied that does not fit its slot; the call is
        followed no further then, and nothing is said about the array it leaves behind. */
    method WallclockDiff(key: string, init: int, now: int) returns (report: Option<Report>, overrun: bool)
      requires Valid() && '\0' !in key
      modifies this`history, records
      ensures overrun <==> Overruns(old(history), Call(key, init, now))
      ensures !overrun ==>
                && Valid()
                && history == old(history) + [Call(key, init, now)]
                && records[..] == Apply(old(records[..]), Call(key, init, now))
                && report == ReportOf(old(history), Call(key, init, now))
    {
      hide Slot, Table, Keys, Within, Overruns, ReportOf;
      overrun := false;
      ghost var t, c := records[..], Call(key, init, now);
      TableSize(history);
      TableNext(history, c);
      OverrunsInTable(history, c);
      WithinNext(history, c);
      ReportedExactly(history, c);
      var i := 0;
      while i < SLOTS
        invariant 0 <= i <= SLOTS && records[..] == t
        invariant forall j :: 0 <= j < i ==> records[j].key != key
      {
        if records[i].key == key {
          SlotIs(t, key, i);
          var diff := now - records[i].previous;
          var total := now - records[0].start;
          records[i] := records[i].(previous := now);
          report := None;
          if init == 0 {
            records[i] := records[i].(cnt := (records[i].cnt + 1) % TWO_TO_64);
            report := Some(Report(records[i].cnt, diff, total));
          }
          history := history + [c];
          return;
        }
        i := i + 1;
      }
      SlotIs(t, key, SLOTS);
      i := 0;
      while i < SLOTS
        invariant 0 <= i <= SLOTS && records[..] == t
        invariant forall j :: 0 <= j < i ==> records[j].key != ""
      {
        if records[i].key == "" {
          SlotIs(t, "", i);
          if KEY_SIZE <= |key| {
            return None, true;
          }
          records[i] := Record(key, now, now, 1);
          history := history + [c];
          return None, false;
        }
        i := i + 1;
      }
      SlotIs(t, "", SLOTS);
      report := None;
      history := history + [c];
    }
  }

  lemma {:induction false} SlotIs(t: seq<Record>, key: string, i: nat)
    requires i <= |t| && (i < |t| ==> t[i].key == key)
    requires forall j :: 0 <= j < i ==> t[j].key != key
    ensures Slot(t, key) == i
  {
  }

  // ----- any sequence of calls, on the table -----

  ghost function Table(h: seq<Call>): seq<Record> {
    if h == [] then seq(SLOTS, _ => FREE) else Apply(Table(h[..|h| - 1]), h[|h| - 1])
  }

  lemma {:induction false} TableSize(h: seq<Call>)
    ensures |Table(h)| == SLOTS
  {
    if h == [] {
    } else {
      TableSize(h[..|h| - 1]);
    }
  }

  lemma {:induction false} TableNext(h: seq<Call>, c: Call)
    ensures Table(h + [c]) == Apply(Table(h), c)
  {
  }

  // ----- any sequence of calls, without the table -----

  /** The keys that got a slot, in the order they did: the first ten distinct non-empty ones. */
  function Keys(h: seq<Call>): seq<string> {
    if h == [] then []
    else
      var before := Keys(h[..|h| - 1]);
      var key := h[|h| - 1].key;
      if key == "" || key in before || SLOTS <= |before| then before else before + [key]
  }

  /** The calls made with a key, in order. */
  function CallsOf(h: seq<Call>, key: string): seq<Call> {
    if h == [] then []
    else CallsOf(h[..|h| - 1], key) + if h[|h| - 1].key == key then [h[|h| - 1]] else []
  }

  /** Calls that ask for a report. */
  function Reports(calls: seq<Call>): nat {
    if calls == [] then 0
    else Reports(calls[..|calls| - 1]) + if calls[|calls| - 1].init == 0 then 1 else 0
  }

  /** What the record of a key says after all calls with that key. */
  ghost predicate Summarises(r: Record, key: string, calls: seq<Call>) {
    && calls != []
    && r.key == key
    && r.start == calls[0].now
    && r.previous == calls[|calls| - 1].now
    && r.cnt == (1 + Reports(calls[1..])) % TWO_TO_64
  }

  /** The used slots are a prefix, one per key in registration order, each record summarising its
      key's calls. */
  ghost predicate Refines(t: seq<Record>, h: seq<Call>) {
    var keys := Keys(h);
    && |t| == SLOTS && |keys| <= SLOTS
    && "" !in keys
    && (forall i, j :: 0 <= i < j < |keys| ==> keys[i] != keys[j])
    && (forall i :: 0 <= i < |keys| ==> Summarises(t[i], keys[i], CallsOf(h, keys[i])))
    && (forall i :: |keys| <= i < SLOTS ==> t[i].key == "")
  }

  /** While there is room, a key that has no slot has not been used. */
  lemma {:induction false} UnusedKey(h: seq<Call>, key: string)
    requires key != "" && key !in Keys(h) && |Keys(h)| < SLOTS
    ensures CallsOf(h, key) == []
  {
    if h == [] {
    } else {
      UnusedKey(h[..|h| - 1], key);
    }
  }

  lemma {:induction false} SummaryExtended(r: Record, key: string, calls: seq<Call>, c: Call)
    requires Summarises(r, key, calls)
    ensures Summarises(Touched(r, c), key, calls + [c])
  {
    var calls' := calls + [c];
    assert calls'[1..] == calls[1..] + [c];
    assert calls'[1..][..|calls'[1..]| - 1] == calls[1..];
  }

  /** In a refined table a key is found in its own slot, a free slot right after the used ones, and
      any other key nowhere. */
  lemma {:induction false} SlotOf(t: seq<Record>, h: seq<Call>, key: string)
    requires Refines(t, h)
    ensures forall i :: 0 <= i < |Keys(h)| ==> t[i].key == Keys(h)[i]
    ensures forall i :: 0 <= i < |Keys(h)| && Keys(h)[i] == key ==> Slot(t, key) == i
    ensures key == "" ==> Slot(t, key) == |Keys(h)|
    ensures key != "" && key !in Keys(h) ==> Slot(t, key) == SLOTS
  {
    var keys := Keys(h);
    forall i | 0 <= i < |keys| ensures t[i].key == keys[i] {
      assert Summarises(t[i], keys[i], CallsOf(h, keys[i]));
    }
    forall i | 0 <= i < |keys| && keys[i] == key ensures Slot(t, key) == i {
      SlotIs(t, key, i);
    }
    if key == "" {
      SlotIs(t, key, |keys|);
    } else if key !in keys {
      SlotIs(t, key, SLOTS);
    }
  }

  lemma {:induction false} LastCall(h: seq<Call>, c: Call)
    ensures (h + [c])[..|h + [c]| - 1] == h
    ensures CallsOf(h + [c], c.key) == CallsOf(h, c.key) + [c]
    ensures forall key :: key != c.key ==> CallsOf(h + [c], key) == CallsOf(h, key)
    ensures Keys(h + [c])
            == if c.key == "" || c.key in Keys(h) || SLOTS <= |Keys(h)| then Keys(h) else Keys(h) + [c.key]
    ensures Table(h + [c]) == Apply(Table(h), c)
  {
  }

  /** What one call does to a refined table, slot by slot. */
  lemma {:induction false} ApplyCases(t: seq<Record>, h: seq<Call>, c: Call)
    requires Refines(t, h)
    ensures var keys, keys', t' := Keys(h), Keys(h + [c]), Apply(t, c);
            && |t'| == SLOTS && |keys| <= |keys'| <= SLOTS
            && (forall i :: 0 <= i < |keys| ==> t'[i] == if keys[i] == c.key then Touched(t[i], c) else t[i])
            && (|keys| < |keys'| ==> t'[|keys|] == Record(c.key, c.now, c.now, 1))
            && (forall i :: |keys'| <= i < SLOTS ==> t'[i].key == "")
  {
    SlotOf(t, h, c.key);
    SlotOf(t, h, "");
    LastCall(h, c);
  }

  lemma {:induction false} ApplyRefines(t: seq<Record>, h: seq<Call>, c: Call)
    requires Refines(t, h)
    ensures Refines(Apply(t, c), h + [c])
  {
    ApplySummarises(t, h, c);
    hide Apply, CallsOf, Table, Summarises;
    ApplyCases(t, h, c);
    LastCall(h, c);
  }

  lemma {:induction false} NewSummary(c: Call)
    ensures Summarises(Record(c.key, c.now, c.now, 1), c.key, [c])
  {
    assert Reports([c][1..]) == 0;
  }

  lemma {:induction false} ApplySummarises(t: seq<Record>, h: seq<Call>, c: Call)
    requires Refines(t, h)
    ensures |Keys(h + [c])| <= |Apply(t, c)|
    ensures forall i :: 0 <= i < |Keys(h + [c])| ==>
              Summarises(Apply(t, c)[i], Keys(h + [c])[i], CallsOf(h + [c], Keys(h + [c])[i]))
  {
    hide Apply, CallsOf, Table, Keys, Summarises, Touched, Reports;
    var keys, keys', t' := Keys(h), Keys(h + [c]), Apply(t, c);
    ApplyCases(t, h, c);
    LastCall(h, c);
    forall i | 0 <= i < |keys'| ensures Summarises(t'[i], keys'[i], CallsOf(h + [c], keys'[i])) {
      if i < |keys| {
        if keys[i] == c.key {
          SummaryExtended(t[i], c.key, CallsOf(h, c.key), c);
        }
      } else {
        UnusedKey(h, c.key);
        assert CallsOf(h + [c], c.key) == [c];
        NewSummary(c);
      }
    }
  }

  /** After every sequence of calls the table is the bounded map of the keys registered so far:
      empty and unknown keys included, and whatever is called on a full table. The array is this
      table as long as no key overruns its slot. */
  lemma {:induction false} TableRefines(h: seq<Call>)
    ensures Refines(Table(h), h)
  {
    if h == [] {
    } else {
      var init, c := h[..|h| - 1], h[|h| - 1];
      TableRefines(init);
      ApplyRefines(Table(init), init, c);
      assert h == init + [c];
    }
  }

  /** A call with a key that has no slot changes no record once all slots are used, and a call with
      the empty key never changes a used one. */
  lemma {:induction false} UnknownKeyIgnored(h: seq<Call>, c: Call)
    requires c.key !in Keys(h)
    ensures |Keys(h)| <= |Table(h)| == |Table(h + [c])|
    ensures SLOTS == |Keys(h)| ==> Table(h + [c]) == Table(h)
    ensures c.key == "" ==> Keys(h + [c]) == Keys(h)
                            && forall i :: 0 <= i < |Keys(h)| ==> Table(h + [c])[i] == Table(h)[i]
  {
    TableRefines(h);
    SlotOf(Table(h), h, c.key);
    SlotOf(Table(h), h, "");
    LastCall(h, c);
  }

  // ----- which keys get a slot -----

  /** The distinct keys used, the empty one apart. */
  ghost function Used(h: seq<Call>): set<string> {
    set i | 0 <= i < |h| && h[i].key != "" :: h[i].key
  }

  /** Ten keys at most are registered, and all that were used while there were no more than ten. */
  lemma {:induction false} RegisteredExactly(h: seq<Call>)
    ensures |Keys(h)| == if |Used(h)| < 10 then |Used(h)| else 10
    ensures forall key :: key in Keys(h) ==> key in Used(h)
    ensures |Used(h)| <= 10 ==> forall key :: key in Used(h) ==> key in Keys(h)
  {
    hide Table, CallsOf;
    if h == [] {
    } else {
      var init, c := h[..|h| - 1], h[|h| - 1];
      assert h == init + [c];
      RegisteredExactly(init);
      LastCall(init, c);
      assert Used(h) == Used(init) + if c.key == "" then {} else {c.key} by {
        UsedNext(init, c);
      }
    }
  }

  lemma {:induction false} UsedNext(h: seq<Call>, c: Call)
    ensures Used(h + [c]) == Used(h) + if c.key == "" then {} else {c.key}
  {
    var h' := h + [c];
    assert h'[|h|] == c && forall i :: 0 <= i < |h| ==> h'[i] == h[i];
  }

  // ----- what is reported -----

  /** The calls with the empty key since a key was last registered: they find the first free slot. */
  function Blanks(h: seq<Call>): seq<Call> {
    if h == [] then []
    else
      var init, c := h[..|h| - 1], h[|h| - 1];
      if |Keys(h)| != |Keys(init)| then []
      else Blanks(init) + if c.key == "" then [c] else []
  }

  function LastTime(calls: seq<Call>): int {
    if calls == [] then 0 else calls[|calls| - 1].now
  }

  function FirstTime(calls: seq<Call>): int {
    if calls == [] then 0 else calls[0].now
  }

  /** The calls after the one that registers the key. */
  function Later(calls: seq<Call>): seq<Call> {
    if calls == [] then [] else calls[1..]
  }

  /** The line a call reports after the calls `h`, from the calls alone: how many reports there have
      been for its key, the one call that registered it included, the time since the last call with
      its key, and the time since the first registered key was first used. */
  function ReportOf(h: seq<Call>, c: Call): Option<Report> {
    var total := c.now - if Keys(h) == [] then 0 else FirstTime(CallsOf(h, Keys(h)[0]));
    if c.init != 0 then None
    else if c.key in Keys(h) then
      var calls := CallsOf(h, c.key);
      Some(Report((1 + Reports(Later(calls) + [c])) % TWO_TO_64, c.now - LastTime(calls), total))
    else if c.key == "" && |Keys(h)| < SLOTS then
      Some(Report(Reports(Blanks(h) + [c]) % TWO_TO_64, c.now - LastTime(Blanks(h)), total))
    else None
  }

  /** What one call does to the free slots of a refined table. */
  lemma {:induction false} ApplyTail(t: seq<Record>, h: seq<Call>, c: Call)
    requires Refines(t, h)
    ensures |Apply(t, c)| == SLOTS
    ensures forall i :: |Keys(h + [c])| <= i < SLOTS ==>
              Apply(t, c)[i] == if c.key == "" && i == |Keys(h)| then Touched(t[i], c) else t[i]
  {
    hide Slot, Table, CallsOf, Touched;
    SlotOf(t, h, c.key);
    SlotOf(t, h, "");
    LastCall(h, c);
  }

  lemma {:induction false} BlanksNext(h: seq<Call>, c: Call)
    ensures Blanks(h + [c])
            == if |Keys(h + [c])| != |Keys(h)| then [] else Blanks(h) + if c.key == "" then [c] else []
  {
    assert (h + [c])[..|h|] == h;
  }

  /** The free slots of a table with `n` used ones: the first holds what calls with the empty key left
      there, the others are blank. */
  ghost predicate FreeTail(t: seq<Record>, n: nat, blanks: seq<Call>) {
    && n <= SLOTS == |t|
    && (n < SLOTS ==> t[n] == Record("", LastTime(blanks), 0, Reports(blanks) % TWO_TO_64))
    && forall i :: n < i < SLOTS ==> t[i] == FREE
  }

  lemma {:induction false} TouchedBlank(blanks: seq<Call>, c: Call)
    ensures Touched(Record("", LastTime(blanks), 0, Reports(blanks) % TWO_TO_64), c)
            == Record("", LastTime(blanks + [c]), 0, Reports(blanks + [c]) % TWO_TO_64)
  {
    ReportsNext(blanks, c);
  }

  lemma {:induction false} FreeTailStep(t: seq<Record>, h: seq<Call>, c: Call)
    requires Refines(t, h) && FreeTail(t, |Keys(h)|, Blanks(h))
    ensures FreeTail(Apply(t, c), |Keys(h + [c])|, Blanks(h + [c]))
  {
    hide Slot, Apply, Keys, Blanks, Reports, CallsOf, Refines, Table, Touched, LastTime;
    ApplyTail(t, h, c);
    ApplyCases(t, h, c);
    BlanksNext(h, c);
    TouchedBlank(Blanks(h), c);
    BlankStart();
    LastCall(h, c);
    assert Blanks(h) + [] == Blanks(h);
  }

  lemma {:induction false} BlankStart()
    ensures FREE == Record("", LastTime([]), 0, Reports([]) % TWO_TO_64)
  {
  }

  /** After every sequence of calls. */
  lemma {:induction false} FreeSlots(h: seq<Call>)
    ensures FreeTail(Table(h), |Keys(h)|, Blanks(h))
  {
    if h == [] {
    } else {
      hide FreeTail;
      var init, c := h[..|h| - 1], h[|h| - 1];
      assert h == init + [c];
      FreeSlots(init);
      TableRefines(init);
      LastCall(init, c);
      FreeTailStep(Table(init), init, c);
    }
  }

  lemma {:induction false} ReportsNext(calls: seq<Call>, c: Call)
    ensures Reports(calls + [c]) == Reports(calls) + if c.init == 0 then 1 else 0
  {
    assert (calls + [c])[..|calls|] == calls;
  }

  lemma {:induction false} Wrapped(n: nat)
    ensures (n % TWO_TO_64 + 1) % TWO_TO_64 == (n + 1) % TWO_TO_64
  {
  }

  lemma {:induction false} RegisteredReport(t: seq<Record>, h: seq<Call>, c: Call)
    requires Refines(t, h) && c.key in Keys(h) && c.init == 0
    ensures Reported(t, c) == ReportOf(h, c)
    ensures CallsOf(h, c.key) != [] && ReportOf(h, c).value.diff == c.now - LastTime(CallsOf(h, c.key))
  {
    hide CallsOf, Slot, Keys, Reports, Blanks;
    SlotOf(t, h, c.key);
    var i :| 0 <= i < |Keys(h)| && Keys(h)[i] == c.key;
    assert Summarises(t[0], Keys(h)[0], CallsOf(h, Keys(h)[0]));
    assert Summarises(t[i], c.key, CallsOf(h, c.key));
    ReportsNext(CallsOf(h, c.key)[1..], c);
    Wrapped(1 + Reports(CallsOf(h, c.key)[1..]));
  }

  lemma {:induction false} OtherReport(t: seq<Record>, h: seq<Call>, c: Call)
    requires Refines(t, h) && FreeTail(t, |Keys(h)|, Blanks(h)) && c.key !in Keys(h) && c.init == 0
    ensures Reported(t, c) == ReportOf(h, c)
  {
    hide CallsOf, Slot, Keys, Reports, Blanks;
    SlotOf(t, h, c.key);
    if Keys(h) != [] {
      assert Summarises(t[0], Keys(h)[0], CallsOf(h, Keys(h)[0]));
    }
    ReportsNext(Blanks(h), c);
    Wrapped(Reports(Blanks(h)));
  }

  /** What the loop reports is what the calls say, for registered, empty and unknown keys. */
  lemma {:induction false} ReportedExactly(h: seq<Call>, c: Call)
    ensures Reported(Table(h), c) == ReportOf(h, c)
    ensures c.key in Keys(h) && c.init == 0 ==>
              CallsOf(h, c.key) != [] && ReportOf(h, c).value.diff == c.now - LastTime(CallsOf(h, c.key))
  {
    hide CallsOf, Slot, Keys, Table, Blanks, Reports, FreeTail, LastTime, FirstTime;
    TableRefines(h);
    FreeSlots(h);
    if c.init == 0 {
      if c.key in Keys(h) {
        RegisteredReport(Table(h), h, c);
      } else {
        OtherReport(Table(h), h, c);
      }
    }
  }

  // ----- keys that do not fit -----

  /** After the calls `h`, this one copies its key into a free slot that is too short for it. */
  ghost predicate Overruns(h: seq<Call>, c: Call) {
    KEY_SIZE <= |c.key| && c.key !in Keys(h) && |Keys(h)| < SLOTS
  }

  /** No call of the sequence does. */
  ghost predicate Within(h: seq<Call>) {
    forall i :: 0 <= i < |h| ==> !Overruns(h[..i], h[i])
  }

  /** The search finds no slot with the key and then one that is free. */
  lemma {:induction false} OverrunsInTable(h: seq<Call>, c: Call)
    ensures Overruns(h, c)
            <==> KEY_SIZE <= |c.key| && Slot(Table(h), c.key) == SLOTS && Slot(Table(h), "") < SLOTS
  {
    TableRefines(h);
    SlotOf(Table(h), h, c.key);
    SlotOf(Table(h), h, "");
  }

  lemma {:induction false} WithinNext(h: seq<Call>, c: Call)
    ensures Within(h + [c]) <==> Within(h) && !Overruns(h, c)
  {
    assert (h + [c])[..|h|] == h && (h + [c])[|h|] == c;
    forall i | 0 <= i < |h| ensures (h + [c])[..i] == h[..i] && (h + [c])[i] == h[i] {
    }
  }

  /** No call overruns a slot exactly if every key that is given one fits it, so that every key in
      the table ends before its slot does. */
  lemma {:induction false} WithinExactly(h: seq<Call>)
    ensures Within(h) <==> forall i :: 0 <= i < |Keys(h)| ==> |Keys(h)[i]| < KEY_SIZE
    ensures Within(h) ==> forall i :: 0 <= i < |Table(h)| ==> |Table(h)[i].key| < KEY_SIZE
  {
    hide Table, Slot;
    TableRefines(h);
    SlotOf(Table(h), h, "");
    if h == [] {
    } else {
      var init, c := h[..|h| - 1], h[|h| - 1];
      assert h == init + [c];
      WithinExactly(init);
      WithinNext(init, c);
      LastCall(init, c);
      var keys, keys' := Keys(init), Keys(h);
      assert forall i :: 0 <= i < |keys| ==> keys'[i] == keys[i];
      assert |keys| < |keys'| ==> keys'[|keys|] == c.key;
    }
  }

  /** The first call of all overruns its slot if its key has 64 bytes or more. */
  lemma {:induction false} LongFirstKey(c: Call)
    ensures Overruns([], c) <==> 64 <= |c.key|
    ensures Within([c]) <==> |c.key| < 64
  {
    WithinNext([], c);
    assert [] + [c] == [c];
  }

  /** Any sequence of calls on a fresh table: it overruns a slot exactly if `Within` says so, and
      otherwise leaves the bounded map of the registered keys in the array and has reported the lines
      the calls ask for. */
  method CallAll(calls: seq<Call>) returns (r: Records, reports: seq<Option<Report>>, overrun: bool)
    requires forall i :: 0 <= i < |calls| ==> '\0' !in calls[i].key
    ensures overrun <==> !Within(calls)
    ensures !overrun ==> r.history == calls && r.Valid() && Refines(r.records[..], calls)
    ensures !overrun ==>
              |reports| == |calls| && forall i :: 0 <= i < |calls| ==> reports[i] == ReportOf(calls[..i], calls[i])
  {
    hide Overruns, Within, Refines, Table, ReportOf;
    r := new Records();
    reports, overrun := [], false;
    var i := 0;
    while i < |calls|
      invariant 0 <= i <= |calls| && fresh(r) && fresh(r.records)
      invariant r.Valid() && r.history == calls[..i] && Within(calls[..i])
      invariant |reports| == i && forall j :: 0 <= j < i ==> reports[j] == ReportOf(calls[..j], calls[j])
    {
      assert calls[..i + 1] == calls[..i] + [calls[i]];
      WithinNext(calls[..i], calls[i]);
      var report, over := r.WallclockDiff(calls[i].key, calls[i].init, calls[i].now);
      if over {
        WithinPrefix(calls, i + 1);
        return r, reports, true;
      }
      reports := reports + [report];
      i := i + 1;
    }
    assert calls[..i] == calls;
    TableRefines(calls);
  }

  lemma {:induction false} WithinPrefix(h: seq<Call>, n: nat)
    requires n <= |h|
    ensures Within(h) ==> Within(h[..n])
  {
    forall i | 0 <= i < n ensures h[..n][..i] == h[..i] {
    }
  }

  // ----- elapsed times -----

  /** The `diff` that a call computes for a key after the calls `h`, 0 if it computes none. */
  ghost function Diff(h: seq<Call>, c: Call, key: string): int {
    var t := Table(h);
    var i := Slot(t, key);
    if c.key == key && key in Keys(h) && i < |t| then c.now - t[i].previous else 0
  }

  /** The sum of all `diff` values computed for a key, reported or not. */
  ghost function DiffSum(h: seq<Call>, key: string): int {
    if h == [] then 0 else DiffSum(h[..|h| - 1], key) + Diff(h[..|h| - 1], h[|h| - 1], key)
  }

  ghost function Elapsed(h: seq<Call>, key: string): int {
    var calls := CallsOf(h, key);
    if key in Keys(h) && calls != [] then calls[|calls| - 1].now - calls[0].now else 0
  }

  /** A call computes the time since the previous call with its key. */
  lemma {:induction false} DiffSincePrevious(h: seq<Call>, c: Call)
    requires Refines(Table(h), h) && c.key in Keys(h)
    ensures CallsOf(h, c.key) != []
    ensures Diff(h, c, c.key) == c.now - CallsOf(h, c.key)[|CallsOf(h, c.key)| - 1].now
  {
  }

  lemma {:induction false} DiffOfCall(h: seq<Call>, c: Call, key: string)
    requires Refines(Table(h), h)
    ensures Elapsed(h + [c], key) == Elapsed(h, key) + Diff(h, c, key)
  {
    hide Table, Keys, CallsOf, Refines, Slot, Apply;
    LastCall(h, c);
    if key == c.key {
      if key in Keys(h) {
        DiffSincePrevious(h, c);
      } else if key in Keys(h + [c]) {
        UnusedKey(h, key);
        assert CallsOf(h + [c], key) == [c];
      }
    }
  }

  /** The computed differences of a key add up to the time between its first and its last call. */
  lemma {:induction false} DiffsTelescope(h: seq<Call>, key: string)
    ensures DiffSum(h, key) == Elapsed(h, key)
    ensures forall i :: 0 <= i < |Keys(h)| && Keys(h)[i] == key ==>
              |Table(h)| == SLOTS && i < SLOTS && DiffSum(h, key) == Table(h)[i].previous - Table(h)[i].start
  {
    TableRefines(h);
    if h == [] {
    } else {
      var init, c := h[..|h| - 1], h[|h| - 1];
      assert h == init + [c];
      DiffsTelescope(init, key);
      TableRefines(init);
      DiffOfCall(init, c, key);
    }
    forall i | 0 <= i < |Keys(h)| && Keys(h)[i] == key
      ensures i < SLOTS && Elapsed(h, key) == Table(h)[i].previous - Table(h)[i].start
    {
      assert Summarises(Table(h)[i], key, CallsOf(h, key));
    }
  }

  /** The clock never goes back. */
  ghost predicate Monotone(h: seq<Call>) {
    forall i, j :: 0 <= i < j < |h| ==> h[i].now <= h[j].now
  }

  /** Start times follow slot order, no record ends before it starts, and none is in the future. */
  ghost predicate Ordered(t: seq<Record>, n: nat, now: int)
    requires n <= |t|
  {
    && (forall i, j :: 0 <= i < j < n ==> t[i].start <= t[j].start)
    && (forall i :: 0 <= i < n ==> t[i].start <= t[i].previous <= now)
  }

  lemma {:induction false} OrderedStep(t: seq<Record>, h: seq<Call>, c: Call)
    requires Refines(t, h) && Ordered(t, |Keys(h)|, c.now)
    ensures |Keys(h + [c])| <= |Apply(t, c)|
    ensures Ordered(Apply(t, c), |Keys(h + [c])|, c.now)
  {
    hide Apply, Table, CallsOf, Keys, Refines;
    ApplyCases(t, h, c);
    LastCall(h, c);
  }

  lemma {:induction false} TableOrdered(h: seq<Call>, now: int)
    requires Monotone(h) && forall i :: 0 <= i < |h| ==> h[i].now <= now
    ensures |Keys(h)| <= |Table(h)|
    ensures Ordered(Table(h), |Keys(h)|, now)
  {
    if h == [] {
      assert Keys(h) == [];
    } else {
      var init, c := h[..|h| - 1], h[|h| - 1];
      assert h == init + [c];
      TableOrdered(init, c.now);
      TableRefines(init);
      LastCall(init, c);
      OrderedStep(Table(init), init, c);
    }
  }

  /** With a clock that never goes back, the total reported for a registered key is at least the
      difference reported with it. */
  lemma {:induction false} TotalCoversDiff(h: seq<Call>, c: Call)
    requires Monotone(h + [c]) && c.key in Keys(h)
    ensures var r := Reported(Table(h), c);
            (r.Some? <==> c.init == 0) && (r.Some? ==> 0 <= r.value.diff <= r.value.total)
  {
    forall i, j | 0 <= i < j < |h| ensures h[i].now <= h[j].now {
      assert (h + [c])[i] == h[i] && (h + [c])[j] == h[j];
    }
    forall i | 0 <= i < |h| ensures h[i].now <= c.now {
      assert (h + [c])[i] == h[i] && (h + [c])[|h|] == c;
    }
    TableOrdered(h, c.now);
    TableRefines(h);
    SlotOf(Table(h), h, c.key);
    var i :| 0 <= i < |Keys(h)| && Keys(h)[i] == c.key;
    assert Slot(Table(h), c.key) == i;
    assert Table(h)[0].start <= Table(h)[i].start;
  }
}
