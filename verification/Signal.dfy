// The pending-signal protocol: one atomic flag a signal and one atomic counter,
// changed by asynchronous signal handlers and by dispatchers, one atomic
// operation a step, with any number of either in flight.
module SignalProtocol {
  import opened Sequences
  import opened Wrappers

  datatype Signal = Child | Alarm | User | Hangup | Terminate | Quit | Interrupt

  // The order in which a dispatcher tries the signals.
  const ORDER: seq<Signal> := [Child, Alarm, User, Hangup, Terminate, Quit, Interrupt]

  // One call of a handler or of a dispatcher, past its first atomic operation.
  // Finished calls stay in the list, so that a state remembers its history.
  datatype Activity =
    | Marked(signal: Signal)                   // set the flag, has yet to increment
    | Counted(signal: Signal)                  // set the flag and incremented
    | Merged(signal: Signal)                   // found the flag set already
    | Scanning(mask: set<Signal>, next: nat)   // decremented, about to try ORDER[next]
    | Restoring(mask: set<Signal>)             // decremented in vain, has yet to increment
    | Took(mask: set<Signal>, signal: Signal)  // consumed the flag its decrement was for
    | Nothing(mask: set<Signal>)               // decremented and incremented

  datatype State = State(flags: set<Signal>, counter: int, activities: seq<Activity>)

  const INITIAL := State({}, 0, [])

  datatype Step = Raise(signal: Signal) | Begin(mask: set<Signal>) | Advance(call: nat)

  predicate Finished(a: Activity) { a.Counted? || a.Merged? || a.Took? || a.Nothing? }

  predicate AtRest(st: State) { forall a :: a in st.activities ==> Finished(a) }

  // A handler's first operation: exchange the flag for true.
  function RaiseStep(st: State, s: Signal): State {
    State(st.flags + {s}, st.counter, st.activities + [if s in st.flags then Merged(s) else Marked(s)])
  }

  // A dispatcher's first operation: decrement, and scan only if that left no debt.
  function BeginStep(st: State, mask: set<Signal>): State {
    State(st.flags, st.counter - 1,
          st.activities + [if st.counter - 1 >= 0 then Scanning(mask, 0) else Restoring(mask)])
  }

  // The next operation of a call in flight.
  function AdvanceStep(st: State, i: nat): State
    requires i < |st.activities|
  {
    match st.activities[i]
    case Marked(s) => State(st.flags, st.counter + 1, st.activities[i := Counted(s)])
    case Restoring(mask) => State(st.flags, st.counter + 1, st.activities[i := Nothing(mask)])
    case Scanning(mask, k) =>
      if k >= |ORDER| then st.(activities := st.activities[i := Restoring(mask)])
      else if ORDER[k] !in mask && ORDER[k] in st.flags then
        State(st.flags - {ORDER[k]}, st.counter, st.activities[i := Took(mask, ORDER[k])])
      else st.(activities := st.activities[i := Scanning(mask, k + 1)])
    case _ => st
  }

  function Next(st: State, step: Step): State {
    match step
    case Raise(s) => RaiseStep(st, s)
    case Begin(mask) => BeginStep(st, mask)
    case Advance(i) => if i < |st.activities| then AdvanceStep(st, i) else st
  }

  function Run(st: State, steps: seq<Step>): State
    decreases |steps|
  {
    if steps == [] then st else Run(Next(st, steps[0]), steps[1..])
  }

  // ----- Counting calls -----

  function Count(calls: seq<Activity>, p: Activity -> bool): nat {
    if calls == [] then 0
    else Count(calls[..|calls| - 1], p) + (if p(calls[|calls| - 1]) then 1 else 0)
  }

  lemma CountAppend(calls: seq<Activity>, a: Activity, p: Activity -> bool)
    ensures Count(calls + [a], p) == Count(calls, p) + (if p(a) then 1 else 0)
  {
    assert (calls + [a])[..|calls|] == calls;
  }

  lemma {:induction false} CountReplace(calls: seq<Activity>, i: nat, a: Activity, p: Activity -> bool)
    requires i < |calls|
    ensures Count(calls[i := a], p)
         == Count(calls, p) - (if p(calls[i]) then 1 else 0) + (if p(a) then 1 else 0)
  {
    var last := |calls| - 1;
    if i == last {
      assert calls[i := a][..last] == calls[..last];
    } else {
      assert calls[i := a][..last] == calls[..last][i := a];
      CountReplace(calls[..last], i, a, p);
    }
  }

  lemma {:induction false} CountNone(calls: seq<Activity>, p: Activity -> bool)
    requires forall a :: a in calls ==> !p(a)
    ensures Count(calls, p) == 0
  {
    if calls != [] { CountNone(calls[..|calls| - 1], p); }
  }

  const MARKED: Activity -> bool := (a: Activity) => a.Marked?
  const RESTORING: Activity -> bool := (a: Activity) => a.Restoring?
  const SCANNING: Activity -> bool := (a: Activity) => a.Scanning?

  // The calls that raised s where it was not pending, and those that consumed it.
  function Raising(s: Signal): Activity -> bool { (a: Activity) => (a.Marked? || a.Counted?) && a.signal == s }

  function Taking(s: Signal): Activity -> bool { (a: Activity) => a.Took? && a.signal == s }

  // ----- The invariant -----

  // What every reachable state satisfies. The last conjunct bounds the dispatchers that
  // scan: there is always a flag set for each of them, beside those not yet counted.
  ghost predicate Invariant(st: State) {
    && st.counter == |st.flags| - Count(st.activities, MARKED)
                     - Count(st.activities, SCANNING) - Count(st.activities, RESTORING)
    && Count(st.activities, SCANNING) + Count(st.activities, MARKED) <= |st.flags|
    && (forall s :: Conserved(st, s))
    && (forall a :: a in st.activities && a.Took? ==> a.signal !in a.mask)
  }

  // Raised where it was not pending == consumed + pending.
  ghost predicate Conserved(st: State, s: Signal) {
    Count(st.activities, Raising(s)) == Count(st.activities, Taking(s)) + (if s in st.flags then 1 else 0)
  }

  lemma RaiseKeeps(st: State, s: Signal)
    requires Invariant(st)
    ensures Invariant(RaiseStep(st, s))
  {
    var a := if s in st.flags then Merged(s) else Marked(s);
    CountAppend(st.activities, a, MARKED);
    CountAppend(st.activities, a, SCANNING);
    CountAppend(st.activities, a, RESTORING);
    forall t ensures Conserved(RaiseStep(st, s), t) {
      assert Conserved(st, t);
      CountAppend(st.activities, a, Raising(t));
      CountAppend(st.activities, a, Taking(t));
    }
  }

  lemma BeginKeeps(st: State, mask: set<Signal>)
    requires Invariant(st)
    ensures Invariant(BeginStep(st, mask))
  {
    var a := if st.counter - 1 >= 0 then Scanning(mask, 0) else Restoring(mask);
    CountAppend(st.activities, a, MARKED);
    CountAppend(st.activities, a, SCANNING);
    CountAppend(st.activities, a, RESTORING);
    forall t ensures Conserved(BeginStep(st, mask), t) {
      assert Conserved(st, t);
      CountAppend(st.activities, a, Raising(t));
      CountAppend(st.activities, a, Taking(t));
    }
  }

  // Replacing one call keeps the invariant when the four balances do.
  lemma ReplaceKeeps(st: State, i: nat, a: Activity, flags: set<Signal>, counter: int)
    requires Invariant(st) && i < |st.activities|
    requires a.Took? ==> a.signal !in a.mask
    requires counter - st.counter
          == |flags| - |st.flags| + Owed(st.activities[i]) - Owed(a)
    requires Reserved(a) - Reserved(st.activities[i]) <= |flags| - |st.flags|
    requires forall s :: Balance(a, s) - Balance(st.activities[i], s)
                      == (if s in flags then 1 else 0) - (if s in st.flags then 1 else 0)
    ensures Invariant(State(flags, counter, st.activities[i := a]))
  {
    var after := State(flags, counter, st.activities[i := a]);
    CountReplace(st.activities, i, a, MARKED);
    CountReplace(st.activities, i, a, SCANNING);
    CountReplace(st.activities, i, a, RESTORING);
    forall t ensures Conserved(after, t) {
      assert Conserved(st, t);
      CountReplace(st.activities, i, a, Raising(t));
      CountReplace(st.activities, i, a, Taking(t));
      assert Balance(a, t) - Balance(st.activities[i], t)
          == (if t in flags then 1 else 0) - (if t in st.flags then 1 else 0);
    }
  }

  function Owed(a: Activity): int { if a.Marked? || a.Scanning? || a.Restoring? then 1 else 0 }

  function Reserved(a: Activity): int { if a.Marked? || a.Scanning? then 1 else 0 }

  function Balance(a: Activity, s: Signal): int {
    (if Raising(s)(a) then 1 else 0) - (if Taking(s)(a) then 1 else 0)
  }

  lemma AdvanceKeeps(st: State, i: nat)
    requires Invariant(st) && i < |st.activities|
    ensures Invariant(AdvanceStep(st, i))
  {
    var after := AdvanceStep(st, i);
    if !Finished(st.activities[i]) {
      ReplaceKeeps(st, i, after.activities[i], after.flags, after.counter);
    }
  }

  lemma NextKeeps(st: State, step: Step)
    requires Invariant(st)
    ensures Invariant(Next(st, step))
  {
    match step
    case Raise(s) => RaiseKeeps(st, s);
    case Begin(mask) => BeginKeeps(st, mask);
    case Advance(i) => if i < |st.activities| { AdvanceKeeps(st, i); }
  }

  // Every interleaving of any number of handlers and dispatchers keeps the invariant.
  lemma {:induction false} RunKeeps(st: State, steps: seq<Step>)
    requires Invariant(st)
    ensures Invariant(Run(st, steps))
    decreases |steps|
  {
    if steps != [] {
      NextKeeps(st, steps[0]);
      RunKeeps(Next(st, steps[0]), steps[1..]);
    }
  }

  // Over a whole run from the start each flag raised is consumed at most once and never
  // lost, and at rest the counter is the number of flags set.
  lemma EveryRun(steps: seq<Step>)
    ensures var st := Run(INITIAL, steps);
            && Invariant(st)
            && (AtRest(st) ==> st.counter == |st.flags|)
  {
    RunKeeps(INITIAL, steps);
    if AtRest(Run(INITIAL, steps)) { RestCounts(Run(INITIAL, steps)); }
  }

  // With no call in flight the counter is the number of flags set.
  lemma RestCounts(st: State)
    requires Invariant(st) && AtRest(st)
    ensures st.counter == |st.flags|
  {
    CountNone(st.activities, MARKED);
    CountNone(st.activities, SCANNING);
    CountNone(st.activities, RESTORING);
  }

  // A dispatcher gives up at its first operation exactly when the flags are all spoken
  // for, by handlers still to count and by dispatchers that hold a decrement.
  lemma GivesUpExactly(steps: seq<Step>, mask: set<Signal>)
    ensures var st := Run(INITIAL, steps);
            var calls := st.activities;
            Next(st, Begin(mask)).activities[|calls|] == Restoring(mask)
            <==> |st.flags| <= Count(calls, MARKED) + Count(calls, SCANNING) + Count(calls, RESTORING)
  {
    RunKeeps(INITIAL, steps);
  }

  // A call that has finished stays as it ended: what was consumed stays consumed, once.
  lemma {:induction false} FinishedStays(st: State, steps: seq<Step>, i: nat)
    requires i < |st.activities| && Finished(st.activities[i])
    ensures i < |Run(st, steps).activities| && Run(st, steps).activities[i] == st.activities[i]
    decreases |steps|
  {
    if steps != [] { FinishedStays(Next(st, steps[0]), steps[1..], i); }
  }

  // ----- One call at a time -----

  function Left(a: Activity): nat {
    match a
    case Scanning(_, k) => if k >= |ORDER| then 2 else 2 + |ORDER| - k
    case Restoring(_) => 1
    case Marked(_) => 1
    case _ => 0
  }

  // Runs one call to its end while nothing else moves.
  function Complete(st: State, i: nat): (end: State)
    requires i < |st.activities|
    ensures |end.activities| == |st.activities| && Finished(end.activities[i])
    decreases Left(st.activities[i])
  {
    if Finished(st.activities[i]) then st else Complete(AdvanceStep(st, i), i)
  }

  // Complete is a run of steps of the interleaved system.
  lemma {:induction false} CompleteIsRun(st: State, i: nat)
    requires i < |st.activities|
    ensures exists steps :: Run(st, steps) == Complete(st, i)
    decreases Left(st.activities[i])
  {
    if Finished(st.activities[i]) {
      assert Run(st, []) == Complete(st, i);
    } else {
      CompleteIsRun(AdvanceStep(st, i), i);
      var rest :| Run(AdvanceStep(st, i), rest) == Complete(st, i);
      var steps := [Advance(i)] + rest;
      assert steps[1..] == rest;
      assert Run(st, steps) == Complete(st, i);
    }
  }

  // The pending signals that the mask lets through, in the order they are tried.
  function Due(flags: set<Signal>, mask: set<Signal>, k: nat): seq<Signal>
    decreases |ORDER| - k, flags, mask
  {
    if k >= |ORDER| then []
    else (if ORDER[k] in flags && ORDER[k] !in mask then [ORDER[k]] else []) + Due(flags, mask, k + 1)
  }

  lemma DueStep(flags: set<Signal>, mask: set<Signal>, k: nat, s: Signal)
    requires k < |ORDER| && ORDER[k] == s
    ensures Due(flags, mask, k)
         == (if s in flags && s !in mask then [s] else []) + Due(flags, mask, k + 1)
    ensures Place(s) == k
  {
  }

  lemma {:induction false} DueMember(flags: set<Signal>, mask: set<Signal>, k: nat, j: nat)
    requires k <= j < |ORDER|
    ensures ORDER[j] in Due(flags, mask, k) <==> ORDER[j] in flags - mask
    decreases j - k
  {
    if k < j {
      DueMember(flags, mask, k + 1, j);
    } else {
      DueLater(flags, mask, k + 1);
    }
  }

  lemma {:induction false} DueLater(flags: set<Signal>, mask: set<Signal>, k: nat)
    ensures var from := if k < |ORDER| then k else |ORDER|;
            forall s :: s in Due(flags, mask, k) ==> s in flags - mask && s in ORDER[from..]
    decreases |ORDER| - k
  {
    if k < |ORDER| { DueLater(flags, mask, k + 1); }
  }

  lemma DueFirst(flags: set<Signal>, mask: set<Signal>)
    ensures var due := Due(flags, mask, 0); due != [] ==> due[0] in flags
  {
    DueLater(flags, mask, 0);
    var due := Due(flags, mask, 0);
    if due != [] { assert due[0] in due; }
  }

  // Every signal has its place in the order.
  function Place(s: Signal): (k: nat)
    ensures k < |ORDER| && ORDER[k] == s
  {
    match s
    case Child => 0 case Alarm => 1 case User => 2 case Hangup => 3
    case Terminate => 4 case Quit => 5 case Interrupt => 6
  }

  lemma DueAll(flags: set<Signal>, mask: set<Signal>, s: Signal)
    ensures s in Due(flags, mask, 0) <==> s in flags - mask
  {
    DueMember(flags, mask, 0, Place(s));
  }

  // With all signals pending and none masked they are due in this order.
  lemma AllDue(flags: set<Signal>)
    requires forall s: Signal :: s in flags
    ensures Due(flags, {}, 0) == [Child, Alarm, User, Hangup, Terminate, Quit, Interrupt]
  {
    DueAllFrom(flags, 0);
    assert ORDER[0..] == ORDER;
  }

  lemma {:induction false} DueAllFrom(flags: set<Signal>, k: nat)
    requires k <= |ORDER| && forall s: Signal :: s in flags
    ensures Due(flags, {}, k) == ORDER[k..]
    decreases |ORDER| - k
  {
    if k < |ORDER| {
      DueAllFrom(flags, k + 1);
      assert ORDER[k..] == [ORDER[k]] + ORDER[k + 1..];
    }
  }

  // Those that are due keep the order they have among all.
  lemma {:induction false} DueAscends(flags: set<Signal>, mask: set<Signal>, k: nat, i: nat, j: nat)
    requires i < j < |Due(flags, mask, k)|
    ensures Place(Due(flags, mask, k)[i]) < Place(Due(flags, mask, k)[j])
    decreases |ORDER| - k
  {
    var s, rest := ORDER[k], Due(flags, mask, k + 1);
    DueStep(flags, mask, k, s);
    if s !in flags || s in mask {
      DueAscends(flags, mask, k + 1, i, j);
    } else if i > 0 {
      DueAscends(flags, mask, k + 1, i - 1, j - 1);
    } else {
      DueBeyond(flags, mask, k + 1, rest[j - 1]);
    }
  }

  lemma {:induction false} DueBeyond(flags: set<Signal>, mask: set<Signal>, k: nat, s: Signal)
    requires s in Due(flags, mask, k)
    ensures k <= Place(s)
    decreases |ORDER| - k
  {
    DueStep(flags, mask, k, ORDER[k]);
    if s != ORDER[k] { DueBeyond(flags, mask, k + 1, s); }
  }

  // A scan that nothing disturbs takes the first signal due, or gives its decrement back.
  lemma {:induction false} ScanTakes(st: State, i: nat, mask: set<Signal>, k: nat)
    requires i < |st.activities| && st.activities[i] == Scanning(mask, k)
    ensures var due := Due(st.flags, mask, k);
            Complete(st, i)
            == if due == [] then State(st.flags, st.counter + 1, st.activities[i := Nothing(mask)])
               else State(st.flags - {due[0]}, st.counter, st.activities[i := Took(mask, due[0])])
    decreases |ORDER| - k
  {
    var after := AdvanceStep(st, i);
    if k >= |ORDER| {
      var last := AdvanceStep(after, i);
      assert Complete(after, i) == Complete(last, i) == last;
      assert last.activities == st.activities[i := Nothing(mask)];
    } else if ORDER[k] in st.flags && ORDER[k] !in mask {
      assert Complete(after, i) == after;
    } else {
      ScanTakes(after, i, mask, k + 1);
      var due := Due(st.flags, mask, k + 1);
      UpdateTwice(st.activities, i, Scanning(mask, k + 1), if due == [] then Nothing(mask) else Took(mask, due[0]));
    }
  }

  lemma RestoreEnds(st: State, i: nat)
    requires i < |st.activities| && st.activities[i].Restoring?
    ensures Complete(st, i)
         == State(st.flags, st.counter + 1, st.activities[i := Nothing(st.activities[i].mask)])
  {
    var last := AdvanceStep(st, i);
    assert Complete(last, i) == last;
  }

  // A whole dispatch, undisturbed.
  function Dispatched(st: State, mask: set<Signal>): (end: State)
    ensures |end.activities| == |st.activities| + 1 && Finished(end.activities[|st.activities|])
  {
    Complete(BeginStep(st, mask), |st.activities|)
  }

  // A dispatch that nothing disturbs, whatever else is in flight, consumes the first signal
  // due exactly when there is one and the counter is positive; otherwise it changes nothing.
  lemma DispatchExactly(st: State, mask: set<Signal>)
    ensures var due := Due(st.flags, mask, 0);
            var after := Dispatched(st, mask);
            if st.counter > 0 && due != []
            then after == State(st.flags - {due[0]}, st.counter - 1, st.activities + [Took(mask, due[0])])
            else after == State(st.flags, st.counter, st.activities + [Nothing(mask)])
  {
    var i := |st.activities|;
    var begun := BeginStep(st, mask);
    var due := Due(st.flags, mask, 0);
    if st.counter > 0 {
      ScanTakes(begun, i, mask, 0);
    } else {
      RestoreEnds(begun, i);
    }
    assert begun.activities[i := Nothing(mask)] == st.activities + [Nothing(mask)];
    if due != [] { assert begun.activities[i := Took(mask, due[0])] == st.activities + [Took(mask, due[0])]; }
  }

  // From rest, a dispatch consumes exactly the first unmasked pending signal, if there
  // is one, and leaves every other flag; either way it ends at rest.
  lemma DispatchTakesFirst(st: State, mask: set<Signal>)
    requires Invariant(st) && AtRest(st)
    ensures var due := Due(st.flags, mask, 0);
            var after := Dispatched(st, mask);
            && Invariant(after) && AtRest(after)
            && after.flags == (if due == [] then st.flags else st.flags - {due[0]})
            && after.activities == st.activities + [if due == [] then Nothing(mask) else Took(mask, due[0])]
  {
    RestCounts(st);
    DispatchExactly(st, mask);
    if st.flags == {} { NoneDue(mask, 0); }
    BeginKeeps(st, mask);
    CompleteIsRun(BeginStep(st, mask), |st.activities|);
    var steps :| Run(BeginStep(st, mask), steps) == Dispatched(st, mask);
    RunKeeps(BeginStep(st, mask), steps);
  }

  lemma {:induction false} NoneDue(mask: set<Signal>, k: nat)
    ensures Due({}, mask, k) == []
    decreases |ORDER| - k
  {
    if k < |ORDER| { NoneDue(mask, k + 1); }
  }

  function DispatchTimes(st: State, mask: set<Signal>, k: nat): State
    decreases k, st
  {
    if k == 0 then st else DispatchTimes(Dispatched(st, mask), mask, k - 1)
  }

  // Taking the first signal due leaves the others due, in the same order.
  lemma {:induction false} DueWithoutFirst(flags: set<Signal>, mask: set<Signal>, k: nat, s: Signal)
    requires var due := Due(flags, mask, k); due != [] && s == due[0]
    ensures Due(flags - {s}, mask, k) == Due(flags, mask, k)[1..]
    decreases |ORDER| - k
  {
    var t := ORDER[k];
    DueStep(flags, mask, k, t);
    DueStep(flags - {s}, mask, k, t);
    if t in flags && t !in mask {
      DueUnaffected(flags, mask, k + 1, s);
    } else {
      DueWithoutFirst(flags, mask, k + 1, s);
    }
  }

  lemma {:induction false} DueUnaffected(flags: set<Signal>, mask: set<Signal>, k: nat, s: Signal)
    requires Place(s) < k
    ensures Due(flags - {s}, mask, k) == Due(flags, mask, k)
    decreases |ORDER| - k
  {
    if k < |ORDER| { DueUnaffected(flags, mask, k + 1, s); }
  }

  // How k dispatches in a row end when these signals are due.
  function Endings(mask: set<Signal>, due: seq<Signal>, k: nat): seq<Activity>
    decreases k, mask
  {
    if k == 0 then []
    else if due == [] then [Nothing(mask)] + Endings(mask, [], k - 1)
    else [Took(mask, due[0])] + Endings(mask, due[1..], k - 1)
  }

  function Without(flags: set<Signal>, gone: seq<Signal>): set<Signal>
    decreases |gone|
  {
    if gone == [] then flags else Without(flags - {gone[0]}, gone[1..])
  }

  function FirstOf(due: seq<Signal>, k: nat): seq<Signal> {
    if k < |due| then due[..k] else due
  }

  // What k dispatches do to the flags and the list of calls.
  ghost predicate Drained(before: State, after: State, mask: set<Signal>, due: seq<Signal>, k: nat) {
    && after.activities == before.activities + Endings(mask, due, k)
    && after.flags == Without(before.flags, FirstOf(due, k))
  }

  lemma DrainedOnce(before: State, once: State, after: State, mask: set<Signal>, due: seq<Signal>, k: nat)
    requires k > 0
    requires once.flags == (if due == [] then before.flags else before.flags - {due[0]})
    requires once.activities == before.activities + [if due == [] then Nothing(mask) else Took(mask, due[0])]
    requires Drained(once, after, mask, if due == [] then [] else due[1..], k - 1)
    ensures Drained(before, after, mask, due, k)
  {
    if due != [] {
      var gone := FirstOf(due, k);
      assert gone[0] == due[0] && gone[1..] == FirstOf(due[1..], k - 1);
    }
  }

  lemma DrainedNone(st: State, mask: set<Signal>, due: seq<Signal>)
    ensures Drained(st, st, mask, due, 0)
  {
    assert FirstOf(due, 0) == [];
    assert Without(st.flags, []) == st.flags;
  }

  // k dispatches from rest drain the first k signals due, in order, and then find nothing.
  lemma {:induction false} DrainsInOrder(st: State, mask: set<Signal>, k: nat, due: seq<Signal>, after: State)
    requires Invariant(st) && AtRest(st)
    requires due == Due(st.flags, mask, 0)
    requires after == DispatchTimes(st, mask, k)
    ensures Invariant(after) && AtRest(after) && Drained(st, after, mask, due, k)
    decreases k, 1
  {
    if k == 0 {
      DrainedNone(st, mask, due);
    } else {
      var once := Dispatched(st, mask);
      DispatchedStep(st, once, mask, due);
      DrainsRest(st, once, mask, k, due, after);
    }
  }

  lemma DispatchedStep(st: State, once: State, mask: set<Signal>, due: seq<Signal>)
    requires Invariant(st) && AtRest(st)
    requires due == Due(st.flags, mask, 0) && once == Dispatched(st, mask)
    ensures Invariant(once) && AtRest(once)
    ensures Due(once.flags, mask, 0) == if due == [] then [] else due[1..]
    ensures once.flags == (if due == [] then st.flags else st.flags - {due[0]})
    ensures once.activities == st.activities + [if due == [] then Nothing(mask) else Took(mask, due[0])]
  {
    DispatchTakesFirst(st, mask);
    if due != [] { DueWithoutFirst(st.flags, mask, 0, due[0]); }
  }

  lemma {:induction false} DrainsRest(st: State, once: State, mask: set<Signal>, k: nat, due: seq<Signal>, after: State)
    requires k > 0
    requires Invariant(once) && AtRest(once) && after == DispatchTimes(once, mask, k - 1)
    requires Due(once.flags, mask, 0) == if due == [] then [] else due[1..]
    requires once.flags == (if due == [] then st.flags else st.flags - {due[0]})
    requires once.activities == st.activities + [if due == [] then Nothing(mask) else Took(mask, due[0])]
    ensures Invariant(after) && AtRest(after) && Drained(st, after, mask, due, k)
    decreases k, 0
  {
    DrainsInOrder(once, mask, k - 1, if due == [] then [] else due[1..], after);
    DrainedOnce(st, once, after, mask, due, k);
  }

  // What pending() reports of a state: some signal counted, and some unmasked flag set.
  predicate Pending(st: State, mask: set<Signal>) {
    st.counter > 0 && exists s :: s in st.flags && s !in mask
  }

  // From rest pending() is true exactly when a dispatch with that mask would consume.
  lemma PendingIsDispatchable(st: State, mask: set<Signal>)
    requires Invariant(st) && AtRest(st)
    ensures Pending(st, mask) <==> Dispatched(st, mask).activities[|st.activities|].Took?
  {
    RestCounts(st);
    DispatchTakesFirst(st, mask);
    var due := Due(st.flags, mask, 0);
    if s :| s in st.flags && s !in mask {
      DueAll(st.flags, mask, s);
      assert due != [];
    } else if due != [] {
      assert due[0] in due;
      DueAll(st.flags, mask, due[0]);
    }
  }

  // With calls in flight the promise of a sequential dispatch fails: while a dispatcher that
  // masks a pending signal holds its decrement, another that does not mask it gives up.
  lemma ConcurrentDispatchMisses()
    ensures var st := Run(INITIAL, [Raise(Child), Advance(0), Begin({Child})]);
            && Child in st.flags
            && Dispatched(st, {}).activities[2] == Nothing({})
            && Dispatched(st, {}).flags == {Child}
  {
    var st1 := RaiseStep(INITIAL, Child);
    assert st1.activities == [Marked(Child)];
    var st2 := AdvanceStep(st1, 0);
    assert st2.activities == [Counted(Child)];
    var st := BeginStep(st2, {Child});
    assert Run(INITIAL, [Raise(Child), Advance(0), Begin({Child})]) == st by {
      var steps := [Raise(Child), Advance(0), Begin({Child})];
      assert steps[1..] == [Advance(0), Begin({Child})];
      assert steps[1..][1..] == [Begin({Child})];
      assert Run(st1, steps[1..]) == Run(st2, [Begin({Child})]);
      assert Run(st2, [Begin({Child})]) == Run(st, []);
    }
    var begun := BeginStep(st, {});
    assert begun.activities[2] == Restoring({});
    assert Complete(begun, 2) == AdvanceStep(begun, 2);
  }

  // ----- The handler table -----

  // A registered handler: without a callback the signal is raised as an error.
  datatype Handler = Handler(signal: Signal, callback: Option<nat>)

  // The callback that does nothing.
  const NOTHING: nat := 0

  class Handle {
    var flags: set<Signal>
    var total: int
    var handlers: seq<Handler>

    ghost predicate Valid()
      reads this
    {
      && total == |flags|
      && |handlers| == |ORDER|
      && forall k :: 0 <= k < |ORDER| ==> handlers[k].signal == ORDER[k]
    }

    // The same state, seen as one of the protocol with no call in flight.
    ghost function Protocol(): State
      reads this
    {
      State(flags, total, [])
    }

    // Only the hangup signal is born with a callback, one that does nothing.
    constructor ()
      ensures Valid() && Protocol() == INITIAL
      ensures forall s :: handlers[Place(s)] == Handler(s, if s == Hangup then Some(NOTHING) else None)
    {
      flags, total := {}, 0;
      handlers := seq(|ORDER|, k requires 0 <= k < |ORDER| =>
                      Handler(ORDER[k], if ORDER[k] == Hangup then Some(NOTHING) else None));
    }

    // A handler that runs to its end.
    method Raise(signal: Signal)
      requires Valid()
      modifies this`flags, this`total
      ensures Valid()
      ensures var end := Complete(RaiseStep(old(Protocol()), signal), 0);
              flags == end.flags && total == end.counter
    {
      ghost var raised := RaiseStep(Protocol(), signal);
      if signal !in flags {
        flags := flags + {signal};
        total := total + 1;
        assert Complete(AdvanceStep(raised, 0), 0) == AdvanceStep(raised, 0);
      } else {
        assert flags + {signal} == flags;
      }
    }

    // Exchanges the callback of a signal for another.
    method Replace(signal: Signal, callback: Option<nat>) returns (previous: Option<nat>)
      requires Valid()
      modifies this`handlers
      ensures Valid()
      ensures var k := Place(signal);
              && previous == old(handlers)[k].callback
              && handlers == old(handlers)[k := Handler(signal, callback)]
    {
      var k := 0;
      while handlers[k].signal != signal
        invariant 0 <= k <= Place(signal)
        decreases |handlers| - k
      {
        k := k + 1;
      }
      previous := handlers[k].callback;
      handlers := handlers[k := Handler(signal, callback)];
    }

    // Tries the handlers in order and consumes the first unmasked pending signal.
    method Scan(mask: set<Signal>) returns (taken: Option<Handler>)
      requires |handlers| == |ORDER|
      requires forall k :: 0 <= k < |ORDER| ==> handlers[k].signal == ORDER[k]
      modifies this`flags
      ensures var due := Due(old(flags), mask, 0);
              if due == [] then taken == None && flags == old(flags)
              else taken == Some(handlers[Place(due[0])]) && flags == old(flags) - {due[0]}
    {
      ghost var due := Due(flags, mask, 0);
      var k := 0;
      while k < |handlers|
        invariant 0 <= k <= |handlers|
        invariant flags == old(flags)
        invariant due == Due(flags, mask, k)
      {
        var signal := handlers[k].signal;
        DueStep(flags, mask, k, signal);
        if signal !in mask && signal in flags {
          flags := flags - {signal};
          return Some(handlers[k]);
        }
        k := k + 1;
      }
      return None;
    }

    // One dispatch. It changes the state as the protocol's undisturbed dispatch does, and
    // hands out the handler whose callback is to run (or whose signal is to be raised).
    method Dispatch(mask: set<Signal>) returns (taken: Option<Handler>)
      requires Valid()
      modifies this`flags, this`total
      ensures Valid()
      ensures var end := Dispatched(old(Protocol()), mask);
              && flags == end.flags && total == end.counter
              && end.activities[0] == (if taken.None? then Nothing(mask) else Took(mask, taken.value.signal))
      ensures taken.Some? ==> taken.value == handlers[Place(taken.value.signal)]
      ensures var due := Due(old(flags), mask, 0);
              taken == if old(total) > 0 && due != [] then Some(handlers[Place(due[0])]) else None
    {
      ghost var before := Protocol();
      DispatchExactly(before, mask);
      DueFirst(flags, mask);
      total := total - 1;
      if total >= 0 {
        taken := Scan(mask);
        if taken.None? { total := total + 1; }
      } else {
        NoneDue(mask, 0);
        taken := None;
        total := total + 1;
      }
    }
  }

  // Callbacks that are put in place, one after another.
  type Callbacks = seq<(Signal, Option<nat>)>

  // The callback a signal has after some have been put in place of others.
  function CallbackAfter(first: Option<nat>, others: Callbacks, s: Signal): Option<nat>
    decreases |others|
  {
    if others == [] then first
    else
      var last := others[|others| - 1];
      if last.0 == s then last.1 else CallbackAfter(first, others[..|others| - 1], s)
  }

  // A signal that is raised and dispatched is handed out with the callback put in place last
  // for it; with none, so that it is raised as an error, if there never was one, except that
  // the one for hangup does nothing.
  method RaiseAndDispatch(s: Signal, others: Callbacks) returns (taken: Option<Handler>)
    ensures taken == Some(Handler(s, CallbackAfter(if s == Hangup then Some(NOTHING) else None, others, s)))
    ensures (forall o :: o in others ==> o.0 != s) ==>
      taken == Some(Handler(s, if s == Hangup then Some(NOTHING) else None))
  {
    var handle := new Handle();
    var born := if s == Hangup then Some(NOTHING) else None;
    for n := 0 to |others|
      invariant handle.Valid() && handle.Protocol() == INITIAL && fresh(handle)
      invariant handle.handlers[Place(s)] == Handler(s, CallbackAfter(born, others[..n], s))
    {
      PrefixNext(others, n);
      var previous := handle.Replace(others[n].0, others[n].1);
    }
    assert others[..|others|] == others;
    NeverReplaced(born, others, s);
    taken := RaiseOne(handle, s);
  }

  method RaiseOne(handle: Handle, s: Signal) returns (taken: Option<Handler>)
    requires handle.Valid() && handle.Protocol() == INITIAL
    modifies handle`flags, handle`total
    ensures handle.Valid() && taken == Some(handle.handlers[Place(s)])
  {
    handle.Raise(s);
    OneRaised(s);
    OneDue(s);
    taken := handle.Dispatch({});
  }

  lemma {:induction false} NeverReplaced(first: Option<nat>, others: Callbacks, s: Signal)
    ensures (forall o :: o in others ==> o.0 != s) ==> CallbackAfter(first, others, s) == first
    decreases |others|
  {
    if others != [] {
      var front := others[..|others| - 1];
      assert forall o :: o in front ==> o in others;
      NeverReplaced(first, front, s);
    }
  }

  lemma OneRaised(s: Signal)
    ensures var end := Complete(RaiseStep(INITIAL, s), 0); end.flags == {s} && end.counter == 1
  {
    var raised := RaiseStep(INITIAL, s);
    assert Complete(AdvanceStep(raised, 0), 0) == AdvanceStep(raised, 0);
  }

  lemma OneDue(s: Signal)
    ensures var due := Due({s}, {}, 0); due != [] && due[0] == s
  {
    DueAll({s}, {}, s);
    DueFirst({s}, {});
  }
}
