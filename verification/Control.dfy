/**
 Cancellation control (src/control.cpp): the source and token objects, and the waiting protocol
 behind them as a step relation over any number of concurrent calls.
 */
module Control {
  import opened Wrappers
  import opened Bytes
  import opened Requests

  /** What a token answers at one moment: the request it is bound to, and whether it was signalled. */
  datatype Token = Token(request: Hex, requested: bool)

  function Enabled(r: Request): bool {
    !r.body.cancellation.Disabled?
  }

  /** require_cancellation_control. */
  function RequireControl(r: Request, token: Token): Outcome {
    if !Enabled(r) then Fail(InvalidControl)
    else if token.request != r.identity then Fail(ControlMismatch)
    else Pass
  }

  /** `cancellation_source` with the state it owns; tokens are views of it. */
  class CancellationSource {
    const request: Hex
    var requested: bool

    constructor (request: Hex)
      ensures this.request == request && !requested
    {
      this.request, requested := request, false;
    }

    /** Disabled cancellation has no source. */
    static method ForRequest(r: Request) returns (source: Result<CancellationSource>)
      ensures source.Ok? <==> Enabled(r)
      ensures source.Ok? ==> fresh(source.value) && source.value.request == r.identity && !source.value.requested
      ensures source.Err? ==> source.code == InvalidControl
    {
      if !Enabled(r) {
        return Err(InvalidControl);
      }
      var s := new CancellationSource(r.identity);
      return Ok(s);
    }

    function View(): Token
      reads this
    {
      Token(request, requested)
    }

    /** True on the one call that makes the transition. */
    method RequestCancellation() returns (first: bool)
      modifies this
      ensures requested && first == !old(requested)
    {
      if requested {
        return false;
      }
      requested := true;
      return true;
    }
  }

  // ---------------------------------------------------------------- the concurrent protocol

  /**
   Where one call is. A requester locks, tests, stores, unlocks and only then notifies. A waiter
   locks, tests the flag, and blocks on the condition variable (which releases the mutex) until a
   notification, a spurious wakeup or its timeout; then it must take the mutex again.
   `timed` is `wait_for`; after a timeout it tests once more and returns the flag.
   */
  datatype Pc =
    | RequestEntry
    | RequestLocked
    | RequestStored
    | RequestNotify
    | RequestDone(won: bool)
    | WaitEntry(timed: bool)
    | WaitLocked(timed: bool)
    | WaitBlocked(timed: bool)
    | WaitWoken(timed: bool)
    | WaitExpired
    | WaitLastTest
    | WaitDone(timed: bool, sawFlag: bool)
  {
    predicate HoldsMutex() {
      RequestLocked? || RequestStored? || WaitLocked? || WaitLastTest?
    }

    /** This request made the transition: at most one call ever does. */
    predicate Winner() {
      RequestStored? || RequestNotify? || (RequestDone? && won)
    }

    predicate Finished() {
      RequestDone? || WaitDone?
    }
  }

  /** Any number of calls on one cancellation state, in order of arrival; `owner` holds the mutex. */
  datatype State = State(flag: bool, owner: Option<nat>, calls: seq<Pc>)

  /** `Go` is the call's own next step; `Spurious` and `TimeOut` are the environment's. */
  datatype Event = RequestBegins | WaitBegins(timed: bool) | Go(call: nat) | Spurious(call: nat) | TimeOut(call: nat)

  const INITIAL := State(false, None, [])

  predicate CanGo(s: State, c: nat) {
    c < |s.calls| &&
    match s.calls[c]
    case RequestEntry => s.owner.None?
    case WaitEntry(_) => s.owner.None?
    case WaitWoken(_) => s.owner.None?
    case WaitExpired => s.owner.None?
    case WaitBlocked(_) => false
    case RequestDone(_) => false
    case WaitDone(_, _) => false
    case _ => true
  }

  predicate Possible(s: State, e: Event) {
    match e
    case RequestBegins => true
    case WaitBegins(_) => true
    case Go(c) => CanGo(s, c)
    case Spurious(c) => c < |s.calls| && s.calls[c].WaitBlocked?
    case TimeOut(c) =>
      && c < |s.calls|
      && (s.calls[c].WaitBlocked? || s.calls[c].WaitWoken? || s.calls[c].WaitEntry?)
      && s.calls[c].timed
  }

  /** notify_all: every blocked waiter leaves the wait set. */
  function NotifyAll(calls: seq<Pc>): (r: seq<Pc>)
    ensures |r| == |calls|
    ensures forall c | 0 <= c < |calls| ::
      r[c] == if calls[c].WaitBlocked? then WaitWoken(calls[c].timed) else calls[c]
  {
    seq(|calls|, c requires 0 <= c < |calls| =>
      if calls[c].WaitBlocked? then WaitWoken(calls[c].timed) else calls[c])
  }

  function Advance(s: State, c: nat): State
    requires CanGo(s, c)
  {
    match s.calls[c]
    case RequestEntry => State(s.flag, Some(c), s.calls[c := RequestLocked])
    case RequestLocked =>
      if s.flag then State(s.flag, None, s.calls[c := RequestDone(false)])
      else State(true, s.owner, s.calls[c := RequestStored])
    case RequestStored => State(s.flag, None, s.calls[c := RequestNotify])
    case RequestNotify => s.(calls := NotifyAll(s.calls)[c := RequestDone(true)])
    case WaitEntry(timed) => State(s.flag, Some(c), s.calls[c := WaitLocked(timed)])
    case WaitWoken(timed) => State(s.flag, Some(c), s.calls[c := WaitLocked(timed)])
    case WaitLocked(timed) =>
      State(s.flag, None, s.calls[c := if s.flag then WaitDone(timed, true) else WaitBlocked(timed)])
    case WaitExpired => State(s.flag, Some(c), s.calls[c := WaitLastTest])
    case WaitLastTest => State(s.flag, None, s.calls[c := WaitDone(true, s.flag)])
  }

  function Fire(s: State, e: Event): State
    requires Possible(s, e)
  {
    match e
    case RequestBegins => s.(calls := s.calls + [RequestEntry])
    case WaitBegins(timed) => s.(calls := s.calls + [WaitEntry(timed)])
    case Go(c) => Advance(s, c)
    case Spurious(c) => s.(calls := s.calls[c := WaitWoken(s.calls[c].timed)])
    case TimeOut(c) =>
      // A non-positive timeout never locks: it returns the flag. Any other expires, then tests once more.
      s.(calls := s.calls[c := if s.calls[c].WaitEntry? then WaitDone(true, s.flag) else WaitExpired])
  }

  /** `after` is reached from `before` by the given interleaving. */
  ghost predicate Run(before: State, schedule: seq<Event>, after: State)
    decreases |schedule|
  {
    if schedule == [] then before == after
    else Possible(before, schedule[0]) && Run(Fire(before, schedule[0]), schedule[1..], after)
  }

  // ---------------------------------------------------------------- invariants

  /** The mutex is held by the call that is inside it, and by no other. */
  ghost predicate MutualExclusion(s: State) {
    forall c | 0 <= c < |s.calls| :: s.calls[c].HoldsMutex() <==> s.owner == Some(c)
  }

  ghost predicate OwnerExists(s: State) {
    s.owner.Some? ==> s.owner.value < |s.calls|
  }

  /** The flag is set exactly when one call has made the transition, and then exactly one has. */
  ghost predicate OneWinner(s: State) {
    && (s.flag <==> exists c :: 0 <= c < |s.calls| && s.calls[c].Winner())
    && forall c, d | 0 <= c < d < |s.calls| :: !(s.calls[c].Winner() && s.calls[d].Winner())
  }

  /** A call that lost, or a wait that succeeded, did so because the flag is set; a plain wait only succeeds. */
  ghost predicate HonestReturns(s: State) {
    forall c | 0 <= c < |s.calls| ::
      && (s.calls[c] == RequestDone(false) ==> s.flag)
      && (s.calls[c].WaitDone? && s.calls[c].sawFlag ==> s.flag)
      && (s.calls[c].WaitDone? && !s.calls[c].timed ==> s.calls[c].sawFlag)
  }

  /** A waiter blocked while the flag is set is owed a notification that is still to come. */
  ghost predicate NoLostWakeup(s: State) {
    s.flag && (exists w :: 0 <= w < |s.calls| && s.calls[w].WaitBlocked?) ==>
      exists r :: 0 <= r < |s.calls| && (s.calls[r].RequestStored? || s.calls[r].RequestNotify?)
  }

  ghost predicate Inv(s: State) {
    OwnerExists(s) && MutualExclusion(s) && OneWinner(s) && HonestReturns(s) && NoLostWakeup(s)
  }

  lemma BeginKeepsInv(s: State, pc: Pc)
    requires Inv(s) && (pc.RequestEntry? || pc.WaitEntry?)
    ensures Inv(s.(calls := s.calls + [pc]))
  {
    var t := s.(calls := s.calls + [pc]);
    assert forall c | 0 <= c < |s.calls| :: t.calls[c] == s.calls[c];
  }

  /** A step that does not touch the flag and involves no winner. */
  lemma QuietKeepsInv(s: State, c: nat, pc: Pc, owner: Option<nat>)
    requires Inv(s) && c < |s.calls| && !s.calls[c].Winner() && !pc.Winner()
    requires
      || (!s.calls[c].HoldsMutex() && !pc.HoldsMutex() && owner == s.owner)
      || (s.owner.None? && pc.HoldsMutex() && owner == Some(c))
      || (s.calls[c].HoldsMutex() && !pc.HoldsMutex() && owner.None?)
    requires pc.WaitBlocked? ==> !s.flag
    requires pc == RequestDone(false) ==> s.flag
    requires pc.WaitDone? ==> pc.sawFlag == s.flag && (pc.timed || s.flag)
    ensures Inv(State(s.flag, owner, s.calls[c := pc]))
  {
  }

  lemma WinKeepsInv(s: State, c: nat)
    requires Inv(s) && c < |s.calls| && s.calls[c].RequestLocked? && !s.flag
    ensures Inv(State(true, s.owner, s.calls[c := RequestStored]))
  {
    assert s.calls[c := RequestStored][c].Winner();
  }

  lemma UnlockKeepsInv(s: State, c: nat)
    requires Inv(s) && c < |s.calls| && s.calls[c].RequestStored?
    ensures Inv(State(s.flag, None, s.calls[c := RequestNotify]))
  {
    assert s.calls[c].Winner() && s.calls[c := RequestNotify][c].Winner();
  }

  lemma NotifyKeepsInv(s: State, c: nat)
    requires Inv(s) && c < |s.calls| && s.calls[c].RequestNotify?
    ensures Inv(s.(calls := NotifyAll(s.calls)[c := RequestDone(true)]))
  {
    var t := NotifyAll(s.calls)[c := RequestDone(true)];
    assert s.calls[c].Winner() && t[c].Winner();
    assert forall d | 0 <= d < |t| && d != c :: t[d].Winner() == s.calls[d].Winner();
  }

  lemma StepKeepsInv(s: State, e: Event)
    requires Inv(s) && Possible(s, e)
    ensures Inv(Fire(s, e))
    ensures s.flag ==> Fire(s, e).flag
    ensures forall c | 0 <= c < |s.calls| && s.calls[c].Finished() :: Fire(s, e).calls[c] == s.calls[c]
  {
    hide Inv, NotifyAll;
    match e {
      case RequestBegins => BeginKeepsInv(s, RequestEntry);
      case WaitBegins(timed) => BeginKeepsInv(s, WaitEntry(timed));
      case Spurious(c) => QuietKeepsInv(s, c, WaitWoken(s.calls[c].timed), s.owner);
      case TimeOut(c) =>
        QuietKeepsInv(s, c, if s.calls[c].WaitEntry? then WaitDone(true, s.flag) else WaitExpired, s.owner);
      case Go(c) =>
        var t := Advance(s, c);
        if s.calls[c].RequestStored? {
          UnlockKeepsInv(s, c);
        } else if s.calls[c].RequestNotify? {
          NotifyKeepsInv(s, c);
        } else if s.calls[c].RequestLocked? && !s.flag {
          WinKeepsInv(s, c);
        } else {
          QuietKeepsInv(s, c, t.calls[c], t.owner);
        }
    }
  }

  /** The invariant of every interleaving; the flag never resets and a returned call stays returned. */
  lemma {:induction false} RunKeepsInv(before: State, schedule: seq<Event>, after: State)
    requires Inv(before) && Run(before, schedule, after)
    ensures Inv(after)
    ensures before.flag ==> after.flag
    ensures |before.calls| <= |after.calls|
    ensures forall c | 0 <= c < |before.calls| && before.calls[c].Finished() :: after.calls[c] == before.calls[c]
    decreases |schedule|
  {
    if schedule != [] {
      StepKeepsInv(before, schedule[0]);
      RunKeepsInv(Fire(before, schedule[0]), schedule[1..], after);
    }
  }

  /** In every reachable state nothing is lost, and nothing is reported that did not happen. */
  lemma EveryInterleavingIsSafe(schedule: seq<Event>, s: State)
    requires Run(INITIAL, schedule, s)
    ensures NoLostWakeup(s)
    ensures forall c | 0 <= c < |s.calls| && s.calls[c].WaitDone? :: s.calls[c].sawFlag ==> s.flag
    ensures forall c | 0 <= c < |s.calls| && s.calls[c].WaitDone? && !s.calls[c].timed :: s.calls[c].sawFlag && s.flag
    ensures forall c, d | 0 <= c < d < |s.calls| :: !(s.calls[c] == s.calls[d] == RequestDone(true))
    ensures forall c | 0 <= c < |s.calls| && s.calls[c].RequestDone? ::
      s.flag && exists d :: 0 <= d < |s.calls| && s.calls[d].Winner()
  {
    RunKeepsInv(INITIAL, schedule, s);
    forall c | 0 <= c < |s.calls| && s.calls[c].RequestDone?
      ensures s.flag
    {
      assert s.calls[c].won ==> s.calls[c].Winner();
    }
  }

  /** Once some request has returned and none is in progress, exactly one of them returned true. */
  lemma ExactlyOneReturnsTrue(schedule: seq<Event>, s: State, c: nat)
    requires Run(INITIAL, schedule, s)
    requires c < |s.calls| && s.calls[c].RequestDone?
    requires forall d | 0 <= d < |s.calls| :: !s.calls[d].RequestStored? && !s.calls[d].RequestNotify?
    ensures exists d :: 0 <= d < |s.calls| && s.calls[d] == RequestDone(true)
                     && forall e | 0 <= e < |s.calls| && s.calls[e] == RequestDone(true) :: e == d
  {
    EveryInterleavingIsSafe(schedule, s);
    var d :| 0 <= d < |s.calls| && s.calls[d].Winner();
    assert s.calls[d] == RequestDone(true);
  }

  // ---------------------------------------------------------------- what calls return

  /** A wait that returns answers with the flag as it is at that step, after an expired timer too. */
  lemma ReturnTellsTheFlag(s: State, e: Event, c: nat)
    requires Possible(s, e) && c < |s.calls| && !s.calls[c].WaitDone?
    ensures Fire(s, e).calls[c].WaitDone? ==> Fire(s, e).calls[c].sawFlag == s.flag == Fire(s, e).flag
  {
  }

  /** A request that returns answers whether it set the flag. */
  lemma RequestTellsTheTransition(s: State, e: Event, c: nat)
    requires Possible(s, e) && c < |s.calls|
    ensures !s.flag && Fire(s, e).flag ==> e.Go? && Fire(s, e).calls[e.call].RequestStored?
    ensures s.calls[c].RequestStored? || s.calls[c].RequestNotify? ==>
      Fire(s, e).calls[c] in {RequestStored, RequestNotify, RequestDone(true)}
    ensures Fire(s, e).calls[c] == RequestDone(true) ==> s.calls[c] == RequestDone(true) || s.calls[c].RequestNotify?
    ensures Fire(s, e).calls[c] == RequestDone(false) ==>
      s.calls[c] == RequestDone(false) || (s.calls[c].RequestLocked? && s.flag)
  {
  }

  /** The flag as it was when the wait `c`, which had not returned before the schedule, returned in it. */
  function FlagAtReturn(before: State, schedule: seq<Event>, c: nat): bool
    requires Steps(before, schedule) && c < |before.calls|
    decreases |schedule|
  {
    if schedule == [] then before.flag
    else if !before.calls[c].WaitDone? && Fire(before, schedule[0]).calls[c].WaitDone? then before.flag
    else FlagAtReturn(Fire(before, schedule[0]), schedule[1..], c)
  }

  predicate Steps(before: State, schedule: seq<Event>)
    decreases |schedule|
  {
    schedule == [] || (Possible(before, schedule[0]) && Steps(Fire(before, schedule[0]), schedule[1..]))
  }

  lemma {:induction false} DoneStays(before: State, schedule: seq<Event>, after: State, c: nat)
    requires Run(before, schedule, after) && c < |before.calls| && before.calls[c].WaitDone?
    ensures c < |after.calls| && after.calls[c] == before.calls[c]
    decreases |schedule|
  {
    if schedule != [] {
      DoneStays(Fire(before, schedule[0]), schedule[1..], after, c);
    }
  }

  /**
   In any run a wait that returns reports the flag as it was at its return; and it reports false only
   if it was timed and its timer fired in the run.
   */
  lemma {:induction false} WaitsReturnTheFlag(before: State, schedule: seq<Event>, after: State, c: nat)
    requires Run(before, schedule, after) && c < |before.calls| && !before.calls[c].WaitDone?
    ensures Steps(before, schedule) && c < |after.calls|
    ensures after.calls[c].WaitDone? ==> after.calls[c].sawFlag == FlagAtReturn(before, schedule, c)
    ensures after.calls[c].WaitDone? && !after.calls[c].sawFlag ==>
      TimeOut(c) in schedule || before.calls[c].WaitExpired? || before.calls[c].WaitLastTest?
    decreases |schedule|
  {
    if schedule != [] {
      var e, next := schedule[0], Fire(before, schedule[0]);
      ReturnTellsTheFlag(before, e, c);
      assert e in schedule && forall x | x in schedule[1..] :: x in schedule;
      if next.calls[c].WaitDone? {
        RunIsSteps(next, schedule[1..], after);
        DoneStays(next, schedule[1..], after, c);
      } else {
        WaitsReturnTheFlag(next, schedule[1..], after, c);
      }
    }
  }

  lemma {:induction false} RunIsSteps(before: State, schedule: seq<Event>, after: State)
    requires Run(before, schedule, after)
    ensures Steps(before, schedule)
    decreases |schedule|
  {
    if schedule != [] {
      RunIsSteps(Fire(before, schedule[0]), schedule[1..], after);
    }
  }

  predicate IsRequest(pc: Pc) {
    pc.RequestEntry? || pc.RequestLocked? || pc.RequestStored? || pc.RequestNotify? || pc.RequestDone?
  }

  /** `wait`, which has no timer: if it has returned, it has seen the flag. */
  predicate IsPlainWait(pc: Pc) {
    pc in {WaitEntry(false), WaitLocked(false), WaitBlocked(false), WaitWoken(false), WaitDone(false, true)}
  }

  predicate IsTimedWait(pc: Pc) {
    || pc in {WaitEntry(true), WaitLocked(true), WaitBlocked(true), WaitWoken(true)}
    || pc.WaitExpired? || pc.WaitLastTest? || (pc.WaitDone? && pc.timed)
  }

  /**
   In any run a call stays the operation it began as; in particular no timer ever fires for a plain
   wait, and it never returns but with the flag set.
   */
  lemma {:induction false} CallsKeepTheirKind(before: State, schedule: seq<Event>, after: State, c: nat)
    requires Run(before, schedule, after) && c < |before.calls|
    ensures c < |after.calls|
    ensures IsRequest(before.calls[c]) ==> IsRequest(after.calls[c])
    ensures IsTimedWait(before.calls[c]) ==> IsTimedWait(after.calls[c])
    ensures IsPlainWait(before.calls[c]) ==> IsPlainWait(after.calls[c]) && TimeOut(c) !in schedule
    decreases |schedule|
  {
    if schedule != [] {
      CallsKeepTheirKind(Fire(before, schedule[0]), schedule[1..], after, c);
      assert schedule == [schedule[0]] + schedule[1..];
    }
  }

  /** Nothing keeps the environment from starting calls, waking any blocked waiter, or firing any timer. */
  lemma EnvironmentIsFree(s: State, c: nat, timed: bool)
    ensures Possible(s, RequestBegins) && Possible(s, WaitBegins(timed))
    ensures c < |s.calls| && s.calls[c].WaitBlocked? ==> Possible(s, Spurious(c))
    ensures c < |s.calls| && s.calls[c] in {WaitEntry(true), WaitBlocked(true), WaitWoken(true)} ==>
      Possible(s, TimeOut(c))
    ensures s.owner.None? && c < |s.calls| && (s.calls[c].RequestEntry? || s.calls[c].WaitEntry?) ==> CanGo(s, c)
  {
  }

  // ---------------------------------------------------------------- real-time order

  /** What a request that began with the flag set can still be: it never makes the transition. */
  predicate LateRequest(pc: Pc) {
    pc.RequestEntry? || pc.RequestLocked? || pc == RequestDone(false)
  }

  /** What a wait that began with the flag set can still be: it never blocks, and only returns true. */
  predicate LateWait(pc: Pc) {
    pc.WaitEntry? || pc.WaitLocked? || (pc.WaitDone? && pc.sawFlag)
  }

  /**
   The calls are ordered as they happen: one that begins after the transition is answered as the
   signalled source would answer it, a request with false, a wait at once with true.
   */
  lemma {:induction false} LateCallsSeeTheFlag(before: State, schedule: seq<Event>, after: State, c: nat)
    requires before.flag && Run(before, schedule, after) && c < |before.calls|
    ensures after.flag && |after.calls| >= |before.calls|
    ensures LateRequest(before.calls[c]) ==> LateRequest(after.calls[c])
    ensures LateWait(before.calls[c]) ==> LateWait(after.calls[c])
    decreases |schedule|
  {
    if schedule != [] {
      LateCallsSeeTheFlag(Fire(before, schedule[0]), schedule[1..], after, c);
    }
  }

  // ---------------------------------------------------------------- progress

  /** No deadlock: when no call can go on, every unfinished call is a waiter with nothing to wait for yet. */
  lemma StuckOnlyWhileUnrequested(schedule: seq<Event>, s: State, c: nat)
    requires Run(INITIAL, schedule, s)
    requires forall d :: !CanGo(s, d)
    requires c < |s.calls| && !s.calls[c].Finished()
    ensures s.calls[c].WaitBlocked? && !s.flag
  {
    RunKeepsInv(INITIAL, schedule, s);
    if s.owner.Some? {
      assert s.calls[s.owner.value].HoldsMutex();
      assert CanGo(s, s.owner.value);
    }
    assert !CanGo(s, c);
    if s.flag && s.calls[c].WaitBlocked? {
      var r :| 0 <= r < |s.calls| && (s.calls[r].RequestStored? || s.calls[r].RequestNotify?);
      assert CanGo(s, r);
    }
  }

  /**
   How many steps of its own a call can still take. Before the flag is set that includes the steps
   up to blocking again, or up to the return after an expired timer.
   */
  function Rank(pc: Pc, flag: bool): nat {
    match pc
    case RequestEntry => 4
    case RequestLocked => 3
    case RequestStored => 2
    case RequestNotify => 1
    case RequestDone(_) => 0
    case WaitEntry(_) => if flag then 2 else 5
    case WaitLocked(_) => if flag then 1 else 4
    case WaitBlocked(_) => if flag then 2 else 3
    case WaitWoken(_) => if flag then 2 else 5
    case WaitExpired => 2
    case WaitLastTest => 1
    case WaitDone(_, _) => 0
  }

  function Work(calls: seq<Pc>, flag: bool): nat {
    if calls == [] then 0 else Rank(calls[0], flag) + Work(calls[1..], flag)
  }

  lemma {:induction false} WorkUpdate(calls: seq<Pc>, c: nat, pc: Pc, flag: bool)
    requires c < |calls|
    ensures Work(calls[c := pc], flag) == Work(calls, flag) - Rank(calls[c], flag) + Rank(pc, flag)
  {
    if c > 0 {
      WorkUpdate(calls[1..], c - 1, pc, flag);
      assert calls[c := pc][1..] == calls[1..][c - 1 := pc];
    } else {
      assert calls[c := pc][1..] == calls[1..];
    }
  }

  lemma {:induction false} WorkAppend(calls: seq<Pc>, pc: Pc, flag: bool)
    ensures Work(calls + [pc], flag) == Work(calls, flag) + Rank(pc, flag)
  {
    if calls == [] {
      assert [] + [pc] == [pc] && [pc][1..] == [];
    } else {
      WorkAppend(calls[1..], pc, flag);
      assert (calls + [pc])[1..] == calls[1..] + [pc];
    }
  }

  lemma {:induction false} WorkNotify(calls: seq<Pc>)
    ensures Work(NotifyAll(calls), true) == Work(calls, true)
  {
    if calls != [] {
      WorkNotify(calls[1..]);
      assert NotifyAll(calls)[1..] == NotifyAll(calls[1..]);
    }
  }

  /** Setting the flag makes no call's way longer. */
  lemma {:induction false} WorkWithFlag(calls: seq<Pc>)
    ensures Work(calls, true) <= Work(calls, false)
  {
    if calls != [] {
      WorkWithFlag(calls[1..]);
    }
  }

  /** What one event may add to the work: new calls always, a spurious wakeup only before the flag is set. */
  function Added(e: Event, flag: bool): nat {
    match e
    case RequestBegins => 4
    case WaitBegins(_) => if flag then 2 else 5
    case Spurious(_) => if flag then 0 else 2
    case TimeOut(_) => 0
    case Go(_) => 0
  }

  /** A step of a call uses up work, and no other event adds more than its share. */
  lemma StepUsesWork(s: State, e: Event)
    requires Inv(s) && Possible(s, e)
    ensures var t := Fire(s, e);
      Work(t.calls, t.flag) + (if e.Go? then 1 else 0) <= Work(s.calls, s.flag) + Added(e, s.flag)
  {
    hide Inv, Work, NotifyAll, OneWinner, NoLostWakeup;
    match e {
      case RequestBegins => WorkAppend(s.calls, RequestEntry, s.flag);
      case WaitBegins(timed) => WorkAppend(s.calls, WaitEntry(timed), s.flag);
      case Spurious(c) => WorkUpdate(s.calls, c, Fire(s, e).calls[c], s.flag);
      case TimeOut(c) => WorkUpdate(s.calls, c, Fire(s, e).calls[c], s.flag);
      case Go(c) =>
        if s.calls[c].RequestNotify? {
          NotifierSeesFlag(s, c);
          WorkNotify(s.calls);
          WorkUpdate(NotifyAll(s.calls), c, RequestDone(true), true);
        } else {
          var t := Advance(s, c);
          WorkUpdate(s.calls, c, t.calls[c], s.flag);
          WorkWithFlag(t.calls);
        }
    }
  }

  lemma NotifierSeesFlag(s: State, c: nat)
    requires Inv(s) && c < |s.calls| && s.calls[c].RequestNotify?
    ensures s.flag && NotifyAll(s.calls)[c] == RequestNotify
  {
    assert s.calls[c].Winner();
  }

  /** The steps calls take in a schedule. */
  function Goes(schedule: seq<Event>): nat {
    if schedule == [] then 0 else (if schedule[0].Go? then 1 else 0) + Goes(schedule[1..])
  }

  /** The calls that begin in a schedule. */
  function Begins(schedule: seq<Event>): nat {
    if schedule == [] then 0
    else (if schedule[0].RequestBegins? || schedule[0].WaitBegins? then 1 else 0) + Begins(schedule[1..])
  }

  /**
   In any run the steps of calls are paid for: by the work there was at the start, and by the other
   events. Once the flag is set only new calls pay; timeouts and spurious wakeups add nothing.
   */
  lemma {:induction false} WorkBoundsRun(before: State, schedule: seq<Event>, after: State)
    requires Inv(before) && Run(before, schedule, after)
    ensures Goes(schedule) + Work(after.calls, after.flag)
         <= Work(before.calls, before.flag) + 5 * (|schedule| - Goes(schedule))
    ensures before.flag ==>
      Goes(schedule) + Work(after.calls, after.flag) <= Work(before.calls, before.flag) + 4 * Begins(schedule)
    decreases |schedule|
  {
    hide Inv, Work;
    if schedule != [] {
      StepKeepsInv(before, schedule[0]);
      StepUsesWork(before, schedule[0]);
      WorkBoundsRun(Fire(before, schedule[0]), schedule[1..], after);
    }
  }

  lemma {:induction false} RunConcat(a: State, x: seq<Event>, b: State, y: seq<Event>, c: State)
    requires Run(a, x, b) && Run(b, y, c)
    ensures Run(a, x + y, c)
    decreases |x|
  {
    if x == [] {
      assert x + y == y;
    } else {
      RunConcat(Fire(a, x[0]), x[1..], b, y, c);
      assert (x + y)[0] == x[0] && (x + y)[1..] == x[1..] + y;
    }
  }

  /**
   Progress of every run, whatever begins, times out or wakes spuriously, with the flag set or not:
   the calls take at most five steps for each event that is not a step of a call, and when none can
   take another, all have returned except waiters blocked on a flag that is not set.
   */
  lemma EveryRunProgresses(schedule: seq<Event>, s: State)
    requires Run(INITIAL, schedule, s)
    ensures Goes(schedule) + Work(s.calls, s.flag) <= 5 * (|schedule| - Goes(schedule))
    ensures (forall d :: !CanGo(s, d)) ==>
      forall c | 0 <= c < |s.calls| :: s.calls[c].Finished() || (s.calls[c].WaitBlocked? && !s.flag)
  {
    WorkBoundsRun(INITIAL, schedule, s);
    if forall d :: !CanGo(s, d) {
      forall c | 0 <= c < |s.calls| && !s.calls[c].Finished()
        ensures s.calls[c].WaitBlocked? && !s.flag
      {
        StuckOnlyWhileUnrequested(schedule, s, c);
      }
    }
  }

  /**
   Every wait returns: after the flag is set, in any schedule at all, the calls take at most the
   work there is and four steps for each call that begins, however often timers fire and wakeups are
   spurious; and when none can take another step, every call has returned.
   */
  lemma EveryWaitReturns(history: seq<Event>, s: State, schedule: seq<Event>, t: State)
    requires Run(INITIAL, history, s) && s.flag && Run(s, schedule, t)
    ensures Goes(schedule) + Work(t.calls, true) <= Work(s.calls, true) + 4 * Begins(schedule)
    ensures t.flag && ((forall d :: !CanGo(t, d)) ==> forall c | 0 <= c < |t.calls| :: t.calls[c].Finished())
  {
    RunKeepsInv(INITIAL, history, s);
    WorkBoundsRun(s, schedule, t);
    RunKeepsInv(s, schedule, t);
    RunConcat(INITIAL, history, s, schedule, t);
    EveryRunProgresses(history + schedule, t);
  }

  /** From any state with the flag set the calls can all return by steps of their own alone. */
  lemma {:induction false} AllCanReturn(history: seq<Event>, s: State) returns (schedule: seq<Event>, t: State)
    requires Run(INITIAL, history, s) && s.flag
    ensures Run(s, schedule, t) && |schedule| == Goes(schedule) <= Work(s.calls, true)
    ensures forall c | 0 <= c < |t.calls| :: t.calls[c].Finished()
    ensures |t.calls| == |s.calls|
    decreases Work(s.calls, true)
  {
    RunKeepsInv(INITIAL, history, s);
    if c :| CanGo(s, c) {
      var e := Go(c);
      StepUsesWork(s, e);
      StepKeepsInv(s, e);
      assert Run(Fire(s, e), [], Fire(s, e)) && Run(s, [e], Fire(s, e));
      RunConcat(INITIAL, history, s, [e], Fire(s, e));
      var rest, last := AllCanReturn(history + [e], Fire(s, e));
      schedule, t := [e] + rest, last;
      assert schedule[0] == e && schedule[1..] == rest;
    } else {
      schedule, t := [], s;
      EveryRunProgresses(history, s);
    }
  }
}
