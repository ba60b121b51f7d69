/** The cancellation token as a transition system: any number of calls to `cancel`, `on_cancel`,
    `wait_cancelled` and `wait` on one token, interleaved at every atomic access. */
module CancelToken {
  import opened Wrappers

  /** Where one call has got to. A call is named by its index; a hook by its `on_cancel` call. */
  datatype Pc =
    | Idle
    | Canceling(c: CancelPc)
    | Hooking(h: HookPc)
    | Parking(p: ParkPc)
    | Waiting(w: WaitPc)

  /** `cancel` */
  datatype CancelPc = CancelSwap | CancelNotify | CancelTake | CancelRun(rest: seq<nat>) | Cancelled(first: bool)

  /** `on_cancel` */
  datatype HookPc = HookCheck | HookLock | HookRecheck | HookPush | HookUnlock | HookInline | HookQueued | HookRan

  /** `wait_cancelled` */
  datatype ParkPc = ParkCheck | ParkLock | ParkRecheck | ParkSleep | ParkAsleep | ParkWoken | ParkUnlock | ParkReturned

  /** `wait` */
  datatype WaitPc = WaitCheck | WaitLock | WaitSleep | WaitAsleep | WaitWoken | WaitUnlock | WaitFinal | WaitReturned(verdict: bool)

  datatype Token = Token(
    cancelled: bool,
    /** Who holds the lock of the condition variable, and who holds the lock of the hook list. */
    wakeLock: Option<nat>,
    hookLock: Option<nat>,
    hooks: seq<nat>,
    calls: seq<Pc>,
    /** History: the call that flipped the flag, hooks in registration order, hooks in run order. */
    winner: Option<nat>,
    pushed: seq<nat>,
    ran: seq<nat>)

  datatype Action =
    | Begin(call: nat, at: Pc)
    | Advance(call: nat)
    | TimeOut(call: nat)
    | Spurious(call: nat)

  predicate IsEntry(pc: Pc) {
    pc == Canceling(CancelSwap) || pc == Hooking(HookCheck) || pc == Parking(ParkCheck) || pc == Waiting(WaitCheck)
  }

  function Woken(pc: Pc): Pc {
    if pc == Parking(ParkAsleep) then Parking(ParkWoken)
    else if pc == Waiting(WaitAsleep) then Waiting(WaitWoken)
    else pc
  }

  function NotifyAll(calls: seq<Pc>): (r: seq<Pc>)
    ensures |r| == |calls| && forall i :: 0 <= i < |calls| ==> r[i] == Woken(calls[i])
  {
    seq(|calls|, i requires 0 <= i < |calls| => Woken(calls[i]))
  }

  function Goto(s: Token, i: nat, pc: Pc): Token
    requires i < |s.calls|
  {
    s.(calls := s.calls[i := pc])
  }

  // The next atomic access of call i, in each of the four operations; None while it cannot be made.

  function NextCancel(s: Token, i: nat, c: CancelPc): Option<Token>
    requires i < |s.calls|
  {
    match c
    case CancelSwap =>
      if s.cancelled then Some(Goto(s, i, Canceling(Cancelled(false))))
      else Some(Goto(s, i, Canceling(CancelNotify)).(cancelled := true, winner := Some(i)))
    case CancelNotify =>
      if s.wakeLock.Some? then None
      else Some(s.(calls := NotifyAll(s.calls)[i := Canceling(CancelTake)]))
    case CancelTake =>
      if s.hookLock.Some? then None
      else Some(Goto(s, i, Canceling(CancelRun(s.hooks))).(hooks := []))
    case CancelRun(rest) =>
      if rest == [] then Some(Goto(s, i, Canceling(Cancelled(true))))
      else Some(Goto(s, i, Canceling(CancelRun(rest[1..]))).(ran := s.ran + [rest[0]]))
    case Cancelled(_) => None
  }

  function NextHook(s: Token, i: nat, h: HookPc): Option<Token>
    requires i < |s.calls|
  {
    match h
    case HookCheck => Some(Goto(s, i, Hooking(if s.cancelled then HookInline else HookLock)))
    case HookLock =>
      if s.hookLock.Some? then None else Some(Goto(s, i, Hooking(HookRecheck)).(hookLock := Some(i)))
    case HookRecheck => Some(Goto(s, i, Hooking(if s.cancelled then HookUnlock else HookPush)))
    case HookPush =>
      Some(Goto(s, i, Hooking(HookQueued)).(hooks := s.hooks + [i], pushed := s.pushed + [i], hookLock := None))
    case HookUnlock => Some(Goto(s, i, Hooking(HookInline)).(hookLock := None))
    case HookInline => Some(Goto(s, i, Hooking(HookRan)).(ran := s.ran + [i]))
    case HookQueued => None
    case HookRan => None
  }

  function NextPark(s: Token, i: nat, p: ParkPc): Option<Token>
    requires i < |s.calls|
  {
    match p
    case ParkCheck => Some(Goto(s, i, Parking(if s.cancelled then ParkReturned else ParkLock)))
    case ParkLock =>
      if s.wakeLock.Some? then None else Some(Goto(s, i, Parking(ParkRecheck)).(wakeLock := Some(i)))
    case ParkRecheck => Some(Goto(s, i, Parking(if s.cancelled then ParkUnlock else ParkSleep)))
    case ParkSleep => Some(Goto(s, i, Parking(ParkAsleep)).(wakeLock := None))
    case ParkAsleep => None
    case ParkWoken =>
      if s.wakeLock.Some? then None else Some(Goto(s, i, Parking(ParkUnlock)).(wakeLock := Some(i)))
    case ParkUnlock => Some(Goto(s, i, Parking(ParkReturned)).(wakeLock := None))
    case ParkReturned => None
  }

  function NextWait(s: Token, i: nat, w: WaitPc): Option<Token>
    requires i < |s.calls|
  {
    match w
    case WaitCheck => Some(Goto(s, i, Waiting(if s.cancelled then WaitReturned(true) else WaitLock)))
    case WaitLock =>
      if s.wakeLock.Some? then None else Some(Goto(s, i, Waiting(WaitSleep)).(wakeLock := Some(i)))
    case WaitSleep => Some(Goto(s, i, Waiting(WaitAsleep)).(wakeLock := None))
    case WaitAsleep => None
    case WaitWoken =>
      if s.wakeLock.Some? then None else Some(Goto(s, i, Waiting(WaitUnlock)).(wakeLock := Some(i)))
    case WaitUnlock => Some(Goto(s, i, Waiting(WaitFinal)).(wakeLock := None))
    case WaitFinal => Some(Goto(s, i, Waiting(WaitReturned(s.cancelled))))
    case WaitReturned(_) => None
  }

  function Next(s: Token, i: nat): Option<Token>
    requires i < |s.calls|
  {
    match s.calls[i]
    case Idle => None
    case Canceling(c) => NextCancel(s, i, c)
    case Hooking(h) => NextHook(s, i, h)
    case Parking(p) => NextPark(s, i, p)
    case Waiting(w) => NextWait(s, i, w)
  }

  function Step(s: Token, a: Action): Option<Token> {
    if a.call >= |s.calls| then None
    else
      match a
      case Begin(i, at) =>
        if s.calls[i] == Idle && IsEntry(at) then Some(Goto(s, i, at)) else None
      case Advance(i) => Next(s, i)
      case TimeOut(i) =>
        if s.calls[i] == Waiting(WaitAsleep) then Some(Goto(s, i, Waiting(WaitWoken))) else None
      case Spurious(i) =>
        if Woken(s.calls[i]) != s.calls[i] then Some(Goto(s, i, Woken(s.calls[i]))) else None
  }

  function Fresh(n: nat): Token {
    Token(false, None, None, [], seq(n, _ => Idle), None, [], [])
  }

  /** The token n calls share after `acts`; None when some action was not possible. */
  function Run(n: nat, acts: seq<Action>): Option<Token> {
    if acts == [] then Some(Fresh(n))
    else
      var before := Run(n, acts[..|acts| - 1]);
      if before.None? then None else Step(before.value, acts[|acts| - 1])
  }

  // ---------------------------------------------------------------------------
  // The invariant

  predicate HoldsWake(pc: Pc) {
    match pc
    case Parking(p) => p == ParkRecheck || p == ParkSleep || p == ParkUnlock
    case Waiting(w) => w == WaitSleep || w == WaitUnlock
    case _ => false
  }

  predicate HoldsHooks(pc: Pc) {
    pc.Hooking? && (pc.h == HookRecheck || pc.h == HookPush || pc.h == HookUnlock)
  }

  predicate IsWinner(pc: Pc) {
    pc.Canceling? && pc.c != CancelSwap && pc.c != Cancelled(false)
  }

  /** The winning `cancel` is past its notify; and past taking the hooks. */
  predicate Notified(s: Token) {
    s.winner.Some? && s.winner.value < |s.calls| && s.calls[s.winner.value] != Canceling(CancelNotify)
  }

  predicate HooksTaken(s: Token) {
    Notified(s) && s.calls[s.winner.value] != Canceling(CancelTake)
  }

  ghost predicate LocksOwned(s: Token) {
    && (forall i :: 0 <= i < |s.calls| ==> (HoldsWake(s.calls[i]) <==> s.wakeLock == Some(i)))
    && (forall i :: 0 <= i < |s.calls| ==> (HoldsHooks(s.calls[i]) <==> s.hookLock == Some(i)))
    && (s.wakeLock.Some? ==> s.wakeLock.value < |s.calls|)
    && (s.hookLock.Some? ==> s.hookLock.value < |s.calls|)
  }

  ghost predicate OneWinner(s: Token) {
    && (s.cancelled <==> s.winner.Some?)
    && (s.winner.Some? ==> s.winner.value < |s.calls|)
    && (forall i :: 0 <= i < |s.calls| ==> (IsWinner(s.calls[i]) <==> s.winner == Some(i)))
  }

  /** Nobody in `wait_cancelled` is asleep, or bound to fall asleep, past the notify. */
  ghost predicate NoneLeftAsleep(s: Token) {
    forall i :: 0 <= i < |s.calls| && (s.calls[i] == Parking(ParkSleep) || s.calls[i] == Parking(ParkAsleep)) ==> !Notified(s)
  }

  /** The queued hooks that have not run yet. */
  function Rest(s: Token): seq<nat> {
    if !HooksTaken(s) then s.hooks
    else
      match s.calls[s.winner.value]
      case Canceling(CancelRun(rest)) => rest
      case _ => []
  }

  ghost predicate Distinct(s: seq<nat>) {
    forall i, j :: 0 <= i < j < |s| ==> s[i] != s[j]
  }

  ghost predicate Below(s: seq<nat>, n: nat) {
    forall k :: 0 <= k < |s| ==> s[k] < n
  }

  /** The members of s that occur in keep, in s's order. */
  ghost function Restrict(s: seq<nat>, keep: seq<nat>): seq<nat> {
    if s == [] then []
    else
      var last := s[|s| - 1];
      Restrict(s[..|s| - 1], keep) + (if last in keep then [last] else [])
  }

  ghost predicate Registrations(s: Token) {
    PlacesAgree(s) && PushesAgree(s)
  }

  ghost predicate PlacesAgree(s: Token) {
    && (forall i :: 0 <= i < |s.calls| && s.calls[i] == Hooking(HookPush) ==> !HooksTaken(s))
    && (forall i :: 0 <= i < |s.calls| && InlineHook(s.calls[i]) ==> s.cancelled)
    && (HooksTaken(s) ==> s.hooks == [])
  }

  ghost predicate PushesAgree(s: Token) {
    && Distinct(s.pushed)
    && (forall i :: 0 <= i < |s.calls| ==> (i in s.pushed <==> s.calls[i] == Hooking(HookQueued)))
    && Below(s.pushed, |s.calls|)
  }

  /** On the way to running its hook itself, or past it. */
  predicate InlineHook(pc: Pc) {
    pc.Hooking? && (pc.h == HookUnlock || pc.h == HookInline || pc.h == HookRan)
  }

  /** The queued hooks that have run. */
  function Done(s: Token): seq<nat> {
    if |Rest(s)| <= |s.pushed| then s.pushed[..|s.pushed| - |Rest(s)|] else []
  }

  /** Which calls' hooks have run, by the calls' places. */
  ghost predicate RanAre(s: Token) {
    forall i :: 0 <= i < |s.calls| ==> (i in s.ran <==> s.calls[i] == Hooking(HookRan) || i in Done(s))
  }

  /** What has run: every inline hook, and of the queued ones the first few, in their order. */
  ghost predicate Executions(s: Token) {
    && |Rest(s)| <= |s.pushed|
    && Rest(s) == s.pushed[|s.pushed| - |Rest(s)|..]
    && Distinct(s.ran)
    && Below(s.ran, |s.calls|)
    && RanAre(s)
    && Restrict(s.ran, s.pushed) == Done(s)
  }

  ghost predicate Inv(s: Token) {
    LocksOwned(s) && OneWinner(s) && NoneLeftAsleep(s) && Registrations(s) && Executions(s)
  }

  lemma FreshExecutes(s: Token)
    requires s.hooks == [] && s.pushed == [] && s.ran == [] && s.winner == None
    requires forall i :: 0 <= i < |s.calls| ==> s.calls[i] == Idle
    ensures Executions(s)
  {
    assert Rest(s) == [] && Done(s) == [];
  }

  lemma FreshInv(n: nat)
    ensures Inv(Fresh(n))
  {
    hide Executions, Restrict, Rest, Done;
    var s := Fresh(n);
    FreshExecutes(s);
    assert LocksOwned(s) && OneWinner(s) && NoneLeftAsleep(s);
    assert PlacesAgree(s) && PushesAgree(s);
  }

  // --- one step, seen from outside -------------------------------------------

  predicate Enabled(s: Token, a: Action) {
    Step(s, a).Some?
  }

  function After(s: Token, a: Action): Token
    requires Enabled(s, a)
  {
    Step(s, a).value
  }

  predicate IsNotify(s: Token, a: Action) {
    a.Advance? && a.call < |s.calls| && s.calls[a.call] == Canceling(CancelNotify)
  }

  /** The calls other than the one that moves stay where they are; a notify wakes them. */
  ghost predicate OthersStay(s: Token, s': Token, a: Action) {
    && |s'.calls| == |s.calls| && a.call < |s.calls|
    && forall j {:trigger s'.calls[j]} :: 0 <= j < |s.calls| && j != a.call ==>
         s'.calls[j] == if IsNotify(s, a) then Woken(s.calls[j]) else s.calls[j]
  }

  lemma Others(s: Token, a: Action)
    requires Enabled(s, a)
    ensures OthersStay(s, After(s, a), a)
  {
  }

  /** How the mover treats a lock: it leaves it alone, takes it free, or gives it back. */
  predicate LockMove(held: bool, held': bool, lock: Option<nat>, lock': Option<nat>, i: nat) {
    || (held' == held && lock' == lock)
    || (!held && held' && lock == None && lock' == Some(i))
    || (held && !held' && lock' == None)
  }

  /** The flag goes up once, by the call that goes on to notify, and stays up. */
  predicate FlagMove(s: Token, s': Token, i: nat)
    requires i < |s.calls| == |s'.calls|
  {
    || (s'.cancelled == s.cancelled && s'.winner == s.winner && IsWinner(s'.calls[i]) == IsWinner(s.calls[i])
        && (s.calls[i] != Canceling(CancelNotify) ==> s'.calls[i] != Canceling(CancelNotify)))
    || (!s.cancelled && s'.cancelled && s'.winner == Some(i) && s'.calls[i] == Canceling(CancelNotify))
  }

  /** What the mover does to the hook list, and which hook it runs. */
  predicate HookMove(s: Token, s': Token, i: nat)
    requires i < |s.calls| == |s'.calls|
  {
    match s.calls[i]
    case Hooking(HookPush) =>
      && s'.calls[i] == Hooking(HookQueued) && s'.hooks == s.hooks + [i]
      && s'.pushed == s.pushed + [i] && s'.ran == s.ran
    case Canceling(CancelTake) =>
      && s'.calls[i] == Canceling(CancelRun(s.hooks)) && s'.hooks == []
      && s'.pushed == s.pushed && s'.ran == s.ran && s.hookLock == None
    case Canceling(CancelRun(rest)) =>
      && s'.hooks == s.hooks && s'.pushed == s.pushed
      && if rest == [] then s'.calls[i] == Canceling(Cancelled(true)) && s'.ran == s.ran
         else s'.calls[i] == Canceling(CancelRun(rest[1..])) && s'.ran == s.ran + [rest[0]]
    case Hooking(HookInline) =>
      && s'.calls[i] == Hooking(HookRan) && s'.hooks == s.hooks
      && s'.pushed == s.pushed && s'.ran == s.ran + [i]
    case _ =>
      s'.hooks == s.hooks && s'.pushed == s.pushed && s'.ran == s.ran && PlainMove(s.calls[i], s'.calls[i], s.cancelled)
  }

  /** A move that touches no hook: where it can lead, given the flag. */
  predicate PlainMove(pc: Pc, pc': Pc, cancelled: bool) {
    && (pc'.Hooking? ==> pc'.h != HookQueued && pc'.h != HookRan)
    && (pc' == Hooking(HookPush) ==> !cancelled)
    && (InlineHook(pc') ==> cancelled || InlineHook(pc))
    && (pc'.Canceling? ==> !pc'.c.CancelRun? && pc'.c != Cancelled(true))
    && (pc' == Canceling(CancelTake) ==> pc == Canceling(CancelNotify))
    && (pc == Canceling(CancelNotify) ==> pc' == Canceling(CancelTake))
    && pc != Hooking(HookQueued) && pc != Hooking(HookRan) && pc != Canceling(Cancelled(true))
  }

  /** A call goes to sleep in `wait_cancelled` only through having seen the flag clear. */
  predicate SleepMove(pc: Pc, pc': Pc, cancelled: bool) {
    && (pc' == Parking(ParkSleep) ==> !cancelled)
    && (pc' == Parking(ParkAsleep) ==> pc == Parking(ParkSleep))
  }

  /** Everything the invariant needs to know about the call that moves. */
  predicate Moved(s: Token, s': Token, i: nat) {
    && i < |s.calls| == |s'.calls|
    && LockMove(HoldsWake(s.calls[i]), HoldsWake(s'.calls[i]), s.wakeLock, s'.wakeLock, i)
    && LockMove(HoldsHooks(s.calls[i]), HoldsHooks(s'.calls[i]), s.hookLock, s'.hookLock, i)
    && FlagMove(s, s', i)
    && HookMove(s, s', i)
    && SleepMove(s.calls[i], s'.calls[i], s.cancelled)
  }

  lemma CancelMoves(s: Token, i: nat, c: CancelPc)
    requires i < |s.calls| && s.calls[i] == Canceling(c) && NextCancel(s, i, c).Some?
    ensures Moved(s, NextCancel(s, i, c).value, i)
    ensures c == CancelNotify ==> s.wakeLock == None
  {
  }

  lemma HookMoves(s: Token, i: nat, h: HookPc)
    requires i < |s.calls| && s.calls[i] == Hooking(h) && NextHook(s, i, h).Some?
    ensures Moved(s, NextHook(s, i, h).value, i)
  {
  }

  lemma ParkMoves(s: Token, i: nat, p: ParkPc)
    requires i < |s.calls| && s.calls[i] == Parking(p) && NextPark(s, i, p).Some?
    ensures Moved(s, NextPark(s, i, p).value, i)
  {
  }

  lemma WaitMoves(s: Token, i: nat, w: WaitPc)
    requires i < |s.calls| && s.calls[i] == Waiting(w) && NextWait(s, i, w).Some?
    ensures Moved(s, NextWait(s, i, w).value, i)
  {
  }

  lemma OutsideMoves(s: Token, a: Action)
    requires !a.Advance? && Enabled(s, a)
    ensures Moved(s, After(s, a), a.call)
  {
  }

  lemma Moves(s: Token, a: Action)
    requires Enabled(s, a)
    ensures Moved(s, After(s, a), a.call)
    ensures IsNotify(s, a) ==> s.wakeLock == None
  {
    hide Moved, NextCancel, NextHook, NextPark, NextWait;
    if !a.Advance? {
      OutsideMoves(s, a);
    } else {
      match s.calls[a.call]
      case Idle =>
      case Canceling(c) => CancelMoves(s, a.call, c);
      case Hooking(h) => HookMoves(s, a.call, h);
      case Parking(p) => ParkMoves(s, a.call, p);
      case Waiting(w) => WaitMoves(s, a.call, w);
    }
  }

  lemma LocksKept(s: Token, s': Token, a: Action)
    requires LocksOwned(s) && OthersStay(s, s', a) && Moved(s, s', a.call)
    ensures LocksOwned(s')
  {
    hide HookMove, FlagMove, SleepMove;
  }

  lemma WinnerKept(s: Token, s': Token, a: Action)
    requires OneWinner(s) && OthersStay(s, s', a) && Moved(s, s', a.call)
    ensures OneWinner(s')
    ensures Notified(s) ==> Notified(s')
  {
    hide HookMove, LockMove, SleepMove;
  }

  lemma NotifiedMoves(s: Token, s': Token, a: Action)
    requires OneWinner(s) && OthersStay(s, s', a) && Moved(s, s', a.call)
    ensures OneWinner(s')
    ensures Notified(s') <==> Notified(s) || (s.calls[a.call] == Canceling(CancelNotify))
    ensures HooksTaken(s') <==> HooksTaken(s) || s.calls[a.call] == Canceling(CancelTake)
  {
    WinnerKept(s, s', a);
    hide LockMove, SleepMove;
  }

  lemma SleepersKept(s: Token, s': Token, a: Action)
    requires LocksOwned(s) && OneWinner(s) && NoneLeftAsleep(s)
    requires OthersStay(s, s', a) && Moved(s, s', a.call) && (IsNotify(s, a) ==> s.wakeLock == None)
    requires s.calls[a.call] == Canceling(CancelNotify) ==> IsNotify(s, a)
    ensures NoneLeftAsleep(s')
  {
    NotifiedMoves(s, s', a);
    hide LockMove, HookMove, FlagMove;
  }

  lemma PlacesKept(s: Token, s': Token, a: Action)
    requires LocksOwned(s) && OneWinner(s) && PlacesAgree(s)
    requires OthersStay(s, s', a) && Moved(s, s', a.call)
    ensures PlacesAgree(s')
  {
    NotifiedMoves(s, s', a);
    hide LockMove, SleepMove;
  }

  lemma WokenNotHooking()
    ensures forall pc :: Woken(pc).Hooking? <==> pc.Hooking?
    ensures forall pc: Pc :: pc.Hooking? ==> Woken(pc) == pc
  {
  }

  lemma QueuedMoves(s: Token, s': Token, a: Action)
    requires OthersStay(s, s', a) && Moved(s, s', a.call)
    ensures forall i :: 0 <= i < |s.calls| ==>
      (s'.calls[i] == Hooking(HookQueued)) ==
        (s.calls[i] == Hooking(HookQueued) || (i == a.call && s.calls[i] == Hooking(HookPush)))
  {
    hide LockMove, SleepMove, FlagMove;
    WokenNotHooking();
    hide Woken;
  }

  lemma PushedMoves(s: Token, s': Token, a: Action)
    requires OthersStay(s, s', a) && Moved(s, s', a.call)
    ensures s'.pushed == s.pushed + if s.calls[a.call] == Hooking(HookPush) then [a.call] else []
    ensures |s'.calls| == |s.calls|
  {
    hide LockMove, SleepMove, FlagMove;
  }

  lemma PushesKept(s: Token, s': Token, a: Action)
    requires PushesAgree(s) && OthersStay(s, s', a) && Moved(s, s', a.call)
    ensures PushesAgree(s')
  {
    hide LockMove, SleepMove, FlagMove;
    WokenNotHooking();
    hide Woken;
    QueuedMoves(s, s', a);
    PushedMoves(s, s', a);
    hide Moved, OthersStay;
    if s.calls[a.call] == Hooking(HookPush) {
      AppendDistinct(s.pushed, [a.call], |s.calls|);
    }
  }

  // --- hooks -------------------------------------------------------------------

  /** The hook the mover takes off the queue and runs, if any. */
  function RunsNext(s: Token, i: nat): Option<nat>
    requires i < |s.calls|
  {
    match s.calls[i]
    case Canceling(CancelRun(rest)) => if rest != [] then Some(rest[0]) else None
    case _ => None
  }

  lemma RestMoves(s: Token, s': Token, a: Action)
    requires OneWinner(s) && Registrations(s)
    requires OthersStay(s, s', a) && Moved(s, s', a.call)
    ensures s.calls[a.call] == Hooking(HookPush) ==> Rest(s') == Rest(s) + [a.call]
    ensures RunsNext(s, a.call).Some? ==> Rest(s) == [RunsNext(s, a.call).value] + Rest(s')
    ensures s.calls[a.call] != Hooking(HookPush) && RunsNext(s, a.call).None? ==> Rest(s') == Rest(s)
  {
    NotifiedMoves(s, s', a);
    hide LockMove, SleepMove;
  }

  lemma {:induction false} RestrictOutside(s: seq<nat>, keep: seq<nat>, x: nat)
    requires x !in s
    ensures Restrict(s, keep + [x]) == Restrict(s, keep)
  {
    if s != [] {
      RestrictOutside(s[..|s| - 1], keep, x);
    }
  }

  lemma RestrictAppend(s: seq<nat>, keep: seq<nat>, x: nat)
    ensures Restrict(s + [x], keep) == Restrict(s, keep) + if x in keep then [x] else []
  {
    assert (s + [x])[..|s|] == s;
  }

  /** Pushed hooks split into those run and those still queued. */
  ghost predicate Split(pushed: seq<nat>, done: seq<nat>, rest: seq<nat>) {
    pushed == done + rest
  }

  lemma DoneSplits(s: Token)
    requires |Rest(s)| <= |s.pushed| && Rest(s) == s.pushed[|s.pushed| - |Rest(s)|..]
    ensures Split(s.pushed, Done(s), Rest(s))
  {
  }

  lemma SplitIsDone(s: Token, done: seq<nat>)
    requires Split(s.pushed, done, Rest(s))
    ensures |Rest(s)| <= |s.pushed| && Rest(s) == s.pushed[|s.pushed| - |Rest(s)|..] && Done(s) == done
  {
  }

  /** The hooks run from the queue, after the step. */
  lemma DoneMoves(s: Token, s': Token, a: Action)
    requires OneWinner(s) && Registrations(s) && Executions(s)
    requires OthersStay(s, s', a) && Moved(s, s', a.call)
    ensures |Rest(s')| <= |s'.pushed| && Rest(s') == s'.pushed[|s'.pushed| - |Rest(s')|..]
    ensures Done(s') == Done(s) + if RunsNext(s, a.call).Some? then [RunsNext(s, a.call).value] else []
    ensures RunsNext(s, a.call).Some? ==> RunsNext(s, a.call).value in s.pushed && RunsNext(s, a.call).value !in Done(s)
  {
    DoneSplits(s);
    RestMoves(s, s', a);
    PushedMoves(s, s', a);
    assert Distinct(s.pushed);
    var next := RunsNext(s, a.call);
    var done := Done(s) + if next.Some? then [next.value] else [];
    hide Moved, OthersStay, OneWinner, Registrations, Executions, Rest, RunsNext, Done, Split, Distinct;
    SplitMoves(s.pushed, Done(s), Rest(s), a.call);
    if next.Some? {
      NextIsNew(s.pushed, Done(s), next.value, Rest(s), Rest(s'));
    } else {
      assert done == Done(s);
    }
    SplitIsDone(s', done);
  }

  lemma SplitMoves(pushed: seq<nat>, done: seq<nat>, rest: seq<nat>, x: nat)
    requires Split(pushed, done, rest)
    ensures Split(pushed + [x], done, rest + [x])
    ensures pushed + [] == pushed
  {
  }

  lemma NextIsNew(pushed: seq<nat>, done: seq<nat>, next: nat, rest: seq<nat>, rest': seq<nat>)
    requires Split(pushed, done, rest) && rest == [next] + rest' && Distinct(pushed)
    ensures Split(pushed, done + [next], rest')
    ensures next in pushed && next !in done
  {
    assert pushed[|done|] == next;
    assert forall k :: 0 <= k < |done| ==> pushed[k] == done[k];
  }

  lemma RestrictKept(s: Token, s': Token, a: Action)
    requires OneWinner(s) && Registrations(s) && Executions(s)
    requires OthersStay(s, s', a) && Moved(s, s', a.call)
    ensures Restrict(s'.ran, s'.pushed) == Done(s')
  {
    DoneMoves(s, s', a);
    RanMoves(s, s', a);
    var i := a.call;
    var next := RunsNext(s, i);
    hide Moved, OthersStay, OneWinner, Rest, RunsNext, Done, Distinct, Registrations, RanAre;
    if next.Some? {
      RestrictAppend(s.ran, s.pushed, next.value);
    } else if s.calls[i] == Hooking(HookInline) {
      RestrictAppend(s.ran, s.pushed, i);
    } else if s.calls[i] == Hooking(HookPush) {
      RestrictOutside(s.ran, s.pushed, i);
    }
  }

  /** Which hook a step runs, and that it had not run before. */
  lemma RanMoves(s: Token, s': Token, a: Action)
    requires OneWinner(s) && Registrations(s) && Executions(s)
    requires OthersStay(s, s', a) && Moved(s, s', a.call)
    ensures var pc, i, next := s.calls[a.call], a.call, RunsNext(s, a.call);
      && s'.ran == s.ran + (if next.Some? then [next.value] else if pc == Hooking(HookInline) then [i] else [])
      && s'.pushed == s.pushed + (if pc == Hooking(HookPush) then [i] else [])
      && (next.Some? ==> pc != Hooking(HookPush) && pc != Hooking(HookInline) && next.value !in s.ran && next.value in s.pushed)
      && (pc == Hooking(HookInline) || pc == Hooking(HookPush) ==> i !in s.ran && i !in s.pushed)
  {
    DoneMoves(s, s', a);
    PushedMoves(s, s', a);
    hide LockMove, SleepMove, FlagMove, OneWinner, Rest, Restrict, PlacesAgree;
  }

  lemma RanPlaceMoves(s: Token, s': Token, a: Action, i: nat)
    requires i < |s.calls| && OthersStay(s, s', a) && Moved(s, s', a.call)
    ensures (s'.calls[i] == Hooking(HookRan)) ==
      (s.calls[i] == Hooking(HookRan) || (i == a.call && s.calls[i] == Hooking(HookInline)))
  {
    hide LockMove, SleepMove, FlagMove;
    WokenNotHooking();
    hide Woken;
  }

  lemma RanIsKept(s: Token, s': Token, a: Action, i: nat)
    requires OneWinner(s) && Registrations(s) && Executions(s) && i < |s.calls|
    requires OthersStay(s, s', a) && Moved(s, s', a.call)
    ensures i in s'.ran <==> s'.calls[i] == Hooking(HookRan) || i in Done(s')
  {
    DoneMoves(s, s', a);
    RanMoves(s, s', a);
    RanPlaceMoves(s, s', a, i);
    assert RanAre(s);
    hide Moved, OthersStay, OneWinner, Registrations, Executions, Rest, RunsNext, Restrict, Done, Distinct, Below;
  }

  lemma RanAreKept(s: Token, s': Token, a: Action)
    requires OneWinner(s) && Registrations(s) && Executions(s)
    requires OthersStay(s, s', a) && Moved(s, s', a.call)
    ensures RanAre(s')
  {
    hide OneWinner, Registrations, Executions, Moved, Done;
    forall i | 0 <= i < |s'.calls|
      ensures i in s'.ran <==> s'.calls[i] == Hooking(HookRan) || i in Done(s')
    {
      RanIsKept(s, s', a, i);
    }
  }

  lemma AppendDistinct(s: seq<nat>, more: seq<nat>, n: nat)
    requires Distinct(s) && Below(s, n)
    requires |more| <= 1 && forall x :: x in more ==> x !in s && x < n
    ensures Distinct(s + more) && Below(s + more, n)
  {
    assert more != [] ==> more[0] in more;
  }

  lemma ExecutionsKept(s: Token, s': Token, a: Action)
    requires OneWinner(s) && Registrations(s) && Executions(s)
    requires OthersStay(s, s', a) && Moved(s, s', a.call)
    ensures Executions(s')
  {
    DoneMoves(s, s', a);
    RanMoves(s, s', a);
    RestrictKept(s, s', a);
    RanAreKept(s, s', a);
    var pc, next := s.calls[a.call], RunsNext(s, a.call);
    var more := if next.Some? then [next.value] else if pc == Hooking(HookInline) then [a.call] else [];
    assert next.Some? ==> next.value < |s.calls|;
    hide Moved, OneWinner, Rest, RunsNext, Restrict, RanAre, Done, Registrations, Distinct, Below;
    AppendDistinct(s.ran, more, |s.calls|);
  }

  lemma InvKept(s: Token, a: Action)
    requires Inv(s) && Enabled(s, a)
    ensures Inv(After(s, a)) && |After(s, a).calls| == |s.calls|
  {
    var s' := After(s, a);
    Others(s, a);
    Moves(s, a);
    NotifyIsStep(s, a);
    hide After, Enabled, Moved, LocksOwned, OneWinner, NoneLeftAsleep, PlacesAgree, PushesAgree, Executions;
    LocksKept(s, s', a);
    WinnerKept(s, s', a);
    SleepersKept(s, s', a);
    PlacesKept(s, s', a);
    PushesKept(s, s', a);
    ExecutionsKept(s, s', a);
  }

  lemma NotifyIsStep(s: Token, a: Action)
    requires Enabled(s, a)
    ensures s.calls[a.call] == Canceling(CancelNotify) ==> IsNotify(s, a)
  {
  }

  lemma {:induction false} RunInv(n: nat, acts: seq<Action>)
    requires Run(n, acts).Some?
    ensures Inv(Run(n, acts).value) && |Run(n, acts).value.calls| == n
  {
    if acts == [] {
      FreshInv(n);
    } else {
      var before := acts[..|acts| - 1];
      RunInv(n, before);
      InvKept(Run(n, before).value, acts[|acts| - 1]);
    }
  }

  // --- what the token promises --------------------------------------------------

  lemma {:induction false} DistinctOnce(s: seq<nat>, x: nat)
    requires Distinct(s)
    ensures multiset(s)[x] == if x in s then 1 else 0
  {
    if s != [] {
      var init, last := s[..|s| - 1], s[|s| - 1];
      assert s == init + [last];
      DistinctOnce(init, x);
      assert last !in init;
    }
  }

  /** Some interleaving of the calls leads to s. */
  ghost predicate Reachable(s: Token) {
    exists acts :: Run(|s.calls|, acts) == Some(s)
  }

  lemma ReachableInv(s: Token)
    requires Reachable(s)
    ensures Inv(s)
    ensures !s.cancelled ==> s.ran == []
  {
    var acts :| Run(|s.calls|, acts) == Some(s);
    RunInv(|s.calls|, acts);
    NothingRunsEarly(|s.calls|, acts);
  }

  lemma {:induction false} NothingRunsEarly(n: nat, acts: seq<Action>)
    requires Run(n, acts).Some?
    ensures !Run(n, acts).value.cancelled ==> Run(n, acts).value.ran == []
  {
    if acts != [] {
      hide Inv, Next;
      var before, a := acts[..|acts| - 1], acts[|acts| - 1];
      NothingRunsEarly(n, before);
      RunInv(n, before);
      QuietBeforeCancel(Run(n, before).value, a);
    }
  }

  lemma QuietBeforeCancel(s: Token, a: Action)
    requires Inv(s) && Enabled(s, a)
    ensures !After(s, a).cancelled ==> !s.cancelled && After(s, a).ran == s.ran
  {
    Moves(s, a);
    hide After, Enabled, LockMove, LocksOwned, Executions;
  }

  /** In every interleaving no hook runs twice, and only registered hooks run, after the flag is up. */
  lemma HooksRunAtMostOnce(s: Token, hook: nat)
    requires Reachable(s)
    ensures multiset(s.ran)[hook] <= 1
    ensures hook in s.ran ==> s.cancelled && hook < |s.calls| && s.calls[hook].Hooking?
  {
    ReachableInv(s);
    DistinctOnce(s.ran, hook);
  }

  /** Every registration has finished, by queueing its hook or by running it. */
  ghost predicate RegistrationsOver(s: Token) {
    forall i :: 0 <= i < |s.calls| && s.calls[i].Hooking? ==> s.calls[i].h == HookQueued || s.calls[i].h == HookRan
  }

  /** The operation a call is in, by its first access. */
  function EntryOf(pc: Pc): Option<Pc> {
    match pc
    case Idle => None
    case Canceling(_) => Some(Canceling(CancelSwap))
    case Hooking(_) => Some(Hooking(HookCheck))
    case Parking(_) => Some(Parking(ParkCheck))
    case Waiting(_) => Some(Waiting(WaitCheck))
  }

  lemma StaysInOperation(s: Token, a: Action, i: nat)
    requires Enabled(s, a) && i < |s.calls| && (a.Begin? ==> a.call != i)
    ensures |After(s, a).calls| == |s.calls| && EntryOf(After(s, a).calls[i]) == EntryOf(s.calls[i])
  {
    Others(s, a);
  }

  lemma BeginsOperation(s: Token, i: nat, at: Pc)
    requires Enabled(s, Begin(i, at))
    ensures |After(s, Begin(i, at)).calls| == |s.calls| && EntryOf(s.calls[i]) == None
    ensures EntryOf(After(s, Begin(i, at)).calls[i]) == Some(at)
  {
  }

  /** A call stands in the operation it began, for good, and no call begins two: nothing that was
      asked for is dropped on the way. */
  lemma {:induction false} CallIsWhatItBegan(n: nat, acts: seq<Action>, i: nat)
    requires Run(n, acts).Some? && i < n
    ensures |Run(n, acts).value.calls| == n
    ensures forall at :: Begin(i, at) in acts <==> EntryOf(Run(n, acts).value.calls[i]) == Some(at)
  {
    if acts != [] {
      var before, a := acts[..|acts| - 1], acts[|acts| - 1];
      hide Step, EntryOf;
      CallIsWhatItBegan(n, before, i);
      assert acts == before + [a];
      if a.Begin? && a.call == i {
        BeginsOperation(Run(n, before).value, i, a.at);
      } else {
        StaysInOperation(Run(n, before).value, a, i);
      }
    } else {
      assert EntryOf(Fresh(n).calls[i]) == None;
    }
  }

  /** Once the winning `cancel` and all registrations are over, the hook of every `on_cancel` that
      was ever begun has run exactly once, the queued ones in the order they were registered, and
      none is left queued. */
  lemma HooksRunExactlyOnce(n: nat, acts: seq<Action>, w: nat)
    requires Run(n, acts).Some? && w < n && RegistrationsOver(Run(n, acts).value)
    requires var s := Run(n, acts).value; |s.calls| == n && s.calls[w] == Canceling(Cancelled(true))
    ensures var s := Run(n, acts).value;
      s.hooks == [] && Restrict(s.ran, s.pushed) == s.pushed
    ensures forall i :: 0 <= i < n ==>
      multiset(Run(n, acts).value.ran)[i] == if Begin(i, Hooking(HookCheck)) in acts then 1 else 0
  {
    var s := Run(n, acts).value;
    assert Reachable(s);
    HooksOver(s, w);
    hide Run;
    forall i | 0 <= i < n ensures multiset(s.ran)[i] == if Begin(i, Hooking(HookCheck)) in acts then 1 else 0 {
      CallIsWhatItBegan(n, acts, i);
    }
  }

  lemma HooksOver(s: Token, w: nat)
    requires Reachable(s)
    requires w < |s.calls| && s.calls[w] == Canceling(Cancelled(true)) && RegistrationsOver(s)
    ensures s.hooks == [] && Restrict(s.ran, s.pushed) == s.pushed
    ensures forall i :: 0 <= i < |s.calls| ==> multiset(s.ran)[i] == if s.calls[i].Hooking? then 1 else 0
  {
    ReachableInv(s);
    assert s.winner == Some(w);
    assert Rest(s) == [] && Done(s) == s.pushed;
    forall i | 0 <= i < |s.calls| ensures multiset(s.ran)[i] == if s.calls[i].Hooking? then 1 else 0 {
      DistinctOnce(s.ran, i);
    }
  }

  /** In every interleaving nobody is asleep in `wait_cancelled` once the winning `cancel` has
      passed its notify, spurious wake-ups or not. */
  lemma NoLostWakeUp(s: Token, i: nat)
    requires Reachable(s) && i < |s.calls| && Notified(s)
    ensures s.calls[i] != Parking(ParkAsleep)
  {
    ReachableInv(s);
  }

  // --- verdicts -----------------------------------------------------------------

  lemma WaitMove(s: Token, a: Action, i: nat)
    requires Enabled(s, a) && i < |s.calls|
    ensures |After(s, a).calls| == |s.calls|
    ensures s.cancelled ==> After(s, a).cancelled
    ensures After(s, a).calls[i] == Waiting(WaitReturned(false)) ==> s.calls[i] == Waiting(WaitReturned(false)) || !s.cancelled
    ensures After(s, a).calls[i] == Waiting(WaitReturned(true)) ==> s.calls[i] == Waiting(WaitReturned(true)) || s.cancelled
  {
    Others(s, a);
    if i == a.call && a.Advance? {
      match s.calls[i]
      case Idle =>
      case Canceling(c) => CancelMoves(s, i, c);
      case Hooking(h) => HookMoves(s, i, h);
      case Parking(p) => ParkMoves(s, i, p);
      case Waiting(w) =>
    }
    Moves(s, a);
  }

  /** `wait` says true whenever the flag went up before its final check: once the token is
      cancelled, no call that has not already returned false ever does. */
  lemma {:induction false} WaitSeesTheFlag(n: nat, acts: seq<Action>, more: seq<Action>, i: nat)
    requires Run(n, acts).Some? && Run(n, acts + more).Some? && i < n
    requires |Run(n, acts).value.calls| == n && Run(n, acts).value.cancelled
    requires Run(n, acts).value.calls[i] != Waiting(WaitReturned(false))
    ensures |Run(n, acts + more).value.calls| == n && Run(n, acts + more).value.cancelled
    ensures Run(n, acts + more).value.calls[i] != Waiting(WaitReturned(false))
  {
    if more == [] {
      assert acts + more == acts;
    } else {
      var all := acts + more;
      assert all[..|all| - 1] == acts + more[..|more| - 1];
      WaitSeesTheFlag(n, acts, more[..|more| - 1], i);
      WaitMove(Run(n, all[..|all| - 1]).value, all[|all| - 1], i);
    }
  }

  /** ... and says true only for a cancelled token. */
  lemma {:induction false} WaitNeverLies(n: nat, acts: seq<Action>, i: nat)
    requires Run(n, acts).Some? && i < n
    ensures |Run(n, acts).value.calls| == n
    ensures Run(n, acts).value.calls[i] == Waiting(WaitReturned(true)) ==> Run(n, acts).value.cancelled
  {
    if acts != [] {
      WaitNeverLies(n, acts[..|acts| - 1], i);
      WaitMove(Run(n, acts[..|acts| - 1]).value, acts[|acts| - 1], i);
    }
  }

  /** Call i has been woken in `wait_cancelled`, or has come back from it. */
  predicate ParkOver(pc: Pc) {
    pc.Parking? && (pc.p == ParkWoken || pc.p == ParkUnlock || pc.p == ParkReturned)
  }

  lemma ParkMove(s: Token, a: Action, i: nat)
    requires Enabled(s, a) && i < |s.calls| && a != Spurious(i)
    requires IsNotify(s, a) ==> s.cancelled
    ensures |After(s, a).calls| == |s.calls|
    ensures s.cancelled ==> After(s, a).cancelled
    ensures ParkOver(After(s, a).calls[i]) ==> ParkOver(s.calls[i]) || s.cancelled
  {
    Others(s, a);
    if i == a.call && a.Advance? {
      match s.calls[i]
      case Idle =>
      case Canceling(c) => CancelMoves(s, i, c);
      case Hooking(h) => HookMoves(s, i, h);
      case Parking(p) =>
      case Waiting(w) => WaitMoves(s, i, w);
    }
    Moves(s, a);
  }

  lemma NotifierIsWinner(s: Token, a: Action)
    requires Inv(s)
    ensures IsNotify(s, a) ==> s.cancelled
  {
    hide LocksOwned, NoneLeftAsleep, Registrations, Executions;
  }

  /** Without a spurious wake-up of its own, `wait_cancelled` comes back only from a cancelled token. */
  lemma {:induction false} ParkReturnsCancelled(n: nat, acts: seq<Action>, i: nat)
    requires Run(n, acts).Some? && i < n && Spurious(i) !in acts
    ensures |Run(n, acts).value.calls| == n
    ensures ParkOver(Run(n, acts).value.calls[i]) ==> Run(n, acts).value.cancelled
  {
    if acts != [] {
      var before := acts[..|acts| - 1];
      ParkReturnsCancelled(n, before, i);
      RunInv(n, before);
      NotifierIsWinner(Run(n, before).value, acts[|acts| - 1]);
      assert acts[|acts| - 1] in acts;
      hide Inv, IsNotify, Next, Step;
      ParkMove(Run(n, before).value, acts[|acts| - 1], i);
    }
  }

  // --- nobody is stuck ------------------------------------------------------------

  /** A call in the middle of its operation. */
  predicate Unfinished(pc: Pc) {
    match pc
    case Idle => false
    case Canceling(c) => !c.Cancelled?
    case Hooking(h) => h != HookQueued && h != HookRan
    case Parking(p) => p != ParkReturned
    case Waiting(w) => !w.WaitReturned?
  }

  /** A blocked call is waiting for a lock whose holder can move. */
  lemma HolderMoves(s: Token, i: nat)
    requires LocksOwned(s) && i < |s.calls|
    requires Unfinished(s.calls[i]) && s.calls[i] != Parking(ParkAsleep) && s.calls[i] != Waiting(WaitAsleep)
    ensures Enabled(s, Advance(i))
         || (s.wakeLock.Some? && s.wakeLock.value < |s.calls| && Enabled(s, Advance(s.wakeLock.value)))
         || (s.hookLock.Some? && s.hookLock.value < |s.calls| && Enabled(s, Advance(s.hookLock.value)))
  {
  }

  /** After the notify no call is stuck, whatever the others did: as long as one is unfinished,
      some call can take its next step (a `wait` still asleep, by its timeout). */
  lemma NeverStuck(s: Token, i: nat)
    requires Reachable(s) && Notified(s) && i < |s.calls| && Unfinished(s.calls[i])
    ensures exists a: Action :: (a.Advance? || a.TimeOut?) && Enabled(s, a)
  {
    ReachableInv(s);
    NoLostWakeUp(s, i);
    if s.calls[i] == Waiting(WaitAsleep) {
      assert Enabled(s, TimeOut(i));
    } else {
      HolderMoves(s, i);
    }
  }

  // --- what the token does not promise ------------------------------------------------

  lemma RunNone(n: nat)
    ensures Run(n, []) == Some(Fresh(n))
  {
  }

  lemma RunStep(n: nat, acts: seq<Action>, a: Action)
    requires Run(n, acts).Some?
    ensures Run(n, acts + [a]) == Step(Run(n, acts).value, a)
  {
    assert (acts + [a])[..|acts|] == acts;
  }

  /** The winning `cancel` comes back only when every hook queued has run and no more can be. */
  lemma WinnerWaitsForHooks(s: Token, w: nat, hook: nat)
    requires Reachable(s) && w < |s.calls| && s.calls[w] == Canceling(Cancelled(true))
    ensures s.hooks == [] && (hook in s.pushed ==> hook in s.ran)
    ensures hook < |s.calls| ==> s.calls[hook] != Hooking(HookPush)
  {
    ReachableInv(s);
    assert s.winner == Some(w);
    assert Rest(s) == [] && Done(s) == s.pushed;
    if hook in s.pushed {
      assert hook < |s.calls|;
    }
  }

  /** A `cancel` that finds the flag up is back at its next access, whatever is still to run. Every
      hook queued so far has run by then exactly if the winner has none left. */
  lemma LosingCancelWaitsForNothing(s: Token, i: nat)
    requires Reachable(s) && i < |s.calls| && s.calls[i] == Canceling(CancelSwap) && s.cancelled
    ensures Enabled(s, Advance(i))
    ensures var t := After(s, Advance(i));
      && i < |t.calls| && t.calls[i] == Canceling(Cancelled(false))
      && t.ran == s.ran && t.pushed == s.pushed
      && ((forall hook :: hook in t.pushed ==> hook in t.ran) <==> Rest(s) == [])
  {
    ReachableInv(s);
    QueuedHaveRunIff(s);
    hide Inv, Rest;
  }

  lemma QueuedHaveRunIff(s: Token)
    requires Executions(s) && PushesAgree(s)
    ensures (forall hook :: hook in s.pushed ==> hook in s.ran) <==> Rest(s) == []
  {
    var rest, done := Rest(s), Done(s);
    hide Rest;
    if rest == [] {
      assert done == s.pushed;
      forall hook | hook in s.pushed ensures hook in s.ran {
        assert hook < |s.calls|;
      }
    } else {
      var k := |s.pushed| - |rest|;
      var hook := s.pushed[k];
      assert hook == rest[0] && hook in s.pushed;
      assert hook !in done;
      assert hook < |s.calls| && s.calls[hook] == Hooking(HookQueued);
    }
  }

  /** Three calls where they stand, the hook list's lock free and nothing run yet. */
  predicate IsTrio(s: Option<Token>, calls: seq<Pc>, cancelled: bool) {
    s.Some? && s.value.calls == calls && s.value.cancelled == cancelled && s.value.hookLock == None && s.value.ran == []
  }

  lemma HookIsQueued() returns (acts: seq<Action>)
    ensures IsTrio(Run(3, acts), [Hooking(HookQueued), Idle, Idle], false)
  {
    var a1 := [] + [Begin(0, Hooking(HookCheck))];
    var a2 := a1 + [Advance(0)];
    var a3 := a2 + [Advance(0)];
    var a4 := a3 + [Advance(0)];
    acts := a4 + [Advance(0)];
    hide Run;
    RunNone(3);
    RunStep(3, [], Begin(0, Hooking(HookCheck)));
    assert IsTrio(Run(3, a1), [Hooking(HookCheck), Idle, Idle], false);
    RunStep(3, a1, Advance(0));
    assert IsTrio(Run(3, a2), [Hooking(HookLock), Idle, Idle], false);
    RunStep(3, a2, Advance(0));
    RunStep(3, a3, Advance(0));
    RunStep(3, a4, Advance(0));
  }

  lemma TrioBegins(acts: seq<Action>, calls: seq<Pc>, cancelled: bool, i: nat)
    requires i < |calls| && calls[i] == Idle && IsTrio(Run(3, acts), calls, cancelled)
    ensures IsTrio(Run(3, acts + [Begin(i, Canceling(CancelSwap))]), calls[i := Canceling(CancelSwap)], cancelled)
  {
    RunStep(3, acts, Begin(i, Canceling(CancelSwap)));
    hide Run;
  }

  lemma TrioSwaps(acts: seq<Action>, calls: seq<Pc>, cancelled: bool, i: nat)
    requires i < |calls| && calls[i] == Canceling(CancelSwap) && IsTrio(Run(3, acts), calls, cancelled)
    ensures IsTrio(Run(3, acts + [Advance(i)]),
                   calls[i := Canceling(if cancelled then Cancelled(false) else CancelNotify)], true)
  {
    RunStep(3, acts, Advance(i));
    hide Run;
  }

  /** Only the winning `cancel` waits for the hooks: a second one comes back while the first
      has yet to run a hook that was registered before either. */
  lemma LosingCancelReturnsEarly() returns (acts: seq<Action>)
    ensures IsTrio(Run(3, acts), [Hooking(HookQueued), Canceling(CancelNotify), Canceling(Cancelled(false))], true)
  {
    hide Run, IsTrio;
    var queued := Hooking(HookQueued);
    acts := HookIsQueued();
    TrioBegins(acts, [queued, Idle, Idle], false, 1);
    assert [queued, Idle, Idle][1 := Canceling(CancelSwap)] == [queued, Canceling(CancelSwap), Idle];
    acts := acts + [Begin(1, Canceling(CancelSwap))];
    TrioSwaps(acts, [queued, Canceling(CancelSwap), Idle], false, 1);
    assert [queued, Canceling(CancelSwap), Idle][1 := Canceling(CancelNotify)] == [queued, Canceling(CancelNotify), Idle];
    acts := acts + [Advance(1)];
    TrioBegins(acts, [queued, Canceling(CancelNotify), Idle], true, 2);
    assert [queued, Canceling(CancelNotify), Idle][2 := Canceling(CancelSwap)] == [queued, Canceling(CancelNotify), Canceling(CancelSwap)];
    acts := acts + [Begin(2, Canceling(CancelSwap))];
    TrioSwaps(acts, [queued, Canceling(CancelNotify), Canceling(CancelSwap)], true, 2);
    assert [queued, Canceling(CancelNotify), Canceling(CancelSwap)][2 := Canceling(Cancelled(false))]
        == [queued, Canceling(CancelNotify), Canceling(Cancelled(false))];
    acts := acts + [Advance(2)];
  }

  /** On its way to sleep in `wait`, or asleep there. */
  predicate Dozing(pc: Pc) {
    pc == Waiting(WaitLock) || pc == Waiting(WaitSleep) || pc == Waiting(WaitAsleep)
  }

  lemma WaitDozes(s: Token, a: Action, i: nat)
    requires Enabled(s, a) && i < |s.calls| && s.cancelled
    ensures |After(s, a).calls| == |s.calls| && After(s, a).cancelled
    ensures Dozing(After(s, a).calls[i]) ==> Dozing(s.calls[i])
  {
    Others(s, a);
    if i == a.call && a.Advance? {
      match s.calls[i]
      case Idle =>
      case Canceling(c) => CancelMoves(s, i, c);
      case Hooking(h) => HookMoves(s, i, h);
      case Parking(p) => ParkMoves(s, i, p);
      case Waiting(w) =>
    }
    Moves(s, a);
  }

  /** The token some more actions later. */
  function RunOn(s: Token, more: seq<Action>): Option<Token> {
    if more == [] then Some(s)
    else
      var before := RunOn(s, more[..|more| - 1]);
      if before.None? then None else Step(before.value, more[|more| - 1])
  }

  /** Once the flag is up, a `wait` that is not already on its way to sleep never sleeps. */
  lemma {:induction false} NeverDozes(s: Token, more: seq<Action>, i: nat)
    requires i < |s.calls| && s.cancelled && !Dozing(s.calls[i]) && RunOn(s, more).Some?
    ensures |RunOn(s, more).value.calls| == |s.calls| && RunOn(s, more).value.cancelled
    ensures !Dozing(RunOn(s, more).value.calls[i])
  {
    if more != [] {
      var before := more[..|more| - 1];
      hide Step;
      NeverDozes(s, before, i);
      WaitDozes(RunOn(s, before).value, more[|more| - 1], i);
    }
  }

  /** After the notify the lock is free, so a call waiting for it can take it and go to sleep. */
  lemma LockedOutFallsAsleep(s: Token, i: nat)
    requires i < |s.calls| && s.calls[i] == Waiting(WaitLock) && s.wakeLock == None
    ensures var t := RunOn(s, [Advance(i), Advance(i)]);
      t.Some? && i < |t.value.calls| && t.value.calls[i] == Waiting(WaitAsleep)
  {
    var one := [Advance(i)];
    var two := [Advance(i), Advance(i)];
    assert one[..0] == [] && two[..1] == one;
    assert RunOn(s, []) == Some(s);
    assert RunOn(s, one) == Step(s, Advance(i));
    assert RunOn(s, two) == Step(RunOn(s, one).value, Advance(i));
  }

  /** Some continuation from s finds call i asleep in `wait`. */
  ghost predicate MaySleep(s: Token, i: nat) {
    exists more :: RunOn(s, more).Some? && i < |RunOn(s, more).value.calls|
                && RunOn(s, more).value.calls[i] == Waiting(WaitAsleep)
  }

  lemma AtNotify(s: Token, a: Action, i: nat)
    requires Reachable(s) && Enabled(s, a) && IsNotify(s, a) && i < |s.calls|
    ensures After(s, a).wakeLock == None && After(s, a).cancelled && i < |After(s, a).calls|
    ensures s.calls[i] == Waiting(WaitLock) ==> After(s, a).calls[i] == Waiting(WaitLock)
    ensures s.calls[i] != Waiting(WaitLock) ==> !Dozing(After(s, a).calls[i])
  {
    hide NoneLeftAsleep, Registrations, Executions;
    ReachableInv(s);
    Moves(s, a);
    Others(s, a);
    hide Moved;
    assert s.wakeLock == None && s.cancelled;
  }

  /** `wait` does not look at the flag again under the lock. After the winning `cancel` has made
      its notify, a call can be found asleep in `wait`, left to its timeout, exactly if it was
      waiting for the lock at that moment: past its check of the flag and not yet asleep. */
  lemma SleepsPastNotifyIff(s: Token, a: Action, i: nat)
    requires Reachable(s) && Enabled(s, a) && IsNotify(s, a) && i < |s.calls|
    ensures MaySleep(After(s, a), i) <==> s.calls[i] == Waiting(WaitLock)
  {
    hide Inv, Moved, After, Enabled, Step, RunOn, OthersStay;
    AtNotify(s, a, i);
    var t := After(s, a);
    if s.calls[i] == Waiting(WaitLock) {
      LockedOutFallsAsleep(t, i);
      assert MaySleep(t, i);
    } else if MaySleep(t, i) {
      var more :| RunOn(t, more).Some? && i < |RunOn(t, more).value.calls|
               && RunOn(t, more).value.calls[i] == Waiting(WaitAsleep);
      NeverDozes(t, more, i);
    }
  }

  /** A run in which that happens. */
  lemma WaitCanSleepPastNotify() returns (acts: seq<Action>)
    ensures var s := Run(2, acts);
      s.Some? && s.value.calls == [Waiting(WaitAsleep), Canceling(CancelTake)] && Notified(s.value)
  {
    var a0 := [Begin(0, Waiting(WaitCheck))];
    var a1 := a0 + [Advance(0)];
    var a2 := a1 + [Begin(1, Canceling(CancelSwap))];
    var a3 := a2 + [Advance(1)];
    var a4 := a3 + [Advance(1)];
    var a5 := a4 + [Advance(0)];
    acts := a5 + [Advance(0)];
    hide Run;
    RunNone(2);
    RunStep(2, [], Begin(0, Waiting(WaitCheck)));
    assert [] + a0 == a0;
    RunStep(2, a0, Advance(0));
    RunStep(2, a1, Begin(1, Canceling(CancelSwap)));
    RunStep(2, a2, Advance(1));
    RunStep(2, a3, Advance(1));
    RunStep(2, a4, Advance(0));
    RunStep(2, a5, Advance(0));
  }

  /** An uncancelled token with one call, in `wait_cancelled`. */
  predicate IsLone(s: Option<Token>, lock: Option<nat>, at: ParkPc) {
    s.Some? && !s.value.cancelled && s.value.wakeLock == lock && s.value.calls == [Parking(at)]
  }

  lemma LoneFallsAsleep() returns (acts: seq<Action>)
    ensures IsLone(Run(1, acts), None, ParkAsleep)
  {
    hide Run, Step;
    RunNone(1);
    RunStep(1, [], Begin(0, Parking(ParkCheck)));
    acts := [] + [Begin(0, Parking(ParkCheck))];
    LoneBegins();
    LoneAdvances(acts, None, ParkCheck, None, ParkLock);
    acts := acts + [Advance(0)];
    LoneAdvances(acts, None, ParkLock, Some(0), ParkRecheck);
    acts := acts + [Advance(0)];
    LoneAdvances(acts, Some(0), ParkRecheck, Some(0), ParkSleep);
    acts := acts + [Advance(0)];
    LoneAdvances(acts, Some(0), ParkSleep, None, ParkAsleep);
    acts := acts + [Advance(0)];
  }

  lemma LoneBegins()
    ensures IsLone(Step(Fresh(1), Begin(0, Parking(ParkCheck))), None, ParkCheck)
  {
  }

  /** Where an uncancelled call goes next, and what becomes of the lock. */
  predicate ParkGoes(lock: Option<nat>, at: ParkPc, lock': Option<nat>, to: ParkPc) {
    || (at == ParkCheck && to == ParkLock && lock' == lock)
    || (at == ParkLock && lock == None && lock' == Some(0) && to == ParkRecheck)
    || (at == ParkRecheck && to == ParkSleep && lock' == lock)
    || (at == ParkSleep && to == ParkAsleep && lock' == None)
    || (at == ParkWoken && lock == None && lock' == Some(0) && to == ParkUnlock)
    || (at == ParkUnlock && to == ParkReturned && lock' == None)
  }

  lemma LoneAdvances(acts: seq<Action>, lock: Option<nat>, at: ParkPc, lock': Option<nat>, to: ParkPc)
    requires IsLone(Run(1, acts), lock, at) && ParkGoes(lock, at, lock', to)
    ensures IsLone(Run(1, acts + [Advance(0)]), lock', to)
  {
    RunStep(1, acts, Advance(0));
    hide Run;
  }

  lemma LoneWakes(acts: seq<Action>)
    requires IsLone(Run(1, acts), None, ParkAsleep)
    ensures IsLone(Run(1, acts + [Spurious(0)]), None, ParkWoken)
  {
    RunStep(1, acts, Spurious(0));
    hide Run;
  }

  /** The other half of ParkReturnsCancelled: whoever is asleep in an uncancelled token, with the
      lock free, a spurious wake-up of its own and its own next steps bring back uncancelled. */
  lemma SpuriousReturnsUncancelled(s: Token, i: nat)
    requires i < |s.calls| && s.calls[i] == Parking(ParkAsleep) && !s.cancelled && s.wakeLock == None
    ensures var t := RunOn(s, [Spurious(i), Advance(i), Advance(i)]);
      t.Some? && i < |t.value.calls| && t.value.calls[i] == Parking(ParkReturned) && !t.value.cancelled
  {
    var one, two := [Spurious(i)], [Spurious(i), Advance(i)];
    var three := [Spurious(i), Advance(i), Advance(i)];
    assert one[..0] == [] && two[..1] == one && three[..2] == two;
    assert RunOn(s, []) == Some(s);
    assert RunOn(s, one) == Step(s, Spurious(i));
    assert RunOn(s, two) == Step(RunOn(s, one).value, Advance(i));
    assert RunOn(s, three) == Step(RunOn(s, two).value, Advance(i));
  }

  /** `wait_cancelled` does not loop around its condition variable: one spurious wake-up brings it
      back from a token nobody has cancelled. */
  lemma SpuriousWakeUpReturns() returns (acts: seq<Action>)
    ensures IsLone(Run(1, acts), None, ParkReturned)
  {
    hide Run, Step;
    acts := LoneFallsAsleep();
    LoneWakes(acts);
    acts := acts + [Spurious(0)];
    LoneAdvances(acts, None, ParkWoken, Some(0), ParkUnlock);
    acts := acts + [Advance(0)];
    LoneAdvances(acts, Some(0), ParkUnlock, None, ParkReturned);
    acts := acts + [Advance(0)];
  }

  // --- each call on its own --------------------------------------------------------------

  lemma RunOnStep(s: Token, more: seq<Action>, a: Action)
    requires RunOn(s, more).Some?
    ensures RunOn(s, more + [a]) == Step(RunOn(s, more).value, a)
  {
    assert (more + [a])[..|more|] == more;
  }

  lemma SetTwice(calls: seq<Pc>, i: nat)
    requires i < |calls|
    ensures forall pc, next {:trigger calls[i := pc][i := next]} :: calls[i := pc][i := next] == calls[i := next]
  {
  }

  /** Call i's next k accesses. */
  function Accesses(i: nat, k: nat): seq<Action> {
    if k == 0 then [] else Accesses(i, k - 1) + [Advance(i)]
  }

  /** Once the flag is up nobody has to wait for a lock: `wait` and `wait_cancelled` are back at
      their next access, and a hook registered now has run at the access after it. */
  lemma {:induction false} LateCallsAreQuick(s: Token, i: nat)
    requires i < |s.calls| && s.cancelled
    ensures s.calls[i] == Waiting(WaitCheck) ==> RunOn(s, Accesses(i, 1)) == Some(Goto(s, i, Waiting(WaitReturned(true))))
    ensures s.calls[i] == Parking(ParkCheck) ==> RunOn(s, Accesses(i, 1)) == Some(Goto(s, i, Parking(ParkReturned)))
    ensures s.calls[i] == Hooking(HookCheck) ==>
      RunOn(s, Accesses(i, 2)) == Some(Goto(s, i, Hooking(HookRan)).(ran := s.ran + [i]))
  {
    SetTwice(s.calls, i);
    RunOnStep(s, Accesses(i, 0), Advance(i));
    if s.calls[i] == Hooking(HookCheck) {
      RunOnStep(s, Accesses(i, 1), Advance(i));
    }
  }

  /** Before the flag is up, and with the list's lock free, a hook is queued behind the others. */
  lemma {:induction false} EarlyHookIsQueued(s: Token, i: nat)
    requires i < |s.calls| && !s.cancelled && s.hookLock == None && s.calls[i] == Hooking(HookCheck)
    ensures RunOn(s, Accesses(i, 4))
         == Some(Goto(s, i, Hooking(HookQueued)).(hooks := s.hooks + [i], pushed := s.pushed + [i]))
  {
    SetTwice(s.calls, i);
    hide RunOn;
    RunOnNone(s);
    RunOnStep(s, Accesses(i, 0), Advance(i));
    RunOnStep(s, Accesses(i, 1), Advance(i));
    RunOnStep(s, Accesses(i, 2), Advance(i));
    RunOnStep(s, Accesses(i, 3), Advance(i));
  }

  lemma RunOnNone(s: Token)
    ensures RunOn(s, []) == Some(s)
  {
  }

  /** A call of `wait` at some place, holding the lock or not. */
  function WaitingAt(s: Token, i: nat, w: WaitPc, locked: bool): Token
    requires i < |s.calls|
  {
    Goto(s, i, Waiting(w)).(wakeLock := if locked then Some(i) else None)
  }

  lemma {:induction false} WaitStep(s: Token, i: nat, acts: seq<Action>, w: WaitPc, locked: bool, a: Action, w': WaitPc, locked': bool)
    requires i < |s.calls| && !s.cancelled && RunOn(s, acts) == Some(WaitingAt(s, i, w, locked))
    requires (w == WaitCheck && !locked && a == Advance(i) && w' == WaitLock && !locked')
          || (w == WaitLock && !locked && a == Advance(i) && w' == WaitSleep && locked')
          || (w == WaitSleep && locked && a == Advance(i) && w' == WaitAsleep && !locked')
          || (w == WaitAsleep && !locked && a == TimeOut(i) && w' == WaitWoken && !locked')
          || (w == WaitWoken && !locked && a == Advance(i) && w' == WaitUnlock && locked')
          || (w == WaitUnlock && locked && a == Advance(i) && w' == WaitFinal && !locked')
          || (w == WaitFinal && !locked && a == Advance(i) && w' == WaitReturned(false) && !locked')
    ensures RunOn(s, acts + [a]) == Some(WaitingAt(s, i, w', locked'))
  {
    RunOnStep(s, acts, a);
    hide RunOn;
    assert s.calls[i := Waiting(w)][i := Waiting(w')] == s.calls[i := Waiting(w')];
  }

  /** `wait` for a token nobody cancels: it sleeps, and its timeout brings it back with the verdict
      false and nothing else changed. It does not go back to sleep. */
  lemma {:induction false} WaitTimesOut(s: Token, i: nat)
    requires i < |s.calls| && !s.cancelled && s.wakeLock == None && s.calls[i] == Waiting(WaitCheck)
    ensures RunOn(s, Accesses(i, 3)) == Some(Goto(s, i, Waiting(WaitAsleep)))
    ensures RunOn(s, Accesses(i, 3) + [TimeOut(i)] + [Advance(i)] + [Advance(i)] + [Advance(i)])
         == Some(Goto(s, i, Waiting(WaitReturned(false))))
  {
    RunOnNone(s);
    assert s == WaitingAt(s, i, WaitCheck, false);
    hide RunOn;
    var go := [Advance(i)];
    WaitStep(s, i, Accesses(i, 0), WaitCheck, false, go[0], WaitLock, false);
    WaitStep(s, i, Accesses(i, 1), WaitLock, false, go[0], WaitSleep, true);
    WaitStep(s, i, Accesses(i, 2), WaitSleep, true, go[0], WaitAsleep, false);
    WaitStep(s, i, Accesses(i, 3), WaitAsleep, false, TimeOut(i), WaitWoken, false);
    WaitStep(s, i, Accesses(i, 3) + [TimeOut(i)], WaitWoken, false, go[0], WaitUnlock, true);
    WaitStep(s, i, Accesses(i, 3) + [TimeOut(i)] + go, WaitUnlock, true, go[0], WaitFinal, false);
    WaitStep(s, i, Accesses(i, 3) + [TimeOut(i)] + go + go, WaitFinal, false, go[0], WaitReturned(false), false);
  }

  /** A winning `cancel` with everybody woken and k of the hooks run. */
  function HooksRun(s: Token, i: nat, k: nat): Token
    requires i < |s.calls| && k <= |s.hooks|
  {
    s.(cancelled := true, winner := Some(i), hooks := [], ran := s.ran + s.hooks[..k],
       calls := NotifyAll(s.calls)[i := Canceling(CancelRun(s.hooks[k..]))])
  }

  lemma {:induction false} NextHookRuns(s: Token, i: nat, k: nat)
    requires i < |s.calls| && k < |s.hooks|
    ensures Step(HooksRun(s, i, k), Advance(i)) == Some(HooksRun(s, i, k + 1))
  {
    assert s.hooks[..k + 1] == s.hooks[..k] + [s.hooks[k]] && s.hooks[k..][1..] == s.hooks[k + 1..];
    assert s.ran + s.hooks[..k] + [s.hooks[k]] == s.ran + s.hooks[..k + 1];
    assert HooksRun(s, i, k).calls[i := Canceling(CancelRun(s.hooks[k + 1..]))] == HooksRun(s, i, k + 1).calls;
  }

  lemma CancelNotifies(s: Token, i: nat)
    requires i < |s.calls| && s.wakeLock == None
    ensures var t := Goto(s, i, Canceling(CancelNotify)).(cancelled := true, winner := Some(i));
      Step(t, Advance(i)) == Some(t.(calls := NotifyAll(s.calls)[i := Canceling(CancelTake)]))
  {
    var t := Goto(s, i, Canceling(CancelNotify)).(cancelled := true, winner := Some(i));
    assert NotifyAll(t.calls)[i := Canceling(CancelTake)] == NotifyAll(s.calls)[i := Canceling(CancelTake)];
  }

  lemma {:induction false} CancelComesToHooks(s: Token, i: nat)
    requires i < |s.calls| && !s.cancelled && s.wakeLock == None && s.hookLock == None && s.calls[i] == Canceling(CancelSwap)
    ensures RunOn(s, Accesses(i, 3)) == Some(HooksRun(s, i, 0))
  {
    var s1 := Goto(s, i, Canceling(CancelNotify)).(cancelled := true, winner := Some(i));
    var s2 := s1.(calls := NotifyAll(s.calls)[i := Canceling(CancelTake)]);
    CancelNotifies(s, i);
    assert Step(s, Advance(i)) == Some(s1);
    assert Step(s2, Advance(i)) == Some(HooksRun(s, i, 0)) by {
      assert s.hooks[0..] == s.hooks && s.ran + s.hooks[..0] == s.ran;
      assert s2.calls[i := Canceling(CancelRun(s.hooks))] == HooksRun(s, i, 0).calls;
    }
    hide RunOn, Step, HooksRun;
    RunOnNone(s);
    RunOnStep(s, Accesses(i, 0), Advance(i));
    RunOnStep(s, Accesses(i, 1), Advance(i));
    RunOnStep(s, Accesses(i, 2), Advance(i));
  }

  lemma {:induction false} CancelRunsFirst(s: Token, i: nat, k: nat)
    requires i < |s.calls| && k <= |s.hooks| && RunOn(s, Accesses(i, 3)) == Some(HooksRun(s, i, 0))
    ensures RunOn(s, Accesses(i, 3 + k)) == Some(HooksRun(s, i, k))
  {
    hide RunOn, Step, HooksRun;
    if k > 0 {
      CancelRunsFirst(s, i, k - 1);
      RunOnStep(s, Accesses(i, 3 + k - 1), Advance(i));
      NextHookRuns(s, i, k - 1);
    }
  }

  /** The first `cancel`, with both locks free and the others holding still: it raises the flag, wakes
      whoever sleeps, and runs every hook registered, in order, before it comes back. */
  lemma {:induction false} CancelRunsEverything(s: Token, i: nat)
    requires i < |s.calls| && !s.cancelled && s.wakeLock == None && s.hookLock == None && s.calls[i] == Canceling(CancelSwap)
    ensures RunOn(s, Accesses(i, 3 + |s.hooks| + 1))
         == Some(s.(cancelled := true, winner := Some(i), hooks := [], ran := s.ran + s.hooks,
                    calls := NotifyAll(s.calls)[i := Canceling(Cancelled(true))]))
  {
    hide RunOn;
    CancelComesToHooks(s, i);
    CancelRunsFirst(s, i, |s.hooks|);
    var t := HooksRun(s, i, |s.hooks|);
    assert s.hooks[..|s.hooks|] == s.hooks && s.hooks[|s.hooks|..] == [];
    assert t.calls[i := Canceling(Cancelled(true))] == NotifyAll(s.calls)[i := Canceling(Cancelled(true))];
    RunOnStep(s, Accesses(i, 3 + |s.hooks|), Advance(i));
  }

  // --- no call goes round in circles -----------------------------------------------------

  /** How many steps of its own a call that is not a `cancel` has left at the most. */
  function StepsLeft(pc: Pc): nat {
    match pc
    case Idle => 9
    case Canceling(_) => 0
    case Hooking(h) => (match h
      case HookCheck => 6 case HookLock => 5 case HookRecheck => 4 case HookPush => 1
      case HookUnlock => 2 case HookInline => 1 case HookQueued => 0 case HookRan => 0)
    case Parking(p) => (match p
      case ParkCheck => 7 case ParkLock => 6 case ParkRecheck => 5 case ParkSleep => 4
      case ParkAsleep => 3 case ParkWoken => 2 case ParkUnlock => 1 case ParkReturned => 0)
    case Waiting(w) => (match w
      case WaitCheck => 8 case WaitLock => 7 case WaitSleep => 6 case WaitAsleep => 5
      case WaitWoken => 3 case WaitUnlock => 2 case WaitFinal => 1 case WaitReturned(_) => 0)
  }

  /** The actions of call i itself, from its beginning to its wake-ups. */
  function OwnSteps(acts: seq<Action>, i: nat): nat {
    if acts == [] then 0 else OwnSteps(acts[..|acts| - 1], i) + if acts[|acts| - 1].call == i then 1 else 0
  }

  predicate Counts(pc: Pc, next: Pc) {
    !next.Canceling? && StepsLeft(next) < StepsLeft(pc)
  }

  lemma HookCounts(s: Token, i: nat, h: HookPc)
    requires i < |s.calls| && NextHook(s, i, h).Some?
    ensures |NextHook(s, i, h).value.calls| == |s.calls| && Counts(Hooking(h), NextHook(s, i, h).value.calls[i])
  {
  }

  lemma ParkCounts(s: Token, i: nat, p: ParkPc)
    requires i < |s.calls| && NextPark(s, i, p).Some?
    ensures |NextPark(s, i, p).value.calls| == |s.calls| && Counts(Parking(p), NextPark(s, i, p).value.calls[i])
  {
  }

  lemma WaitCounts(s: Token, i: nat, w: WaitPc)
    requires i < |s.calls| && NextWait(s, i, w).Some?
    ensures |NextWait(s, i, w).value.calls| == |s.calls| && Counts(Waiting(w), NextWait(s, i, w).value.calls[i])
  {
  }

  lemma OutsideCounts(s: Token, a: Action)
    requires Enabled(s, a) && !a.Advance? && (a.Begin? ==> !a.at.Canceling?)
    ensures |After(s, a).calls| == |s.calls| && Counts(s.calls[a.call], After(s, a).calls[a.call])
  {
  }

  lemma OwnStepsCount(s: Token, a: Action)
    requires Enabled(s, a) && (a.Begin? ==> !a.at.Canceling?) && !s.calls[a.call].Canceling?
    ensures |After(s, a).calls| == |s.calls| && Counts(s.calls[a.call], After(s, a).calls[a.call])
  {
    hide Counts, NextHook, NextPark, NextWait;
    if !a.Advance? {
      OutsideCounts(s, a);
    } else {
      match s.calls[a.call]
      case Idle =>
      case Canceling(c) =>
      case Hooking(h) => HookCounts(s, a.call, h);
      case Parking(p) => ParkCounts(s, a.call, p);
      case Waiting(w) => WaitCounts(s, a.call, w);
    }
  }

  lemma OthersCount(s: Token, a: Action, i: nat)
    requires Enabled(s, a) && i < |s.calls| && a.call != i
    ensures |After(s, a).calls| == |s.calls| && StepsLeft(After(s, a).calls[i]) <= StepsLeft(s.calls[i])
    ensures After(s, a).calls[i].Canceling? <==> s.calls[i].Canceling?
  {
    Others(s, a);
    hide After, Enabled;
  }

  /** A call of `on_cancel`, `wait_cancelled` or `wait` takes nine steps at the most, its beginning and
      its wake-ups counted, whatever the others do: none of them loops. */
  lemma {:induction false} CallsDoNotLoop(n: nat, acts: seq<Action>, i: nat)
    requires Run(n, acts).Some? && i < n && Begin(i, Canceling(CancelSwap)) !in acts
    ensures |Run(n, acts).value.calls| == n && !Run(n, acts).value.calls[i].Canceling?
    ensures OwnSteps(acts, i) + StepsLeft(Run(n, acts).value.calls[i]) <= 9
  {
    if acts != [] {
      var before, a := acts[..|acts| - 1], acts[|acts| - 1];
      hide Step, StepsLeft;
      CallsDoNotLoop(n, before, i);
      assert a in acts;
      if a.call == i {
        if a.Begin? && a.at.Canceling? {
          BeginsAtEntry(Run(n, before).value, a);
        }
        OwnStepsCount(Run(n, before).value, a);
      } else {
        OthersCount(Run(n, before).value, a, i);
      }
    }
  }

  lemma BeginsAtEntry(s: Token, a: Action)
    requires Enabled(s, a) && a.Begin? && a.at.Canceling?
    ensures a == Begin(a.call, Canceling(CancelSwap))
  {
  }
}
