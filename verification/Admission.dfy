/** The bounded listener: sessions taking and giving back permits, the accept loop, and the stop
    that must release both, interleaved at every atomic access and every locked region. */
module Admission {
  import opened Wrappers

  /** Where one session has got to: `acquire`, then holding a permit, then `release`. */
  datatype SlotPc =
    | Idle
    | AskLock | CheckCancel | CheckRoom | Sleepy | Asleep | Woken | LastCheck | Take | Taken | Leave | Denied
    | Permit | Notify

  datatype AcceptPc = Top | Accepting | Got | Acquiring(session: nat) | Exited

  /** `stop`: raise the flag, connect to the listener's own address, wake every waiter. */
  datatype StopPc = Running | Flagged | Connected | HookRun

  datatype Listener = Listener(
    max: nat,
    active: int,
    lock: Option<nat>,
    sessions: seq<SlotPc>,
    cancelled: bool,
    stop: StopPc,
    accept: AcceptPc,
    backlog: nat)

  datatype Action =
    | Begin(session: nat)
    | Advance(session: nat, sleeper: nat)   // `sleeper`: whom a notify_one picks
    | SpuriousWake(session: nat)
    | Stop
    | Arrive
    | AcceptStep(session: nat)              // `session`: whom an accepted connection becomes
    | AcceptFails(fatal: bool)

  function Goto(s: Listener, i: nat, pc: SlotPc): Listener
    requires i < |s.sessions|
  {
    s.(sessions := s.sessions[i := pc])
  }

  ghost predicate NobodyAsleep(sessions: seq<SlotPc>) {
    forall j :: 0 <= j < |sessions| ==> sessions[j] != Asleep
  }

  /** Session i's next access; None while it cannot be made. */
  ghost function Next(s: Listener, i: nat, sleeper: nat): Option<Listener>
    requires i < |s.sessions|
  {
    match s.sessions[i]
    case AskLock => if s.lock.Some? then None else Some(Goto(s, i, CheckCancel).(lock := Some(i)))
    case CheckCancel => Some(Goto(s, i, if s.cancelled then LastCheck else CheckRoom))
    case CheckRoom => Some(Goto(s, i, if s.active >= s.max then Sleepy else LastCheck))
    case Sleepy => Some(Goto(s, i, Asleep).(lock := None))
    case Asleep => None
    case Woken => if s.lock.Some? then None else Some(Goto(s, i, CheckCancel).(lock := Some(i)))
    case LastCheck => Some(Goto(s, i, if s.cancelled then Leave else Take))
    case Take => Some(Goto(s, i, Taken).(active := s.active + 1))
    case Taken => Some(Goto(s, i, Permit).(lock := None))
    case Leave => Some(Goto(s, i, Denied).(lock := None))
    case Permit => Some(Goto(s, i, Notify).(active := s.active - 1))
    case Notify =>
      if s.lock.Some? then None
      else if NobodyAsleep(s.sessions) then Some(Goto(s, i, Idle))
      else if sleeper < |s.sessions| && s.sessions[sleeper] == Asleep then Some(Goto(Goto(s, sleeper, Woken), i, Idle))
      else None
    case Idle => None
    case Denied => None
  }

  function Rouse(pc: SlotPc): SlotPc {
    if pc == Asleep then Woken else pc
  }

  function RouseAll(sessions: seq<SlotPc>): (r: seq<SlotPc>)
    ensures |r| == |sessions| && forall i :: 0 <= i < |sessions| ==> r[i] == Rouse(sessions[i])
  {
    seq(|sessions|, i requires 0 <= i < |sessions| => Rouse(sessions[i]))
  }

  function NextStop(s: Listener): Option<Listener> {
    match s.stop
    case Running => Some(s.(cancelled := true, stop := Flagged))
    case Flagged => Some(s.(backlog := s.backlog + 1, stop := Connected))
    case Connected => if s.lock.Some? then None else Some(s.(sessions := RouseAll(s.sessions), stop := HookRun))
    case HookRun => None
  }

  function NextAccept(s: Listener, session: nat): Option<Listener> {
    match s.accept
    case Top => Some(s.(accept := if s.cancelled then Exited else Accepting))
    case Accepting => if s.backlog == 0 then None else Some(s.(backlog := s.backlog - 1, accept := Got))
    case Got =>
      if s.cancelled then Some(s.(accept := Exited))
      else if session < |s.sessions| && s.sessions[session] == Idle then
        Some(Goto(s, session, AskLock).(accept := Acquiring(session)))
      else None
    case Acquiring(k) =>
      if k >= |s.sessions| then None
      else if s.sessions[k] == Denied then Some(s.(accept := Exited))
      else if s.sessions[k] in {Permit, Notify, Idle} then Some(s.(accept := Top))
      else None
    case Exited => None
  }

  ghost function Step(s: Listener, a: Action): Option<Listener> {
    match a
    case Begin(i) =>
      if i < |s.sessions| && s.sessions[i] == Idle && s.accept != Acquiring(i) then Some(Goto(s, i, AskLock)) else None
    case Advance(i, j) => if i < |s.sessions| then Next(s, i, j) else None
    case SpuriousWake(i) =>
      if i < |s.sessions| && s.sessions[i] == Asleep then Some(Goto(s, i, Woken)) else None
    case Stop => NextStop(s)
    case Arrive => Some(s.(backlog := s.backlog + 1))
    case AcceptStep(k) => NextAccept(s, k)
    case AcceptFails(fatal) =>
      if s.accept == Accepting then Some(s.(accept := if fatal then Exited else Top)) else None
  }

  function Fresh(n: nat, max: nat): Listener {
    Listener(if max == 0 then 1 else max, 0, None, seq(n, _ => Idle), false, Running, Top, 0)
  }

  ghost function Run(n: nat, max: nat, acts: seq<Action>): Option<Listener> {
    if acts == [] then Some(Fresh(n, max))
    else
      var before := Run(n, max, acts[..|acts| - 1]);
      if before.None? then None else Step(before.value, acts[|acts| - 1])
  }

  // --- counting sessions ----------------------------------------------------------

  function Count(sessions: seq<SlotPc>, p: SlotPc -> bool): nat {
    if sessions == [] then 0
    else Count(sessions[..|sessions| - 1], p) + if p(sessions[|sessions| - 1]) then 1 else 0
  }

  function One(b: bool): nat {
    if b then 1 else 0
  }

  lemma {:induction false} CountUpdate(sessions: seq<SlotPc>, p: SlotPc -> bool, i: nat, pc: SlotPc)
    requires i < |sessions|
    ensures Count(sessions[i := pc], p) + One(p(sessions[i])) == Count(sessions, p) + One(p(pc))
  {
    var n := |sessions| - 1;
    assert sessions[i := pc][..n] == if i == n then sessions[..n] else sessions[..n][i := pc];
    if i < n {
      CountUpdate(sessions[..n], p, i, pc);
    }
  }

  lemma {:induction false} CountNone(sessions: seq<SlotPc>, p: SlotPc -> bool)
    requires forall i :: 0 <= i < |sessions| ==> !p(sessions[i])
    ensures Count(sessions, p) == 0
  {
    if sessions != [] {
      CountNone(sessions[..|sessions| - 1], p);
    }
  }

  lemma {:induction false} CountSome(sessions: seq<SlotPc>, p: SlotPc -> bool)
    requires Count(sessions, p) > 0
    ensures exists i :: 0 <= i < |sessions| && p(sessions[i])
  {
    var n := |sessions| - 1;
    if p(sessions[n]) {
    } else {
      CountSome(sessions[..n], p);
      var i :| 0 <= i < n && p(sessions[..n][i]);
      assert p(sessions[i]);
    }
  }

  lemma {:induction false} CountSame(a: seq<SlotPc>, b: seq<SlotPc>, p: SlotPc -> bool)
    requires |a| == |b| && forall i :: 0 <= i < |a| ==> p(a[i]) == p(b[i])
    ensures Count(a, p) == Count(b, p)
  {
    if a != [] {
      CountSame(a[..|a| - 1], b[..|b| - 1], p);
    }
  }

  // --- the invariant ----------------------------------------------------------------

  predicate HoldsLock(pc: SlotPc) {
    pc == CheckCancel || pc == CheckRoom || pc == Sleepy || pc == LastCheck || pc == Take || pc == Taken || pc == Leave
  }

  predicate HoldsPermit(pc: SlotPc) {
    pc == Taken || pc == Permit
  }

  predicate MidRelease(pc: SlotPc) {
    pc == Notify
  }

  /** Awake in `acquire`, with the condition still to be looked at or acted on. */
  predicate InLoop(pc: SlotPc) {
    pc == Woken || pc == CheckCancel || pc == CheckRoom || pc == Sleepy || pc == LastCheck || pc == Take
  }

  function Permits(s: Listener): nat { Count(s.sessions, HoldsPermit) }

  function Notifies(s: Listener): nat { Count(s.sessions, MidRelease) }

  function Awake(s: Listener): nat { Count(s.sessions, InLoop) }

  ghost predicate LockOwned(s: Listener) {
    && (forall i :: 0 <= i < |s.sessions| ==> (HoldsLock(s.sessions[i]) <==> s.lock == Some(i)))
    && (s.lock.Some? ==> s.lock.value < |s.sessions|)
  }

  /** The counter is the number of permits out, within the budget, and a session about to take
      one has been promised room. */
  ghost predicate Budget(s: Listener) {
    && 1 <= s.max
    && s.active == Permits(s) <= s.max
    && (forall i :: 0 <= i < |s.sessions| && s.sessions[i] == Take ==> s.active < s.max)
    && (forall i :: 0 <= i < |s.sessions| && s.sessions[i] == LastCheck ==> s.cancelled || s.active < s.max)
  }

  /** While not cancelled: every free slot is spoken for by a notify on its way or a session
      awake in `acquire`, whenever somebody sleeps, or is about to. */
  ghost predicate NoneForgotten(s: Listener) {
    !s.cancelled ==>
      && (!NobodyAsleep(s.sessions) ==> Notifies(s) + Awake(s) >= s.max - s.active)
      && (forall i :: 0 <= i < |s.sessions| && s.sessions[i] == Sleepy ==> Notifies(s) >= s.max - s.active)
  }

  ghost predicate Stopping(s: Listener) {
    && (s.cancelled <==> s.stop != Running)
    && (s.stop == HookRun ==> forall i :: 0 <= i < |s.sessions| ==>
          s.sessions[i] != Asleep && s.sessions[i] != Sleepy && s.sessions[i] != CheckRoom)
    && (s.stop == Connected || s.stop == HookRun ==> s.accept == Accepting ==> s.backlog > 0)
    && (s.accept.Acquiring? ==> s.accept.session < |s.sessions|)
  }

  ghost predicate Inv(s: Listener) {
    LockOwned(s) && Budget(s) && NoneForgotten(s) && Stopping(s)
  }

  lemma FreshInv(n: nat, max: nat)
    ensures Inv(Fresh(n, max))
  {
    CountNone(Fresh(n, max).sessions, HoldsPermit);
  }

  /** The moves of one session that leave every other where it is. */
  ghost predicate Alone(s: Listener, s': Listener, i: nat) {
    && i < |s.sessions| && |s'.sessions| == |s.sessions|
    && s'.sessions == s.sessions[i := s'.sessions[i]]
    && s'.max == s.max && s'.cancelled == s.cancelled && s'.stop == s.stop && s'.backlog == s.backlog
    && (s'.accept == s.accept || s'.accept.Acquiring?)
    && (s'.accept.Acquiring? ==> s'.accept == s.accept || s'.accept.session == i)
  }

  /** Where one session can go, and what that does to the lock and the counter. */
  predicate Walks(s: Listener, s': Listener, i: nat)
    requires i < |s.sessions| == |s'.sessions|
  {
    var pc, pc' := s.sessions[i], s'.sessions[i];
    && (s'.lock == if HoldsLock(pc) == HoldsLock(pc') then s.lock else if HoldsLock(pc') then Some(i) else None)
    && (!HoldsLock(pc) && HoldsLock(pc') ==> s.lock == None)
    && (s'.active == s.active + One(HoldsPermit(pc')) - One(HoldsPermit(pc)))
    && (pc' == CheckRoom ==> !s.cancelled)
    && (pc' == Sleepy ==> pc == CheckRoom && s.active >= s.max)
    && (pc' == Asleep ==> pc == Sleepy)
    && (pc' == LastCheck ==> s.cancelled || s.active < s.max)
    && (pc' == Take ==> pc == LastCheck && !s.cancelled)
    && (pc' == Taken ==> pc == Take)
    && (pc' == Permit ==> pc == Taken)
    && (pc == Taken ==> pc' == Permit)
    && (pc == Permit ==> pc' == Notify)
    && pc != Notify
    && (InLoop(pc) && !InLoop(pc') ==> pc' == Asleep || pc' == Taken || pc' == Leave)
    && (pc' == Leave ==> s.cancelled)
  }

  lemma AdvanceIsAlone(s: Listener, i: nat, j: nat)
    requires i < |s.sessions| && Next(s, i, j).Some? && s.sessions[i] != Notify
    ensures Alone(s, Next(s, i, j).value, i)
  {
    hide NobodyAsleep;
  }

  lemma AdvanceWalks(s: Listener, i: nat, j: nat)
    requires i < |s.sessions| && Next(s, i, j).Some? && s.sessions[i] != Notify
    ensures Alone(s, Next(s, i, j).value, i) && Walks(s, Next(s, i, j).value, i)
  {
    AdvanceIsAlone(s, i, j);
    hide Alone, NobodyAsleep;
  }

  lemma CountsWalk(s: Listener, s': Listener, i: nat)
    requires Alone(s, s', i)
    ensures Permits(s') == Permits(s) + One(HoldsPermit(s'.sessions[i])) - One(HoldsPermit(s.sessions[i]))
    ensures Notifies(s') == Notifies(s) + One(MidRelease(s'.sessions[i])) - One(MidRelease(s.sessions[i]))
    ensures Awake(s') == Awake(s) + One(InLoop(s'.sessions[i])) - One(InLoop(s.sessions[i]))
  {
    CountUpdate(s.sessions, HoldsPermit, i, s'.sessions[i]);
    CountUpdate(s.sessions, MidRelease, i, s'.sessions[i]);
    CountUpdate(s.sessions, InLoop, i, s'.sessions[i]);
  }

  lemma WalkKeepsLock(s: Listener, s': Listener, i: nat)
    requires LockOwned(s) && Alone(s, s', i) && Walks(s, s', i)
    ensures LockOwned(s')
  {
  }

  lemma WalkKeepsBudget(s: Listener, s': Listener, i: nat)
    requires LockOwned(s) && Budget(s) && Alone(s, s', i) && Walks(s, s', i)
    ensures Budget(s')
  {
    CountsWalk(s, s', i);
  }

  lemma WalkKeepsWaiters(s: Listener, s': Listener, i: nat)
    requires LockOwned(s) && Budget(s) && NoneForgotten(s) && Alone(s, s', i) && Walks(s, s', i)
    ensures NoneForgotten(s')
  {
    CountsWalk(s, s', i);
    if !NobodyAsleep(s'.sessions) && NobodyAsleep(s.sessions) {
      assert s'.sessions[i] == Asleep;
    }
  }

  lemma WalkKeepsStop(s: Listener, s': Listener, i: nat)
    requires LockOwned(s) && Stopping(s) && Alone(s, s', i) && Walks(s, s', i)
    ensures Stopping(s')
  {
  }

  // A notify moves two sessions at once.

  /** A notify's effect on the sessions: its own goes idle, and one sleeper, if there is one, wakes. */
  lemma NotifyMoves(s: Listener, i: nat, j: nat)
    requires i < |s.sessions| && s.sessions[i] == Notify && Next(s, i, j).Some?
    ensures !NobodyAsleep(s.sessions) ==> j < |s.sessions| && j != i && s.sessions[j] == Asleep
    ensures var mid := if NobodyAsleep(s.sessions) then s.sessions else s.sessions[j := Woken];
            Next(s, i, j).value == s.(sessions := mid[i := Idle])
    ensures NobodyAsleep(s.sessions) ==> NobodyAsleep(Next(s, i, j).value.sessions)
  {
  }

  lemma NotifyCount(s: Listener, i: nat, j: nat, p: SlotPc -> bool)
    requires i < |s.sessions| && s.sessions[i] == Notify && Next(s, i, j).Some?
    ensures Count(Next(s, i, j).value.sessions, p) + One(p(Notify)) ==
            Count(s.sessions, p) + One(p(Idle)) + if NobodyAsleep(s.sessions) then 0 else One(p(Woken)) - One(p(Asleep))
  {
    NotifyMoves(s, i, j);
    hide Next, Count, NobodyAsleep, One;
    if NobodyAsleep(s.sessions) {
      CountUpdate(s.sessions, p, i, Idle);
    } else {
      var mid := s.sessions[j := Woken];
      CountUpdate(s.sessions, p, j, Woken);
      CountUpdate(mid, p, i, Idle);
      assert mid[i] == Notify;
    }
  }

  lemma NotifyCounts(s: Listener, i: nat, j: nat)
    requires i < |s.sessions| && s.sessions[i] == Notify && Next(s, i, j).Some?
    ensures var s' := Next(s, i, j).value;
      Permits(s') == Permits(s) && Notifies(s') == Notifies(s) - 1 && Awake(s') == Awake(s) + One(!NobodyAsleep(s.sessions))
  {
    NotifyCount(s, i, j, HoldsPermit);
    NotifyCount(s, i, j, MidRelease);
    NotifyCount(s, i, j, InLoop);
    hide Next, Count, NobodyAsleep;
  }

  lemma NotifyKeeps(s: Listener, i: nat, j: nat)
    requires Inv(s) && i < |s.sessions| && s.sessions[i] == Notify && Next(s, i, j).Some?
    ensures Inv(Next(s, i, j).value)
  {
    NotifyMoves(s, i, j);
    NotifyCounts(s, i, j);
    NotifyKeepsRest(s, i, j);
    hide Next, NobodyAsleep, Permits, Notifies, Awake, Count, LockOwned, Stopping;
  }

  lemma NotifyKeepsRest(s: Listener, i: nat, j: nat)
    requires LockOwned(s) && Stopping(s) && i < |s.sessions| && s.sessions[i] == Notify && Next(s, i, j).Some?
    ensures LockOwned(Next(s, i, j).value) && Stopping(Next(s, i, j).value)
    ensures s.lock == None
    ensures var now := Next(s, i, j).value.sessions;
      forall k :: 0 <= k < |now| ==> now[k] != Take && now[k] != LastCheck && now[k] != Sleepy
  {
  }

  lemma StopKeeps(s: Listener)
    requires Inv(s) && NextStop(s).Some?
    ensures Inv(NextStop(s).value)
  {
    if s.stop == Connected {
      CountSame(s.sessions, RouseAll(s.sessions), HoldsPermit);
    }
  }

  /** Starting a session for an accepted connection, or for anyone else. */
  lemma BeginWalks(s: Listener, i: nat, accept: AcceptPc)
    requires i < |s.sessions| && s.sessions[i] == Idle
    requires accept == s.accept || accept == Acquiring(i)
    ensures var s' := Goto(s, i, AskLock).(accept := accept);
      Alone(s, s', i) && Walks(s, s', i)
  {
  }

  lemma WalkKeeps(s: Listener, s': Listener, i: nat)
    requires Inv(s) && Alone(s, s', i) && Walks(s, s', i)
    ensures Inv(s')
  {
    hide LockOwned, Budget, NoneForgotten, Stopping;
    WalkKeepsLock(s, s', i);
    WalkKeepsBudget(s, s', i);
    WalkKeepsWaiters(s, s', i);
    WalkKeepsStop(s, s', i);
  }

  lemma AcceptKeeps(s: Listener, k: nat)
    requires Inv(s) && NextAccept(s, k).Some?
    ensures Inv(NextAccept(s, k).value)
  {
    if s.accept == Got && !s.cancelled {
      BeginWalks(s, k, Acquiring(k));
      WalkKeeps(s, NextAccept(s, k).value, k);
    }
  }

  lemma InvKept(s: Listener, a: Action)
    requires Inv(s) && Step(s, a).Some?
    ensures Inv(Step(s, a).value)
  {
    hide Inv, LockOwned, Budget, NoneForgotten, Stopping, Next, NextStop, NextAccept;
    match a
    case Begin(i) =>
      BeginWalks(s, i, s.accept);
      WalkKeeps(s, Goto(s, i, AskLock), i);
    case Advance(i, j) =>
      if s.sessions[i] == Notify {
        NotifyKeeps(s, i, j);
      } else {
        AdvanceWalks(s, i, j);
        WalkKeeps(s, Next(s, i, j).value, i);
      }
    case SpuriousWake(i) =>
      WalkKeeps(s, Goto(s, i, Woken), i);
    case Stop =>
      StopKeeps(s);
    case Arrive =>
      BacklogKeeps(s, s.(backlog := s.backlog + 1));
    case AcceptStep(k) =>
      AcceptKeeps(s, k);
    case AcceptFails(fatal) =>
      BacklogKeeps(s, s.(accept := if fatal then Exited else Top));
  }

  lemma BacklogKeeps(s: Listener, s': Listener)
    requires Inv(s)
    requires s' == s.(backlog := s.backlog + 1) || s' == s.(accept := Top) || s' == s.(accept := Exited)
    ensures Inv(s')
  {
  }

  /** Some interleaving leads to s. */
  ghost predicate Reachable(s: Listener) {
    exists max, acts :: Run(|s.sessions|, max, acts) == Some(s)
  }

  lemma {:induction false} RunInv(n: nat, max: nat, acts: seq<Action>)
    requires Run(n, max, acts).Some?
    ensures Inv(Run(n, max, acts).value)
  {
    if acts == [] {
      FreshInv(n, max);
    } else {
      RunInv(n, max, acts[..|acts| - 1]);
      InvKept(Run(n, max, acts[..|acts| - 1]).value, acts[|acts| - 1]);
    }
  }

  lemma ReachableInv(s: Listener)
    requires Reachable(s)
    ensures Inv(s)
  {
    var max, acts :| Run(|s.sessions|, max, acts) == Some(s);
    RunInv(|s.sessions|, max, acts);
  }

  // --- what the listener promises ----------------------------------------------------

  /** In every reachable state the counter is exactly the number of permits out, and never
      exceeds the budget. */
  lemma ActiveIsPermitsOut(s: Listener)
    requires Reachable(s)
    ensures s.active == Count(s.sessions, HoldsPermit)
    ensures 0 <= s.active <= s.max
  {
    ReachableInv(s);
  }

  /** While the listener runs, a session asleep beside a free slot is not forgotten: for every
      free slot there is a notify still to come or a session awake to take it. */
  lemma NoSleeperForgotten(s: Listener, i: nat)
    requires Reachable(s) && !s.cancelled
    requires i < |s.sessions| && s.sessions[i] == Asleep && s.active < s.max
    ensures Count(s.sessions, MidRelease) + Count(s.sessions, InLoop) >= s.max - s.active
    ensures exists j :: 0 <= j < |s.sessions| && (MidRelease(s.sessions[j]) || InLoop(s.sessions[j]))
  {
    ReachableInv(s);
    if Count(s.sessions, MidRelease) > 0 {
      CountSome(s.sessions, MidRelease);
    } else {
      CountSome(s.sessions, InLoop);
    }
  }

  /** Once the stop hook has run nobody is asleep in `acquire`, and nobody falls asleep any more. */
  lemma StopWakesEverybody(s: Listener, i: nat)
    requires Reachable(s) && s.stop == HookRun && i < |s.sessions|
    ensures s.sessions[i] != Asleep && s.sessions[i] != Sleepy
  {
    ReachableInv(s);
  }

  predicate Moving(pc: SlotPc) {
    pc != Idle && pc != Denied && pc != Asleep
  }

  /** Session i can make its next access, whomever a notify of its own would wake. */
  ghost predicate CanMove(s: Listener, i: nat) {
    i < |s.sessions| && exists k :: Next(s, i, k).Some?
  }

  lemma OneMoves(s: Listener, j: nat)
    requires j < |s.sessions| && Moving(s.sessions[j])
    requires s.lock.None? || (s.lock == Some(j) && HoldsLock(s.sessions[j]))
    ensures CanMove(s, j)
  {
    if s.sessions[j] == Notify && !NobodyAsleep(s.sessions) {
      var k :| 0 <= k < |s.sessions| && s.sessions[k] == Asleep;
      assert Next(s, j, k).Some?;
    } else {
      assert Next(s, j, 0).Some?;
    }
  }

  lemma MoverOrHolderMoves(s: Listener, i: nat)
    requires LockOwned(s) && i < |s.sessions| && Moving(s.sessions[i])
    ensures CanMove(s, i) || (s.lock.Some? && CanMove(s, s.lock.value))
  {
    hide CanMove;
    OneMoves(s, if s.lock.Some? then s.lock.value else i);
  }

  /** Once the stop hook has run the accept loop is never left blocked: it can move, or the
      session whose permit it waits for can, or the holder of the lock that session needs. */
  lemma StopReleasesAccept(s: Listener)
    requires Reachable(s) && s.stop == HookRun && s.accept != Exited
    ensures (exists k :: NextAccept(s, k).Some?)
         || (s.accept.Acquiring?
             && (CanMove(s, s.accept.session) || (s.lock.Some? && CanMove(s, s.lock.value))))
  {
    ReachableInv(s);
    hide CanMove;
    if s.accept.Acquiring? {
      var k := s.accept.session;
      if Moving(s.sessions[k]) {
        MoverOrHolderMoves(s, k);
      } else {
        assert NextAccept(s, 0).Some?;
      }
    } else {
      assert NextAccept(s, 0).Some?;
    }
  }

  function AcceptRank(pc: AcceptPc): nat {
    match pc
    case Accepting => 3
    case Got => 1
    case Acquiring(_) => 2
    case Top => 1
    case Exited => 0
  }

  /** After the flag is up every step of the accept loop, a failed accept included, brings its exit
      nearer, and none starts another session. */
  lemma StoppedAcceptWindsDown(s: Listener, a: Action)
    requires s.cancelled && (a.AcceptStep? || a.AcceptFails?) && Step(s, a).Some?
    ensures AcceptRank(Step(s, a).value.accept) < AcceptRank(s.accept)
    ensures Step(s, a).value.sessions == s.sessions
  {
  }

  // --- it serves, until it is told to stop ----------------------------------------------

  /** Nobody is turned away by a listener that has not been stopped. */
  ghost predicate NoneTurnedAway(s: Listener) {
    forall i :: 0 <= i < |s.sessions| && (s.sessions[i] == Leave || s.sessions[i] == Denied) ==> s.cancelled
  }

  lemma StepTurnsNoneAway(s: Listener, a: Action)
    requires NoneTurnedAway(s) && Step(s, a).Some?
    ensures NoneTurnedAway(Step(s, a).value) && (s.cancelled ==> Step(s, a).value.cancelled)
    ensures Step(s, a).value.max == s.max
  {
    hide NobodyAsleep;
  }

  lemma StepExits(s: Listener, a: Action)
    requires NoneTurnedAway(s) && Step(s, a).Some? && !Step(s, a).value.cancelled
    ensures Step(s, a).value.accept == Exited <==> s.accept == Exited || a == AcceptFails(true)
  {
    hide NobodyAsleep;
  }

  /** The accept loop of a listener nobody has stopped goes on, however sessions come and go and
      whatever its accepts return, exactly until an accept fails for good. */
  lemma {:induction false} AcceptGoesOnIff(n: nat, max: nat, acts: seq<Action>)
    requires Run(n, max, acts).Some?
    ensures NoneTurnedAway(Run(n, max, acts).value)
    ensures !Run(n, max, acts).value.cancelled ==>
      (Run(n, max, acts).value.accept == Exited <==> AcceptFails(true) in acts)
  {
    if acts != [] {
      var before, a := acts[..|acts| - 1], acts[|acts| - 1];
      hide Step, NoneTurnedAway;
      AcceptGoesOnIff(n, max, before);
      assert acts == before + [a];
      StepTurnsNoneAway(Run(n, max, before).value, a);
      if !Run(n, max, acts).value.cancelled {
        StepExits(Run(n, max, before).value, a);
      }
    }
  }

  /** The budget is the one the listener was made with, or one slot if that was none, and is never
      exceeded. */
  lemma {:induction false} BudgetIsTheGiven(n: nat, max: nat, acts: seq<Action>)
    requires Run(n, max, acts).Some?
    ensures var s := Run(n, max, acts).value;
      0 <= s.active <= s.max && s.max == if max == 0 then 1 else max
  {
    RunInv(n, max, acts);
    if acts != [] {
      hide Step, Inv;
      BudgetIsTheGiven(n, max, acts[..|acts| - 1]);
      AcceptGoesOnIff(n, max, acts[..|acts| - 1]);
      StepTurnsNoneAway(Run(n, max, acts[..|acts| - 1]).value, acts[|acts| - 1]);
    }
  }

  /** The listener some more actions later. */
  ghost function RunOn(s: Listener, more: seq<Action>): Option<Listener>
    decreases |more|
  {
    if more == [] then Some(s)
    else
      var next := Step(s, more[0]);
      if next.None? then None else RunOn(next.value, more[1..])
  }

  lemma {:induction false} RunOnStep(s: Listener, a: Action, more: seq<Action>)
    requires Step(s, a).Some?
    ensures RunOn(s, [a] + more) == RunOn(Step(s, a).value, more)
  {
    assert ([a] + more)[1..] == more;
  }

  /** Session i's next k accesses. */
  function Accesses(i: nat, k: nat): seq<Action> {
    if k == 0 then [] else [Advance(i, 0)] + Accesses(i, k - 1)
  }

  /** The way from the lock to the permit, where there is room. */
  function AccessesLeft(pc: SlotPc): nat {
    match pc
    case AskLock => 6
    case Woken => 6
    case CheckCancel => 5
    case CheckRoom => 4
    case LastCheck => 3
    case Take => 2
    case Taken => 1
    case _ => 0
  }

  /** Session i has its permit and the lock is free again. */
  function Admitted(s: Listener, i: nat): Listener
    requires i < |s.sessions|
  {
    Goto(s, i, Permit).(active := s.active + One(!HoldsPermit(s.sessions[i])), lock := None)
  }

  /** With nobody in the way and a slot free, a session that asks for a permit gets it. */
  lemma {:induction false} RoomAdmits(s: Listener, i: nat, more: seq<Action>)
    requires i < |s.sessions| && !s.cancelled && AccessesLeft(s.sessions[i]) > 0
    requires s.lock == if HoldsLock(s.sessions[i]) then Some(i) else None
    requires HoldsPermit(s.sessions[i]) || s.active < s.max
    ensures RunOn(s, Accesses(i, AccessesLeft(s.sessions[i])) + more) == RunOn(Admitted(s, i), more)
    decreases AccessesLeft(s.sessions[i])
  {
    hide RunOn, NobodyAsleep;
    var k := AccessesLeft(s.sessions[i]);
    var t := Step(s, Advance(i, 0)).value;
    RunOnStep(s, Advance(i, 0), Accesses(i, k - 1) + more);
    assert Accesses(i, k) + more == [Advance(i, 0)] + (Accesses(i, k - 1) + more);
    if k > 1 {
      RoomAdmits(t, i, more);
      assert Admitted(t, i) == Admitted(s, i);
    } else {
      assert Accesses(i, 0) + more == more;
      assert t == Admitted(s, i);
    }
  }

  lemma {:induction false} ConnectionAsks(s: Listener, i: nat, more: seq<Action>)
    requires s.accept == Top && !s.cancelled && s.backlog > 0 && i < |s.sessions| && s.sessions[i] == Idle
    ensures RunOn(s, [AcceptStep(i)] + ([AcceptStep(i)] + ([AcceptStep(i)] + more)))
         == RunOn(s.(sessions := s.sessions[i := AskLock], accept := Acquiring(i), backlog := s.backlog - 1), more)
  {
    hide RunOn;
    var step := [AcceptStep(i)];
    RunOnStep(s, step[0], step + (step + more));
    RunOnStep(s.(accept := Accepting), step[0], step + more);
    RunOnStep(s.(accept := Got, backlog := s.backlog - 1), step[0], more);
  }

  lemma {:induction false} ConnectionGoes(s: Listener, i: nat)
    requires s.accept == Acquiring(i) && i < |s.sessions| && s.sessions[i] == Permit
    ensures RunOn(s, [AcceptStep(i)]) == Some(s.(accept := Top))
  {
    LastStep(s, AcceptStep(i));
  }

  lemma {:induction false} AskerIsAdmitted(s: Listener, i: nat, more: seq<Action>)
    requires i < |s.sessions| && !s.cancelled && s.lock == None && s.active < s.max
    requires s.sessions[i] == AskLock || s.sessions[i] == Woken
    ensures RunOn(s, Accesses(i, 6) + more)
         == RunOn(Goto(s, i, Permit).(active := s.active + 1), more)
  {
    hide RunOn, NobodyAsleep, Accesses, Step;
    RoomAdmits(s, i, more);
  }

  /** After the flag is up a session that asks is turned away without a permit, and the accept loop
      that asked for it leaves. */
  lemma {:induction false} StoppedSessionIsDenied(s: Listener, i: nat)
    requires i < |s.sessions| && s.cancelled && s.lock == None
    requires s.sessions[i] == AskLock || s.sessions[i] == Woken
    ensures RunOn(s, Accesses(i, 4) + []) == Some(Goto(s, i, Denied))
    ensures s.accept == Acquiring(i) ==>
      RunOn(s, Accesses(i, 4) + [AcceptStep(i)]) == Some(Goto(s, i, Denied).(accept := Exited))
  {
    AskerIsDenied(s, i, []);
    RunOnNone(Goto(s, i, Denied));
    if s.accept == Acquiring(i) {
      AskerIsDenied(s, i, [AcceptStep(i)]);
      LastStep(Goto(s, i, Denied), AcceptStep(i));
    }
  }

  lemma {:induction false} AskerIsDenied(s: Listener, i: nat, more: seq<Action>)
    requires i < |s.sessions| && s.cancelled && s.lock == None
    requires s.sessions[i] == AskLock || s.sessions[i] == Woken
    ensures RunOn(s, Accesses(i, 4) + more) == RunOn(Goto(s, i, Denied), more)
  {
    hide RunOn, NobodyAsleep;
    var step := Advance(i, 0);
    var s1 := Goto(s, i, CheckCancel).(lock := Some(i));
    var s2 := Goto(s1, i, LastCheck);
    var s3 := Goto(s2, i, Leave);
    var s4 := Goto(s, i, Denied);
    assert Accesses(i, 1) == [step] && Accesses(i, 2) == [step, step] && Accesses(i, 3) == [step, step, step];
    assert Accesses(i, 4) + more == [step] + ([step] + ([step] + ([step] + more)));
    RunOnStep(s, step, [step] + ([step] + ([step] + more)));
    RunOnStep(s1, step, [step] + ([step] + more));
    RunOnStep(s2, step, [step] + more);
    RunOnStep(s3, step, more);
    assert Goto(s3, i, Denied).(lock := None) == s4;
  }

  /** A waiting connection is taken, given its permit, and the accept loop is back for the next. */
  lemma {:induction false} ConnectionIsServed(s: Listener, i: nat)
    requires s.accept == Top && !s.cancelled && s.backlog > 0 && s.lock == None && s.active < s.max
    requires i < |s.sessions| && s.sessions[i] == Idle
    ensures RunOn(s, [AcceptStep(i)] + ([AcceptStep(i)] + ([AcceptStep(i)] + (Accesses(i, 6) + [AcceptStep(i)]))))
         == Some(s.(sessions := s.sessions[i := Permit], active := s.active + 1, backlog := s.backlog - 1))
  {
    hide RunOn, NobodyAsleep, Accesses, Step;
    var asked := s.(sessions := s.sessions[i := AskLock], accept := Acquiring(i), backlog := s.backlog - 1);
    ConnectionAsks(s, i, Accesses(i, 6) + [AcceptStep(i)]);
    AskerIsAdmitted(asked, i, [AcceptStep(i)]);
    ConnectionGoes(Goto(asked, i, Permit).(active := s.active + 1), i);
    assert s.sessions[i := AskLock][i := Permit] == s.sessions[i := Permit];
  }

  lemma {:induction false} LastStep(s: Listener, a: Action)
    ensures RunOn(s, [a]) == Step(s, a)
  {
    hide Step;
    if Step(s, a).Some? {
      RunOnStep(s, a, []);
      assert [a] + [] == [a];
    }
  }

  /** Over a full listener: when session i gives its permit back, the sleeper it notifies takes the
      slot over. */
  lemma {:induction false} SlotIsHandedOn(s: Listener, i: nat, j: nat)
    requires !s.cancelled && s.lock == None && s.active <= s.max
    requires i < |s.sessions| && s.sessions[i] == Permit && j < |s.sessions| && s.sessions[j] == Asleep
    ensures RunOn(s, [Advance(i, j)] + ([Advance(i, j)] + (Accesses(j, 6) + [])))
         == Some(s.(sessions := s.sessions[i := Idle][j := Permit]))
  {
    var s1 := Goto(s, i, Notify).(active := s.active - 1);
    var s2 := Goto(Goto(s1, j, Woken), i, Idle);
    assert s1.sessions[j] == Asleep && !NobodyAsleep(s1.sessions);
    hide RunOn, NobodyAsleep, Accesses;
    RunOnStep(s, Advance(i, j), [Advance(i, j)] + (Accesses(j, 6) + []));
    RunOnStep(s1, Advance(i, j), Accesses(j, 6) + []);
    AskerIsAdmitted(s2, j, []);
    assert s1.sessions[j := Woken][i := Idle][j := Permit] == s.sessions[i := Idle][j := Permit];
    RunOnNone(s.(sessions := s.sessions[i := Idle][j := Permit]));
  }

  lemma RunOnNone(s: Listener)
    ensures RunOn(s, []) == Some(s)
  {
  }
}
