/** The timer: a scheduler over a heap of (deadline, id) nodes and a map of live entries, beside
    callers that insert timers and cancel them, interleaved at every locked region and atomic. */
module TimerWheel {
  import opened Wrappers

  datatype Node = Node(deadline: int, id: nat)

  /** A live entry. `timer` is the id it was inserted under, which names its shared flag for good;
      a repeating entry gets a new id after each firing. */
  datatype Entry = Entry(timer: nat, period: Option<nat>, anchor: int, fires: nat)

  /** Heap and entry map, with history: the deadline pushed under each id, how many nodes had been
      popped by then, and every node popped. */
  datatype Queue = Queue(
    heap: set<Node>, entries: map<nat, Entry>, nextId: nat,
    due: map<nat, int>, born: map<nat, nat>, pops: seq<Node>)

  /** The scheduler thread. `CheckFlag` still holds the lock; `read` is the clock value the
      catch-up loop read last. */
  datatype Pc =
    | Waiting
    | Asleep(until: Option<int>)
    | CheckFlag(entry: Entry, node: Node)
    | StartJob(entry: Entry, node: Node)
    | RunningJob(entry: Entry)
    | CatchUp(entry: Entry, deadline: int)
    | Reinsert(entry: Entry, deadline: int, read: int)
    | Stopped

  /** What a caller asked for. */
  datatype Timer = Timer(first: int, period: Option<nat>)

  /** One start of a job: the timer it belongs to, the tick it serves, and when it began. */
  datatype Start = Start(timer: nat, deadline: int, at: int)

  datatype Wheel = Wheel(
    queue: Queue,
    timers: map<nat, Timer>,
    flags: set<nat>,        // timers whose shared flag is up
    removing: set<nat>,     // of those, the ones whose `cancel` has yet to remove its id
    shutdown: bool,
    closing: bool,          // shutdown is set but not yet notified
    woken: bool,            // a notify has reached the sleeping scheduler
    pc: Pc,
    clock: int,
    starts: seq<Start>)

  datatype Action =
    | Tick(amount: nat)
    | Insert(deadline: int, period: Option<nat>)
    | RaiseFlag(timer: nat)
    | RemoveId(timer: nat)
    | ShutDown
    | NotifyShutDown
    | Wake
    | Scheduler(peek: Option<Node>)

  /** Earlier deadline first; of equal ones, the smaller id. */
  predicate Earlier(a: Node, b: Node) {
    a.deadline < b.deadline || (a.deadline == b.deadline && a.id <= b.id)
  }

  /** What peeking at the heap finds. */
  ghost predicate IsPeek(heap: set<Node>, peek: Option<Node>) {
    match peek
    case None => heap == {}
    case Some(n) => n in heap && forall m :: m in heap ==> Earlier(n, m)
  }

  function Push(q: Queue, deadline: int, entry: Entry): Queue {
    var id := q.nextId + 1;
    Queue(q.heap + {Node(deadline, id)}, q.entries[id := entry], id,
          q.due[id := deadline], q.born[id := |q.pops|], q.pops)
  }

  function Pop(q: Queue, n: Node): Queue {
    q.(heap := q.heap - {n}, entries := q.entries - {n.id}, pops := q.pops + [n])
  }

  function Remove(q: Queue, id: nat): Queue {
    q.(entries := q.entries - {id})
  }

  function Fired(entry: Entry): Entry {
    entry.(fires := entry.fires + 1)
  }

  ghost function StepWaiting(s: Wheel, peek: Option<Node>): Option<Wheel> {
    if s.shutdown then Some(s.(pc := Stopped))
    else if !IsPeek(s.queue.heap, peek) then None
    else match peek
      case None => Some(s.(pc := Asleep(None), woken := false))
      case Some(n) =>
        if n.deadline > s.clock then Some(s.(pc := Asleep(Some(n.deadline)), woken := false))
        else Some(s.(queue := Pop(s.queue, n),
                     pc := if n.id in s.queue.entries then CheckFlag(s.queue.entries[n.id], n) else Waiting))
  }

  ghost function StepScheduler(s: Wheel, peek: Option<Node>): Option<Wheel> {
    match s.pc
    case Waiting => StepWaiting(s, peek)
    case CheckFlag(entry, node) =>
      Some(s.(pc := if entry.timer in s.flags then Waiting else StartJob(entry, node)))
    case StartJob(entry, node) =>
      Some(s.(pc := RunningJob(entry), starts := s.starts + [Start(entry.timer, node.deadline, s.clock)]))
    case RunningJob(entry) =>
      Some(s.(pc := if entry.period.None? then Waiting
                    else CatchUp(Fired(entry), entry.anchor + entry.period.value)))
    case CatchUp(entry, deadline) =>
      if entry.period.None? then None
      else if deadline <= s.clock then Some(s.(pc := CatchUp(entry, deadline + entry.period.value)))
      else Some(s.(pc := Reinsert(entry.(anchor := deadline - entry.period.value), deadline, s.clock)))
    case Reinsert(entry, deadline, _) => Some(s.(queue := Push(s.queue, deadline, entry), pc := Waiting))
    case Asleep(_) => None
    case Stopped => None
  }

  function Inserted(s: Wheel, deadline: int, period: Option<nat>): Wheel {
    var id := s.queue.nextId + 1;
    s.(queue := Push(s.queue, deadline, Entry(id, period, deadline, 0)),
       timers := s.timers[id := Timer(deadline, period)], woken := true)
  }

  function StepCaller(s: Wheel, a: Action): Option<Wheel>
    requires !a.Scheduler?
  {
    match a
    case Tick(amount) => Some(s.(clock := s.clock + amount))
    case Insert(deadline, period) => if s.pc.CheckFlag? then None else Some(Inserted(s, deadline, period))
    case RaiseFlag(t) =>
      if t !in s.timers || t in s.flags then None
      else Some(s.(flags := s.flags + {t}, removing := s.removing + {t}))
    case RemoveId(t) =>
      if t !in s.removing || s.pc.CheckFlag? then None
      else Some(s.(removing := s.removing - {t}, queue := Remove(s.queue, t), woken := true))
    case ShutDown => if s.pc.CheckFlag? then None else Some(s.(shutdown := true, closing := true))
    case NotifyShutDown => if s.closing then Some(s.(closing := false, woken := true)) else None
    case Wake => if s.pc.Asleep? then Some(s.(pc := Waiting)) else None
  }

  ghost function Step(s: Wheel, a: Action): Option<Wheel> {
    if a.Scheduler? then StepScheduler(s, a.peek) else StepCaller(s, a)
  }

  function Fresh(now: int): Wheel {
    Wheel(Queue({}, map[], 0, map[], map[], []), map[], {}, {}, false, false, false, Waiting, now, [])
  }

  ghost function RunFrom(s: Wheel, acts: seq<Action>): Option<Wheel> {
    if acts == [] then Some(s)
    else
      var before := RunFrom(s, acts[..|acts| - 1]);
      if before.None? then None else Step(before.value, acts[|acts| - 1])
  }

  ghost predicate Reachable(s: Wheel) {
    exists now, acts :: RunFrom(Fresh(now), acts) == Some(s)
  }

  // --- the queue on its own -----------------------------------------------------------

  /** Ids are handed out once, and a node carries the deadline its id was pushed with. */
  ghost predicate NodesOk(q: Queue) {
    && (forall i :: i in q.due ==> 0 < i <= q.nextId)
    && (forall n :: n in q.heap ==> n.id in q.due && q.due[n.id] == n.deadline)
    && (forall i :: i in q.entries ==> i in q.due && Node(q.due[i], i) in q.heap)
  }

  ghost predicate BornOk(q: Queue) {
    && (forall i :: i in q.due ==> i in q.born)
    && (forall k :: 0 <= k < |q.pops| ==> q.pops[k].id in q.due)
  }

  /** The k-th node popped goes before every node now in the heap that was there by then. */
  ghost predicate PoppedFirst(q: Queue) {
    forall k, n :: 0 <= k < |q.pops| && n in q.heap && n.id in q.born && q.born[n.id] <= k
      ==> Earlier(q.pops[k], n)
  }

  ghost predicate PopsOrdered(q: Queue) {
    forall j, k :: 0 <= j < k < |q.pops| && q.pops[k].id in q.born && q.born[q.pops[k].id] <= j
      ==> Earlier(q.pops[j], q.pops[k])
  }

  ghost predicate QueueOk(q: Queue) {
    NodesOk(q) && BornOk(q) && PoppedFirst(q) && PopsOrdered(q)
  }

  lemma PushKeeps(q: Queue, deadline: int, entry: Entry)
    requires QueueOk(q)
    ensures QueueOk(Push(q, deadline, entry))
  {
    var r := Push(q, deadline, entry);
    assert forall n :: n in r.heap ==> n in q.heap || n == Node(deadline, r.nextId);
    assert forall n :: n in q.heap ==> n.id in q.due;
  }

  lemma PopKeeps(q: Queue, n: Node)
    requires QueueOk(q) && IsPeek(q.heap, Some(n))
    ensures QueueOk(Pop(q, n))
  {
  }

  lemma RemoveKeeps(q: Queue, id: nat)
    requires QueueOk(q)
    ensures QueueOk(Remove(q, id))
  {
  }

  /** A step leaves the queue alone, pushes, pops the earliest node, or drops an entry. */
  ghost predicate QueueMoves(s: Wheel, t: Wheel) {
    || t.queue == s.queue
    || (exists d, e :: t.queue == Push(s.queue, d, e))
    || (exists n :: IsPeek(s.queue.heap, Some(n)) && t.queue == Pop(s.queue, n))
    || (exists id :: t.queue == Remove(s.queue, id))
  }

  lemma StepMovesQueue(s: Wheel, a: Action)
    requires Step(s, a).Some?
    ensures QueueMoves(s, Step(s, a).value)
  {
    hide Push, Pop, Remove, IsPeek;
  }

  lemma QueueKept(s: Wheel, a: Action)
    requires QueueOk(s.queue) && Step(s, a).Some?
    ensures QueueOk(Step(s, a).value.queue)
  {
    var t := Step(s, a).value;
    StepMovesQueue(s, a);
    hide Step, Push, Pop, Remove, QueueOk, IsPeek;
    if d, e :| t.queue == Push(s.queue, d, e) {
      PushKeeps(s.queue, d, e);
    } else if n :| IsPeek(s.queue.heap, Some(n)) && t.queue == Pop(s.queue, n) {
      PopKeeps(s.queue, n);
    } else if id :| t.queue == Remove(s.queue, id) {
      RemoveKeeps(s.queue, id);
    }
  }

  // --- ticks -----------------------------------------------------------------------

  function Point(first: int, period: nat, k: nat): int {
    first + k * period
  }

  /** Where a timer's deadlines may lie: first + k * period for a repeating one. */
  ghost predicate OnGrid(t: Timer, d: int) {
    match t.period
    case None => d == t.first
    case Some(p) => exists k: nat :: d == Point(t.first, p, k)
  }

  lemma GridStart(t: Timer)
    ensures OnGrid(t, t.first)
  {
    if t.period.Some? {
      assert t.first == Point(t.first, t.period.value, 0);
    }
  }

  lemma GridNext(t: Timer, d: int)
    requires t.period.Some? && OnGrid(t, d)
    ensures OnGrid(t, d + t.period.value)
  {
    var p := t.period.value;
    var k: nat :| d == Point(t.first, p, k);
    assert (k + 1) * p == k * p + p;
    assert d + p == Point(t.first, p, k + 1);
  }

  lemma PointsApart(first: int, p: nat, j: nat, k: nat)
    requires k < j
    ensures Point(first, p, k) <= Point(first, p, j) - p
  {
    var gap := j - k - 1;
    assert gap * p >= 0;
    assert j * p == k * p + gap * p + p by {
      assert j == k + gap + 1;
    }
  }

  /** If d - p does not lie after `now`, then d does not lie after any tick later than `now`. */
  lemma GridLeast(t: Timer, d: int, now: int, k: nat)
    requires t.period.Some? && OnGrid(t, d)
    requires d - t.period.value <= now < Point(t.first, t.period.value, k)
    ensures d <= Point(t.first, t.period.value, k)
  {
    var p := t.period.value;
    var j: nat :| d == Point(t.first, p, j);
    hide Point;
    if k < j {
      PointsApart(t.first, p, j, k);
    }
  }

  // --- entries and the scheduler's copy -------------------------------------------------

  ghost predicate TimersOk(s: Wheel) {
    && (forall t :: t in s.timers ==> t in s.queue.due)
    && (forall t :: t in s.flags ==> t in s.timers)
    && (forall t :: t in s.removing ==> t in s.flags)
  }

  ghost predicate Grown(m: map<nat, Timer>, r: map<nat, Timer>) {
    forall t :: t in m ==> t in r && r[t] == m[t]
  }

  ghost predicate EntryOk(timers: map<nat, Timer>, e: Entry) {
    && e.timer in timers && e.period == timers[e.timer].period
    && OnGrid(timers[e.timer], e.anchor)
  }

  /** A pending tick is the anchor itself before the first firing, and one period on afterwards,
      when the entry no longer stands under its timer's id. */
  predicate Scheduled(e: Entry, deadline: int, id: nat) {
    if e.fires == 0 then id == e.timer && deadline == e.anchor
    else id != e.timer && e.period.Some? && deadline == e.anchor + e.period.value
  }

  ghost predicate EntriesOk(q: Queue, timers: map<nat, Timer>) {
    forall i :: i in q.entries ==>
      i in q.due && EntryOk(timers, q.entries[i]) && Scheduled(q.entries[i], q.due[i], i)
  }

  ghost predicate HeldOk(s: Wheel) {
    match s.pc
    case CheckFlag(e, n) => EntryOk(s.timers, e) && Scheduled(e, n.deadline, n.id) && n.deadline <= s.clock
    case StartJob(e, n) => EntryOk(s.timers, e) && Scheduled(e, n.deadline, n.id) && n.deadline <= s.clock
    case RunningJob(e) => EntryOk(s.timers, e) && e.anchor <= s.clock
    case CatchUp(e, d) =>
      && EntryOk(s.timers, e) && e.fires > 0 && e.period.Some? && d - e.period.value <= s.clock
      && OnGrid(s.timers[e.timer], d - e.period.value)
    case Reinsert(e, d, read) =>
      && EntryOk(s.timers, e) && e.fires > 0 && e.period.Some? && d == e.anchor + e.period.value
      && e.anchor <= read < d && read <= s.clock
    case _ => true
  }

  lemma CallerTimersKept(s: Wheel, a: Action)
    requires TimersOk(s) && NodesOk(s.queue) && !a.Scheduler? && StepCaller(s, a).Some?
    ensures TimersOk(StepCaller(s, a).value)
    ensures Grown(s.timers, StepCaller(s, a).value.timers) && s.clock <= StepCaller(s, a).value.clock
  {
  }

  lemma SchedulerTimersKept(s: Wheel, peek: Option<Node>)
    requires TimersOk(s) && StepScheduler(s, peek).Some?
    ensures TimersOk(StepScheduler(s, peek).value)
    ensures StepScheduler(s, peek).value.timers == s.timers && s.clock == StepScheduler(s, peek).value.clock
  {
    hide IsPeek;
  }

  lemma TimersKept(s: Wheel, a: Action)
    requires TimersOk(s) && NodesOk(s.queue) && Step(s, a).Some?
    ensures TimersOk(Step(s, a).value)
    ensures Grown(s.timers, Step(s, a).value.timers) && s.clock <= Step(s, a).value.clock
  {
    hide TimersOk, NodesOk, StepCaller, StepScheduler;
    if a.Scheduler? {
      SchedulerTimersKept(s, a.peek);
    } else {
      CallerTimersKept(s, a);
    }
  }

  lemma PushKeepsEntries(q: Queue, timers: map<nat, Timer>, d: int, e: Entry, later: map<nat, Timer>)
    requires NodesOk(q) && EntriesOk(q, timers) && Grown(timers, later)
    requires EntryOk(later, e) && Scheduled(e, d, q.nextId + 1)
    ensures EntriesOk(Push(q, d, e), later)
  {
    hide Scheduled, OnGrid;
  }

  lemma CallerEntriesKept(s: Wheel, a: Action)
    requires NodesOk(s.queue) && TimersOk(s) && EntriesOk(s.queue, s.timers)
    requires !a.Scheduler? && StepCaller(s, a).Some?
    ensures EntriesOk(StepCaller(s, a).value.queue, StepCaller(s, a).value.timers)
  {
    hide OnGrid;
    if a.Insert? {
      var id := s.queue.nextId + 1;
      GridStart(Timer(a.deadline, a.period));
      PushKeepsEntries(s.queue, s.timers, a.deadline, Entry(id, a.period, a.deadline, 0),
                       s.timers[id := Timer(a.deadline, a.period)]);
    }
  }

  lemma SchedulerEntriesKept(s: Wheel, peek: Option<Node>)
    requires NodesOk(s.queue) && TimersOk(s) && EntriesOk(s.queue, s.timers) && HeldOk(s)
    requires StepScheduler(s, peek).Some?
    ensures EntriesOk(StepScheduler(s, peek).value.queue, s.timers)
  {
    hide OnGrid, IsPeek, Push;
    if s.pc.Reinsert? {
      PushKeepsEntries(s.queue, s.timers, s.pc.deadline, s.pc.entry, s.timers);
    }
  }

  lemma EntriesKept(s: Wheel, a: Action)
    requires NodesOk(s.queue) && TimersOk(s) && EntriesOk(s.queue, s.timers) && HeldOk(s) && Step(s, a).Some?
    ensures EntriesOk(Step(s, a).value.queue, Step(s, a).value.timers)
  {
    if a.Scheduler? {
      hide IsPeek, EntriesOk, HeldOk, NodesOk, TimersOk;
      SchedulerEntriesKept(s, a.peek);
    } else {
      CallerEntriesKept(s, a);
    }
  }

  lemma HeldOutlasts(s: Wheel, t: Wheel)
    requires HeldOk(s) && t.pc == s.pc && Grown(s.timers, t.timers) && s.clock <= t.clock
    ensures HeldOk(t)
  {
    hide Scheduled, OnGrid;
  }

  lemma HeldKept(s: Wheel, a: Action)
    requires TimersOk(s) && NodesOk(s.queue) && EntriesOk(s.queue, s.timers) && HeldOk(s) && Step(s, a).Some?
    ensures HeldOk(Step(s, a).value)
  {
    TimersKept(s, a);
    if !a.Scheduler? {
      CallerHeldKept(s, a);
    } else if s.pc.Waiting? {
      hide OnGrid;
    } else {
      SchedulerHeldKept(s, a.peek);
    }
  }

  lemma CallerHeldKept(s: Wheel, a: Action)
    requires HeldOk(s) && !a.Scheduler? && Step(s, a).Some?
    requires Grown(s.timers, Step(s, a).value.timers) && s.clock <= Step(s, a).value.clock
    ensures HeldOk(Step(s, a).value)
  {
    var t := Step(s, a).value;
    assert t.pc == s.pc || t.pc == Waiting;
    if t.pc == s.pc {
      hide Step, HeldOk;
      HeldOutlasts(s, t);
    }
  }

  lemma SchedulerHeldKept(s: Wheel, peek: Option<Node>)
    requires HeldOk(s) && !s.pc.Waiting? && StepScheduler(s, peek).Some?
    ensures HeldOk(StepScheduler(s, peek).value)
  {
    hide OnGrid, Push;
    match s.pc
    case RunningJob(e) =>
    case CatchUp(e, d) => GridNext(s.timers[e.timer], d - e.period.value);
    case _ =>
  }

  // --- one copy of each timer -------------------------------------------------------------

  function Held(pc: Pc): Option<Entry> {
    match pc
    case CheckFlag(e, _) => Some(e)
    case StartJob(e, _) => Some(e)
    case RunningJob(e) => Some(e)
    case CatchUp(e, _) => Some(e)
    case Reinsert(e, _, _) => Some(e)
    case _ => None
  }

  ghost predicate Distinct(entries: map<nat, Entry>) {
    forall i, j :: i in entries && j in entries && i != j ==> entries[i].timer != entries[j].timer
  }

  ghost predicate NotAmong(e: Entry, entries: map<nat, Entry>) {
    forall i :: i in entries ==> entries[i].timer != e.timer
  }

  /** A timer has one live copy at most, in the map or in the scheduler's hands. */
  ghost predicate SoleCopy(s: Wheel) {
    Distinct(s.queue.entries) && (Held(s.pc).Some? ==> NotAmong(Held(s.pc).value, s.queue.entries))
  }

  lemma PushKeepsDistinct(q: Queue, d: int, e: Entry)
    requires Distinct(q.entries) && NotAmong(e, q.entries)
    ensures Distinct(Push(q, d, e).entries)
    ensures forall h: Entry :: NotAmong(h, q.entries) && h.timer != e.timer ==> NotAmong(h, Push(q, d, e).entries)
  {
  }

  lemma CallerSoleCopyKept(s: Wheel, a: Action)
    requires NodesOk(s.queue) && TimersOk(s) && EntriesOk(s.queue, s.timers) && HeldOk(s)
    requires SoleCopy(s) && !a.Scheduler? && StepCaller(s, a).Some?
    ensures SoleCopy(StepCaller(s, a).value)
  {
    hide OnGrid, Scheduled;
    if a.Insert? {
      var e := Entry(s.queue.nextId + 1, a.period, a.deadline, 0);
      assert NotAmong(e, s.queue.entries);
      PushKeepsDistinct(s.queue, a.deadline, e);
      hide Push, Distinct, NotAmong;
    } else if a.RemoveId? {
      assert Distinct(Remove(s.queue, a.timer).entries);
    }
  }

  lemma SchedulerSoleCopyKept(s: Wheel, peek: Option<Node>)
    requires SoleCopy(s) && StepScheduler(s, peek).Some?
    ensures SoleCopy(StepScheduler(s, peek).value)
  {
    if s.pc.Waiting? {
      hide IsPeek;
    } else if s.pc.Reinsert? {
      PushKeepsDistinct(s.queue, s.pc.deadline, s.pc.entry);
    } else {
      hide Distinct, NotAmong;
      var t := StepScheduler(s, peek).value;
      if Held(t.pc).Some? {
        SameTimerNotAmong(Held(s.pc).value, Held(t.pc).value, s.queue.entries);
      }
    }
  }

  lemma SameTimerNotAmong(e: Entry, f: Entry, entries: map<nat, Entry>)
    requires e.timer == f.timer && NotAmong(e, entries)
    ensures NotAmong(f, entries)
  {
  }

  lemma SoleCopyKept(s: Wheel, a: Action)
    requires NodesOk(s.queue) && TimersOk(s) && EntriesOk(s.queue, s.timers) && HeldOk(s)
    requires SoleCopy(s) && Step(s, a).Some?
    ensures SoleCopy(Step(s, a).value)
  {
    hide NodesOk, TimersOk, EntriesOk, HeldOk, SoleCopy, StepCaller, StepScheduler;
    if a.Scheduler? {
      SchedulerSoleCopyKept(s, a.peek);
    } else {
      CallerSoleCopyKept(s, a);
    }
  }

  // --- starts ---------------------------------------------------------------------------

  ghost predicate StartOk(timers: map<nat, Timer>, clock: int, b: Start) {
    b.timer in timers && OnGrid(timers[b.timer], b.deadline) && b.deadline <= b.at <= clock
  }

  ghost predicate StartsOk(s: Wheel) {
    forall k :: 0 <= k < |s.starts| ==> StartOk(s.timers, s.clock, s.starts[k])
  }

  /** A step records at most one start, of the job the scheduler was about to start. */
  lemma StepStarts(s: Wheel, a: Action)
    requires Step(s, a).Some?
    ensures Step(s, a).value.starts ==
            s.starts + if a.Scheduler? && s.pc.StartJob?
                       then [Start(s.pc.entry.timer, s.pc.node.deadline, s.clock)] else []
  {
    hide IsPeek;
  }

  lemma TickOnGrid(timers: map<nat, Timer>, e: Entry, deadline: int, id: nat)
    requires EntryOk(timers, e) && Scheduled(e, deadline, id)
    ensures OnGrid(timers[e.timer], deadline)
  {
    if e.fires > 0 {
      GridNext(timers[e.timer], e.anchor);
    }
  }

  lemma StartsKept(s: Wheel, a: Action)
    requires TimersOk(s) && NodesOk(s.queue) && HeldOk(s) && StartsOk(s) && Step(s, a).Some?
    ensures StartsOk(Step(s, a).value)
  {
    StepStarts(s, a);
    TimersKept(s, a);
    hide Step, OnGrid, Scheduled;
    if s.pc.StartJob? {
      TickOnGrid(s.timers, s.pc.entry, s.pc.node.deadline, s.pc.node.id);
    }
  }

  /** Having started at b, its timer may start again only if it repeats, and only for a tick that
      came after b had begun. */
  predicate Later(b: Start, e: Entry, deadline: int) {
    b.timer == e.timer ==> e.period.Some? && deadline > b.at
  }

  ghost predicate EntriesLater(q: Queue, b: Start) {
    forall i :: i in q.entries && i in q.due ==> Later(b, q.entries[i], q.due[i])
  }

  predicate HeldLater(pc: Pc, b: Start) {
    match pc
    case CheckFlag(e, n) => Later(b, e, n.deadline)
    case StartJob(e, n) => Later(b, e, n.deadline)
    case CatchUp(e, _) => b.timer == e.timer ==> e.period.Some?
    case Reinsert(e, d, _) => Later(b, e, d)
    case _ => true
  }

  ghost predicate PendingLater(s: Wheel, b: Start) {
    EntriesLater(s.queue, b) && HeldLater(s.pc, b)
  }

  ghost predicate AllPendingLater(s: Wheel) {
    forall k :: 0 <= k < |s.starts| ==> PendingLater(s, s.starts[k])
  }

  lemma CallerPendingLaterKept(s: Wheel, a: Action, b: Start)
    requires NodesOk(s.queue) && TimersOk(s) && StartOk(s.timers, s.clock, b)
    requires PendingLater(s, b) && !a.Scheduler? && StepCaller(s, a).Some?
    ensures PendingLater(StepCaller(s, a).value, b)
  {
    hide OnGrid, Later;
    if a.Insert? {
      var id := s.queue.nextId + 1;
      NotLater(b, Entry(id, a.period, a.deadline, 0), a.deadline);
    }
  }

  /** A start says nothing about other timers. */
  lemma NotLater(b: Start, e: Entry, deadline: int)
    ensures b.timer != e.timer ==> Later(b, e, deadline)
  {
  }

  lemma SchedulerPendingLaterKept(s: Wheel, peek: Option<Node>, b: Start)
    requires NodesOk(s.queue) && StartOk(s.timers, s.clock, b)
    requires PendingLater(s, b) && StepScheduler(s, peek).Some?
    ensures PendingLater(StepScheduler(s, peek).value, b)
  {
    hide OnGrid;
  }

  lemma PendingLaterKept(s: Wheel, a: Action, b: Start)
    requires NodesOk(s.queue) && TimersOk(s)
    requires StartOk(s.timers, s.clock, b) && PendingLater(s, b) && Step(s, a).Some?
    ensures PendingLater(Step(s, a).value, b)
  {
    hide NodesOk, TimersOk, StartOk, PendingLater, StepCaller, StepScheduler;
    if a.Scheduler? {
      SchedulerPendingLaterKept(s, a.peek, b);
    } else {
      CallerPendingLaterKept(s, a, b);
    }
  }

  /** A job that starts leaves no pending tick of its timer behind. */
  lemma FreshStartIsLast(s: Wheel)
    requires SoleCopy(s) && s.pc.StartJob?
    ensures PendingLater(StepScheduler(s, None).value, Start(s.pc.entry.timer, s.pc.node.deadline, s.clock))
  {
  }

  lemma AllPendingLaterKept(s: Wheel, a: Action)
    requires NodesOk(s.queue) && EntriesOk(s.queue, s.timers) && TimersOk(s) && HeldOk(s) && SoleCopy(s)
    requires StartsOk(s) && AllPendingLater(s) && Step(s, a).Some?
    ensures AllPendingLater(Step(s, a).value)
  {
    var t := Step(s, a).value;
    StepStarts(s, a);
    if a.Scheduler? && s.pc.StartJob? {
      FreshStartIsLast(s);
    }
    hide PendingLater, StartOk, NodesOk, EntriesOk, TimersOk, HeldOk, SoleCopy;
    forall k | 0 <= k < |t.starts| ensures PendingLater(t, t.starts[k]) {
      if k < |s.starts| {
        PendingLaterKept(s, a, s.starts[k]);
      }
    }
  }

  ghost predicate Spaced(timers: map<nat, Timer>, b: Start, c: Start) {
    b.timer == c.timer ==> b.timer in timers && timers[b.timer].period.Some? && b.at < c.deadline
  }

  ghost predicate StartsSpaced(s: Wheel) {
    forall j, k :: 0 <= j < k < |s.starts| ==> Spaced(s.timers, s.starts[j], s.starts[k])
  }

  lemma StartsSpacedKept(s: Wheel, a: Action)
    requires TimersOk(s) && NodesOk(s.queue) && HeldOk(s) && AllPendingLater(s) && StartsSpaced(s) && Step(s, a).Some?
    ensures StartsSpaced(Step(s, a).value)
  {
    var t := Step(s, a).value;
    StepStarts(s, a);
    TimersKept(s, a);
    hide Step, OnGrid, Scheduled, EntriesLater;
    forall j, k | 0 <= j < k < |t.starts| ensures Spaced(t.timers, t.starts[j], t.starts[k]) {
      assert t.starts[j] == s.starts[j];
      if k < |s.starts| {
        assert Spaced(s.timers, s.starts[j], s.starts[k]);
      } else {
        assert PendingLater(s, s.starts[j]);
      }
    }
  }

  // --- sleep ------------------------------------------------------------------------------

  /** A sleeping scheduler nobody has notified sleeps no longer than the earliest deadline, and
      shutdown is not waiting for it. */
  ghost predicate SleepOk(s: Wheel) {
    s.pc.Asleep? && !s.woken ==>
      && (s.shutdown ==> s.closing)
      && (s.pc.until.None? ==> s.queue.heap == {})
      && (s.pc.until.Some? ==> forall n :: n in s.queue.heap ==> s.pc.until.value <= n.deadline)
  }

  lemma SleepKept(s: Wheel, a: Action)
    requires SleepOk(s) && Step(s, a).Some?
    ensures SleepOk(Step(s, a).value)
  {
  }

  // --- every run --------------------------------------------------------------------------

  ghost predicate Inv(s: Wheel) {
    && QueueOk(s.queue) && TimersOk(s) && EntriesOk(s.queue, s.timers) && HeldOk(s) && SoleCopy(s)
    && StartsOk(s) && AllPendingLater(s) && StartsSpaced(s) && SleepOk(s)
  }

  lemma InvKept(s: Wheel, a: Action)
    requires Inv(s) && Step(s, a).Some?
    ensures Inv(Step(s, a).value)
  {
    hide Step, NodesOk, BornOk, PoppedFirst, PopsOrdered, TimersOk, EntriesOk, HeldOk, SoleCopy, StartsOk,
         AllPendingLater, StartsSpaced, SleepOk;
    assert NodesOk(s.queue);
    QueueKept(s, a);
    TimersKept(s, a);
    EntriesKept(s, a);
    HeldKept(s, a);
    SoleCopyKept(s, a);
    StartsKept(s, a);
    AllPendingLaterKept(s, a);
    StartsSpacedKept(s, a);
    SleepKept(s, a);
  }

  /** Every interleaving of callers, clock and scheduler keeps all of it. */
  lemma {:induction false} RunInv(s: Wheel, acts: seq<Action>)
    requires Inv(s) && RunFrom(s, acts).Some?
    ensures Inv(RunFrom(s, acts).value)
  {
    if acts != [] {
      var before := acts[..|acts| - 1];
      RunInv(s, before);
      InvKept(RunFrom(s, before).value, acts[|acts| - 1]);
    }
  }

  lemma ReachableInv(s: Wheel)
    requires Reachable(s)
    ensures Inv(s)
  {
    var now, acts :| RunFrom(Fresh(now), acts) == Some(s);
    RunInv(Fresh(now), acts);
  }

  // --- what the timer promises ---------------------------------------------------------------

  /** Every live entry stands under one id with one node in the heap, and the scheduler holds at
      most one more copy of a timer: no timer has two. */
  lemma OneNodePerEntry(s: Wheel, id: nat)
    requires Reachable(s) && id in s.queue.entries
    ensures exists n :: n in s.queue.heap && n.id == id
    ensures forall n, m :: n in s.queue.heap && m in s.queue.heap && n.id == id && m.id == id ==> n == m
    ensures forall other :: other in s.queue.entries && other != id
              ==> s.queue.entries[other].timer != s.queue.entries[id].timer
    ensures Held(s.pc).Some? ==> Held(s.pc).value.timer != s.queue.entries[id].timer
  {
    ReachableInv(s);
    assert Node(s.queue.due[id], id) in s.queue.heap;
  }

  /** Of two nodes popped, the one that was in the heap when the other was taken comes later in
      (deadline, id) order. */
  lemma PoppedInOrder(s: Wheel, j: nat, k: nat)
    requires Reachable(s) && j < k < |s.queue.pops|
    ensures s.queue.pops[k].id in s.queue.born
    ensures s.queue.born[s.queue.pops[k].id] <= j ==>
      var a, b := s.queue.pops[j], s.queue.pops[k];
      a.deadline < b.deadline || (a.deadline == b.deadline && a.id <= b.id)
  {
    ReachableInv(s);
    hide Inv, EntriesOk, HeldOk, SoleCopy, StartsOk, AllPendingLater, StartsSpaced, SleepOk, TimersOk;
    assert QueueOk(s.queue) by {
      assert Inv(s);
    }
  }

  /** No job starts before its deadline, and every deadline served is a tick of its timer: the
      first deadline plus a whole number of periods, however late earlier jobs ran. */
  lemma StartsOnTheGridAndNotEarly(s: Wheel, k: nat)
    requires Reachable(s) && k < |s.starts|
    ensures s.starts[k].timer in s.timers
    ensures s.starts[k].deadline <= s.starts[k].at
    ensures OnGrid(s.timers[s.starts[k].timer], s.starts[k].deadline)
  {
    ReachableInv(s);
    assert StartOk(s.timers, s.clock, s.starts[k]);
  }

  /** Two starts of one timer: it repeats, and the later one serves a tick that fell after the
      earlier one had begun. Missed ticks are dropped, never fired in a burst, and a one-shot
      starts once at most. */
  lemma StartsOfOneTimer(s: Wheel, j: nat, k: nat)
    requires Reachable(s) && j < k < |s.starts| && s.starts[j].timer == s.starts[k].timer
    ensures s.starts[j].timer in s.timers && s.timers[s.starts[j].timer].period.Some?
    ensures s.starts[j].deadline <= s.starts[j].at < s.starts[k].deadline <= s.starts[k].at
  {
    ReachableInv(s);
    assert StartOk(s.timers, s.clock, s.starts[j]) && StartOk(s.timers, s.clock, s.starts[k]);
    assert Spaced(s.timers, s.starts[j], s.starts[k]);
  }

  /** The tick a repeating timer is rescheduled for is the first one after the clock value its
      catch-up loop read last. */
  lemma RescheduledToNextTick(s: Wheel, k: nat)
    requires Reachable(s) && s.pc.Reinsert?
    ensures s.pc.entry.timer in s.timers && s.timers[s.pc.entry.timer].period.Some?
    ensures s.pc.read < s.pc.deadline && OnGrid(s.timers[s.pc.entry.timer], s.pc.deadline)
    ensures var t := s.timers[s.pc.entry.timer];
      Point(t.first, t.period.value, k) > s.pc.read ==> s.pc.deadline <= Point(t.first, t.period.value, k)
  {
    ReachableInv(s);
    var t := s.timers[s.pc.entry.timer];
    GridNext(t, s.pc.entry.anchor);
    hide Point, OnGrid;
    if Point(t.first, t.period.value, k) > s.pc.read {
      GridLeast(t, s.pc.deadline, s.pc.read, k);
    }
  }

  /** The scheduler never sleeps past a deadline or a shutdown it has not been notified of. */
  lemma NeverOversleeps(s: Wheel, n: Node)
    requires Reachable(s) && s.pc.Asleep? && !s.woken
    ensures s.shutdown ==> s.closing
    ensures n in s.queue.heap ==> s.pc.until.Some? && s.pc.until.value <= n.deadline
  {
    ReachableInv(s);
  }

  lemma {:induction false} PeekExists(heap: set<Node>) returns (peek: Option<Node>)
    ensures IsPeek(heap, peek)
  {
    if heap == {} {
      peek := None;
    } else {
      var n :| n in heap;
      var rest := PeekExists(heap - {n});
      peek := if rest.None? || Earlier(n, rest.value) then Some(n) else rest;
      assert forall m :: m in heap ==> m == n || m in heap - {n};
    }
  }

  /** The scheduler can always take its next step, except while it sleeps or after it has left. */
  lemma SchedulerNeverStuck(s: Wheel)
    requires Reachable(s) && !s.pc.Asleep? && !s.pc.Stopped?
    ensures exists peek :: StepScheduler(s, peek).Some?
  {
    ReachableInv(s);
    var peek := PeekExists(s.queue.heap);
    assert StepScheduler(s, peek).Some?;
  }

  // --- no timer is lost -------------------------------------------------------------------------

  /** An entry that stands under a timer's id is that timer's. */
  ghost predicate OwnIds(s: Wheel) {
    forall i :: i in s.queue.entries && i in s.timers ==> s.queue.entries[i].timer == i
  }

  ghost predicate Started(s: Wheel, t: nat) {
    exists k :: 0 <= k < |s.starts| && s.starts[k].timer == t
  }

  /** Nobody has cancelled t, and it repeats or has not started yet. */
  ghost predicate Owed(s: Wheel, t: nat) {
    t in s.timers && t !in s.flags && (s.timers[t].period.Some? || !Started(s, t))
  }

  ghost predicate Present(s: Wheel, t: nat) {
    || (exists i :: i in s.queue.entries && s.queue.entries[i].timer == t)
    || (Held(s.pc).Some? && Held(s.pc).value.timer == t)
  }

  ghost predicate JobHasStarted(s: Wheel) {
    s.pc.RunningJob? ==> Started(s, s.pc.entry.timer)
  }

  lemma OwnIdsKept(s: Wheel, a: Action)
    requires NodesOk(s.queue) && TimersOk(s) && OwnIds(s) && Step(s, a).Some?
    ensures OwnIds(Step(s, a).value)
  {
    hide IsPeek;
  }

  lemma JobHasStartedKept(s: Wheel, a: Action)
    requires JobHasStarted(s) && Step(s, a).Some?
    ensures JobHasStarted(Step(s, a).value)
  {
    StepStarts(s, a);
    var r := Step(s, a).value;
    if r.pc.RunningJob? {
      StillRunning(s, a);
      hide Step;
      if a.Scheduler? {
        assert r.starts[|r.starts| - 1].timer == r.pc.entry.timer;
      } else {
        var k :| 0 <= k < |s.starts| && s.starts[k].timer == s.pc.entry.timer;
        assert r.starts[k] == s.starts[k];
      }
    }
  }

  lemma StillRunning(s: Wheel, a: Action)
    requires Step(s, a).Some? && Step(s, a).value.pc.RunningJob?
    ensures if a.Scheduler? then s.pc.StartJob? && Step(s, a).value.pc.entry == s.pc.entry
            else Step(s, a).value.pc == s.pc
  {
    hide IsPeek, Push, Pop;
  }

  lemma StartedStays(s: Wheel, a: Action, t: nat)
    requires Step(s, a).Some? && Started(s, t)
    ensures Started(Step(s, a).value, t)
  {
    StepStarts(s, a);
    hide Step;
    var k :| 0 <= k < |s.starts| && s.starts[k].timer == t;
    assert Step(s, a).value.starts[k] == s.starts[k];
  }

  lemma CallerLosesNone(s: Wheel, a: Action, t: nat)
    requires NodesOk(s.queue) && TimersOk(s) && OwnIds(s) && !a.Scheduler? && StepCaller(s, a).Some?
    requires t in s.timers && t !in StepCaller(s, a).value.flags && Present(s, t)
    ensures Present(StepCaller(s, a).value, t)
  {
    var r := StepCaller(s, a).value;
    if i :| i in s.queue.entries && s.queue.entries[i].timer == t {
      assert i in r.queue.entries && r.queue.entries[i].timer == t;
    } else {
      assert r.pc == s.pc;
    }
  }

  lemma InsertedIsPresent(s: Wheel, deadline: int, period: Option<nat>)
    ensures Present(Inserted(s, deadline, period), s.queue.nextId + 1)
  {
    var id := s.queue.nextId + 1;
    assert id in Inserted(s, deadline, period).queue.entries;
  }

  lemma HeldIsNotLost(s: Wheel, peek: Option<Node>, t: nat)
    requires StepScheduler(s, peek).Some? && Held(s.pc).Some? && Held(s.pc).value.timer == t && t !in s.flags
    requires s.pc.RunningJob? ==> s.pc.entry.period.Some?
    ensures Present(StepScheduler(s, peek).value, t)
  {
    hide IsPeek;
    if s.pc.Reinsert? {
      assert s.queue.nextId + 1 in StepScheduler(s, peek).value.queue.entries;
    }
  }

  lemma EntryIsNotLost(s: Wheel, peek: Option<Node>, i: nat)
    requires NodesOk(s.queue) && StepScheduler(s, peek).Some? && i in s.queue.entries
    ensures Present(StepScheduler(s, peek).value, s.queue.entries[i].timer)
  {
    hide IsPeek;
    var r := StepScheduler(s, peek).value;
    assert i in r.queue.entries ==> r.queue.entries[i] == s.queue.entries[i];
  }

  lemma SchedulerLosesNone(s: Wheel, peek: Option<Node>, t: nat)
    requires NodesOk(s.queue) && StepScheduler(s, peek).Some? && Present(s, t) && t !in s.flags
    requires s.pc.RunningJob? && s.pc.entry.timer == t ==> s.pc.entry.period.Some?
    ensures Present(StepScheduler(s, peek).value, t)
  {
    hide StepScheduler;
    if Held(s.pc).Some? && Held(s.pc).value.timer == t {
      HeldIsNotLost(s, peek, t);
    } else {
      var i :| i in s.queue.entries && s.queue.entries[i].timer == t;
      EntryIsNotLost(s, peek, i);
    }
  }

  lemma OwedStaysPresent(s: Wheel, a: Action, t: nat)
    requires NodesOk(s.queue) && TimersOk(s) && HeldOk(s) && OwnIds(s) && JobHasStarted(s)
    requires Owed(s, t) ==> Present(s, t)
    requires Step(s, a).Some? && Owed(Step(s, a).value, t)
    ensures Present(Step(s, a).value, t)
  {
    var r := Step(s, a).value;
    hide OnGrid, Scheduled, Present, IsPeek;
    if a.Insert? && t == s.queue.nextId + 1 {
      InsertedIsPresent(s, a.deadline, a.period);
    } else {
      OwedBefore(s, a, t);
      if a.Scheduler? {
        assert s.pc.RunningJob? && s.pc.entry.timer == t ==> s.pc.entry.period.Some?;
        SchedulerLosesNone(s, a.peek, t);
      } else {
        CallerLosesNone(s, a, t);
      }
    }
  }

  lemma OwedBefore(s: Wheel, a: Action, t: nat)
    requires TimersOk(s) && Step(s, a).Some? && Owed(Step(s, a).value, t)
    requires !(a.Insert? && t == s.queue.nextId + 1)
    ensures Owed(s, t)
  {
    TimersAndFlags(s, a, t);
    if Started(s, t) {
      StartedStays(s, a, t);
    }
    hide Step;
  }

  lemma TimersAndFlags(s: Wheel, a: Action, t: nat)
    requires Step(s, a).Some? && !(a.Insert? && t == s.queue.nextId + 1)
    ensures t in Step(s, a).value.timers ==> t in s.timers && s.timers[t] == Step(s, a).value.timers[t]
    ensures t in s.flags ==> t in Step(s, a).value.flags
  {
    hide IsPeek, Push, Pop;
  }

  ghost predicate NoneLost(s: Wheel) {
    OwnIds(s) && JobHasStarted(s) && forall t :: Owed(s, t) ==> Present(s, t)
  }

  lemma {:induction false} RunLosesNone(s: Wheel, acts: seq<Action>)
    requires Inv(s) && NoneLost(s) && RunFrom(s, acts).Some?
    ensures NoneLost(RunFrom(s, acts).value)
  {
    if acts != [] {
      var before, a := acts[..|acts| - 1], acts[|acts| - 1];
      RunLosesNone(s, before);
      RunInv(s, before);
      var r := RunFrom(s, before).value;
      assert NodesOk(r.queue) && TimersOk(r) && HeldOk(r);
      hide Inv, Step, OwnIds, JobHasStarted, Owed, Present, NodesOk, TimersOk, HeldOk;
      OwnIdsKept(r, a);
      JobHasStartedKept(r, a);
      forall t | Owed(Step(r, a).value, t) ensures Present(Step(r, a).value, t) {
        OwedStaysPresent(r, a, t);
      }
    }
  }

  /** No timer is lost. One handle's `cancel` never removes another timer's entry; and a timer nobody
      has cancelled, that repeats or has not started yet, always has its entry in the map or in the
      scheduler's hands. */
  lemma NoTimerIsLost(s: Wheel, t: nat)
    requires Reachable(s)
    ensures t in s.queue.entries && t in s.timers ==> s.queue.entries[t].timer == t
    ensures t in s.timers && t !in s.flags && (s.timers[t].period.Some? || !Started(s, t)) ==> Present(s, t)
  {
    var now, acts :| RunFrom(Fresh(now), acts) == Some(s);
    assert Inv(Fresh(now)) && NoneLost(Fresh(now));
    RunLosesNone(Fresh(now), acts);
    hide Inv, Present, JobHasStarted;
    assert Owed(s, t) ==> Present(s, t);
  }

  // --- cancellation ----------------------------------------------------------------------------

  /** The flag of timer t is up and the scheduler is not past checking it. */
  predicate Silenced(s: Wheel, t: nat) {
    t in s.flags && !(s.pc.StartJob? && s.pc.entry.timer == t)
  }

  predicate NoneSince(before: seq<Start>, after: seq<Start>, t: nat) {
    && |before| <= |after|
    && forall k :: |before| <= k < |after| ==> after[k].timer != t
  }

  lemma SilencedStep(s: Wheel, a: Action, t: nat)
    requires Silenced(s, t) && Step(s, a).Some?
    ensures Silenced(Step(s, a).value, t)
    ensures NoneSince(s.starts, Step(s, a).value.starts, t)
  {
    hide IsPeek;
  }

  /** Once the flag is up and the scheduler is not already past its check, no run, however long and
      whatever the timer has been re-keyed to, starts that timer again. */
  lemma {:induction false} NoStartAfterCancel(s: Wheel, acts: seq<Action>, t: nat)
    requires Silenced(s, t) && RunFrom(s, acts).Some?
    ensures Silenced(RunFrom(s, acts).value, t)
    ensures NoneSince(s.starts, RunFrom(s, acts).value.starts, t)
  {
    if acts != [] {
      var before := acts[..|acts| - 1];
      hide Step, Silenced;
      NoStartAfterCancel(s, before, t);
      SilencedStep(RunFrom(s, before).value, acts[|acts| - 1], t);
    }
  }

  ghost predicate Lingers(q: Queue, t: nat) {
    exists i :: i in q.entries && q.entries[i].timer == t
  }

  /** An entry waiting in the map is freed by its handle exactly when it has not fired yet: after a
      firing it stands under another id. */
  lemma RemovalIsPromptBeforeFiring(s: Wheel, id: nat)
    requires Reachable(s) && id in s.queue.entries
    ensures var t := s.queue.entries[id].timer;
      Lingers(Remove(s.queue, t), t) <==> s.queue.entries[id].fires > 0
  {
    ReachableInv(s);
    var e := s.queue.entries[id];
    assert Scheduled(e, s.queue.due[id], id);
    var r := Remove(s.queue, e.timer);
    if e.fires > 0 {
      assert id in r.entries && r.entries[id].timer == e.timer;
    }
  }

  // When the entry is not in the map, the scheduler may be holding it, and brings it back.

  /** The scheduler holds a copy of timer t that its period will put back into the map. */
  predicate Renews(pc: Pc, t: nat) {
    && Held(pc).Some? && Held(pc).value.timer == t
    && Held(pc).value.period.Some? && Held(pc).value.period.value > 0
  }

  /** An entry of t is out of reach of its handle: under another id, or in the scheduler's hands. */
  ghost predicate Escapes(s: Wheel, t: nat) {
    || (exists id :: id in s.queue.entries && id != t && s.queue.entries[id].timer == t)
    || Renews(s.pc, t)
  }

  /** Some continuation from s has an entry of t in the map. */
  ghost predicate MayLinger(s: Wheel, t: nat) {
    exists acts :: RunFrom(s, acts).Some? && Lingers(RunFrom(s, acts).value.queue, t)
  }

  ghost predicate Gone(s: Wheel, t: nat) {
    t in s.timers && !Lingers(s.queue, t) && !Renews(s.pc, t)
  }

  lemma CallerKeepsGone(s: Wheel, a: Action, t: nat)
    requires NodesOk(s.queue) && TimersOk(s) && Gone(s, t) && !a.Scheduler? && StepCaller(s, a).Some?
    ensures Gone(StepCaller(s, a).value, t)
  {
    var r := StepCaller(s, a).value;
    assert r.pc == s.pc || r.pc == Waiting;
    forall i | i in r.queue.entries ensures r.queue.entries[i].timer != t {
      assert i in s.queue.entries || i == s.queue.nextId + 1;
    }
  }

  lemma SchedulerKeepsGone(s: Wheel, peek: Option<Node>, t: nat)
    requires HeldOk(s) && Gone(s, t) && StepScheduler(s, peek).Some?
    ensures Gone(StepScheduler(s, peek).value, t)
  {
    hide OnGrid, IsPeek, Scheduled;
    var r := StepScheduler(s, peek).value;
    if s.pc.Reinsert? {
      assert s.pc.entry.timer != t;
    }
    forall i | i in r.queue.entries ensures r.queue.entries[i].timer != t {
      if i in s.queue.entries && r.queue.entries[i] == s.queue.entries[i] {
        assert s.queue.entries[i].timer != t;
      }
    }
  }

  /** No copy stays no copy. */
  lemma {:induction false} GoneStaysGone(s: Wheel, acts: seq<Action>, t: nat)
    requires Inv(s) && Gone(s, t) && RunFrom(s, acts).Some?
    ensures Gone(RunFrom(s, acts).value, t)
  {
    if acts != [] {
      var before, a := acts[..|acts| - 1], acts[|acts| - 1];
      GoneStaysGone(s, before, t);
      RunInv(s, before);
      var r := RunFrom(s, before).value;
      assert NodesOk(r.queue) && TimersOk(r) && HeldOk(r);
      hide Inv, Gone, NodesOk, TimersOk, HeldOk, StepCaller, StepScheduler;
      if a.Scheduler? {
        SchedulerKeepsGone(r, a.peek, t);
      } else {
        CallerKeepsGone(r, a, t);
      }
    }
  }

  lemma {:induction false} RunFromNext(s: Wheel, a: Action, acts: seq<Action>)
    requires Step(s, a).Some?
    ensures RunFrom(s, [a] + acts) == RunFrom(Step(s, a).value, acts)
  {
    hide Step;
    var all := [a] + acts;
    if acts == [] {
      assert all[..|all| - 1] == [];
      assert RunFrom(s, []) == Some(s);
    } else {
      RunFromNext(s, a, acts[..|acts| - 1]);
      assert all[..|all| - 1] == [a] + acts[..|acts| - 1];
    }
  }

  lemma LingersLater(s: Wheel, a: Action, t: nat)
    requires Step(s, a).Some? && MayLinger(Step(s, a).value, t)
    ensures MayLinger(s, t)
  {
    hide Step, Lingers;
    var r := Step(s, a).value;
    var acts :| RunFrom(r, acts).Some? && Lingers(RunFrom(r, acts).value.queue, t);
    RunFromNext(s, a, acts);
  }

  lemma LingersNow(s: Wheel, t: nat)
    requires Lingers(s.queue, t)
    ensures MayLinger(s, t)
  {
    assert RunFrom(s, []) == Some(s);
  }

  lemma ReinsertedLingers(s: Wheel, t: nat)
    requires s.pc.Reinsert? && s.pc.entry.timer == t
    ensures MayLinger(s, t)
  {
    var r := Step(s, Scheduler(None)).value;
    assert s.queue.nextId + 1 in r.queue.entries && r.queue.entries[s.queue.nextId + 1].timer == t;
    LingersNow(r, t);
    LingersLater(s, Scheduler(None), t);
  }

  /** One catch-up, with the clock standing still. */
  lemma {:induction false} CaughtUpLingers(s: Wheel, t: nat)
    requires s.pc.CatchUp? && Renews(s.pc, t)
    ensures MayLinger(s, t)
    decreases if s.pc.deadline <= s.clock then s.clock - s.pc.deadline + 1 else 0
  {
    var r := Step(s, Scheduler(None)).value;
    hide RunFrom, MayLinger;
    if s.pc.deadline <= s.clock {
      CaughtUpLingers(r, t);
    } else {
      ReinsertedLingers(r, t);
    }
    LingersLater(s, Scheduler(None), t);
  }

  lemma HeldLingers(s: Wheel, t: nat)
    requires Renews(s.pc, t) && !s.pc.CheckFlag?
    ensures MayLinger(s, t)
    decreases s.pc.StartJob?
  {
    hide RunFrom, MayLinger;
    var r := Step(s, Scheduler(None)).value;
    match s.pc
    case StartJob(_, _) =>
      HeldLingers(r, t);
      LingersLater(s, Scheduler(None), t);
    case RunningJob(_) =>
      CaughtUpLingers(r, t);
      LingersLater(s, Scheduler(None), t);
    case CatchUp(_, _) => CaughtUpLingers(s, t);
    case Reinsert(_, _, _) => ReinsertedLingers(s, t);
    case _ =>
  }

  lemma EscapedLingers(s: Wheel, t: nat)
    requires Step(s, RemoveId(t)).Some? && Escapes(s, t)
    ensures MayLinger(Step(s, RemoveId(t)).value, t)
  {
    var r := Step(s, RemoveId(t)).value;
    hide RunFrom, MayLinger;
    if id :| id in s.queue.entries && id != t && s.queue.entries[id].timer == t {
      assert id in r.queue.entries && r.queue.entries[id].timer == t;
      LingersNow(r, t);
    } else {
      HeldLingers(r, t);
    }
  }

  /** When `cancel` removes its id, the timer is gone from the map, now and for good, exactly if no
      entry of it stands under another id and the scheduler holds none that repeats. Otherwise some
      continuation finds an entry of the cancelled timer in the map. */
  lemma RemovalFreesIff(s: Wheel, t: nat)
    requires Reachable(s) && Step(s, RemoveId(t)).Some?
    ensures MayLinger(Step(s, RemoveId(t)).value, t) <==> Escapes(s, t)
  {
    var r := Step(s, RemoveId(t)).value;
    ReachableInv(s);
    InvKept(s, RemoveId(t));
    if Escapes(s, t) {
      EscapedLingers(s, t);
    } else {
      assert Gone(r, t) by {
        assert t in s.flags;
      }
      hide Inv, Gone, Step, RunFrom;
      if MayLinger(r, t) {
        var acts :| RunFrom(r, acts).Some? && Lingers(RunFrom(r, acts).value.queue, t);
        GoneStaysGone(r, acts, t);
        GoneMeansNone(RunFrom(r, acts).value, t);
      }
    }
  }

  lemma GoneMeansNone(s: Wheel, t: nat)
    ensures Gone(s, t) ==> !Lingers(s.queue, t)
  {
  }

  // --- runs that show it -------------------------------------------------------------------------

  lemma RunNone(s: Wheel)
    ensures RunFrom(s, []) == Some(s)
  {
  }

  lemma RunStep(s: Wheel, acts: seq<Action>, a: Action)
    requires RunFrom(s, acts).Some?
    ensures RunFrom(s, acts + [a]) == Step(RunFrom(s, acts).value, a)
  {
    assert (acts + [a])[..|acts|] == acts;
  }

  // --- the scheduler left to itself ------------------------------------------------------------------

  lemma StopsOnlyShutDown(s: Wheel, a: Action)
    requires Step(s, a).Some? && (s.pc.Stopped? ==> s.shutdown)
    ensures Step(s, a).value.pc.Stopped? ==> Step(s, a).value.shutdown
  {
    hide IsPeek;
  }

  lemma {:induction false} RunStopsOnlyShutDown(s: Wheel, acts: seq<Action>)
    requires RunFrom(s, acts).Some? && (s.pc.Stopped? ==> s.shutdown)
    ensures RunFrom(s, acts).value.pc.Stopped? ==> RunFrom(s, acts).value.shutdown
  {
    if acts != [] {
      hide Step;
      RunStopsOnlyShutDown(s, acts[..|acts| - 1]);
      StopsOnlyShutDown(RunFrom(s, acts[..|acts| - 1]).value, acts[|acts| - 1]);
    }
  }

  /** The scheduler never leaves a timer that has not been shut down. */
  lemma NeverLeavesEarly(s: Wheel)
    requires Reachable(s) && s.pc.Stopped?
    ensures s.shutdown
  {
    var now, acts :| RunFrom(Fresh(now), acts) == Some(s);
    RunStopsOnlyShutDown(Fresh(now), acts);
  }

  /** The scheduler's own steps lead from s to t. */
  ghost predicate Leads(s: Wheel, t: Wheel) {
    exists acts: seq<Action> :: (forall k :: 0 <= k < |acts| ==> acts[k].Scheduler?) && RunFrom(s, acts) == Some(t)
  }

  lemma LeadsNow(s: Wheel)
    ensures Leads(s, s)
  {
    RunNone(s);
  }

  lemma LeadsLater(s: Wheel, peek: Option<Node>, t: Wheel)
    requires Step(s, Scheduler(peek)).Some? && Leads(Step(s, Scheduler(peek)).value, t)
    ensures Leads(s, t)
  {
    hide Step;
    var r := Step(s, Scheduler(peek)).value;
    var acts: seq<Action> :| (forall k :: 0 <= k < |acts| ==> acts[k].Scheduler?) && RunFrom(r, acts) == Some(t);
    RunFromNext(s, Scheduler(peek), acts);
    var all := [Scheduler(peek)] + acts;
    assert forall k :: 0 <= k < |all| ==> all[k].Scheduler?;
  }

  /** The first of the points d, d + p, d + 2p, ... that lies after `now`. */
  function FirstAfter(d: int, p: nat, now: int): (r: int)
    requires p > 0
    ensures r > now && r >= d && (r > d ==> r - p <= now)
    decreases if d > now then 0 else now - d + 1
  {
    if d > now then d else FirstAfter(d + p, p, now)
  }

  predicate Live(s: Wheel, n: Node) {
    n.id in s.queue.entries && s.queue.entries[n.id].timer !in s.flags
  }

  /** One catch-up, with the clock standing still. */
  lemma {:induction false} CatchesUp(s: Wheel, e: Entry, deadline: int)
    requires s.pc == CatchUp(e, deadline) && e.period.Some? && e.period.value > 0
    ensures var p := e.period.value;
      var d := FirstAfter(deadline, p, s.clock);
      Leads(s, s.(queue := Push(s.queue, d, e.(anchor := d - p)), pc := Waiting))
    decreases if deadline <= s.clock then s.clock - deadline + 1 else 0
  {
    var p := e.period.value;
    var t := s.(queue := Push(s.queue, FirstAfter(deadline, p, s.clock), e.(anchor := FirstAfter(deadline, p, s.clock) - p)), pc := Waiting);
    var r := Step(s, Scheduler(None)).value;
    hide Leads, Push;
    if deadline <= s.clock {
      CatchesUp(r, e, deadline + p);
    } else {
      assert Step(r, Scheduler(None)) == Some(t);
      LeadsNow(t);
      LeadsLater(r, None, t);
    }
    LeadsLater(s, None, t);
  }

  /** Where a job leads: the timer is done with, or its next tick after now is in the queue. */
  function Renewed(s: Wheel, e: Entry): Wheel {
    if e.period.None? || e.period.value == 0 then s.(pc := Waiting)
    else
      var d := FirstAfter(e.anchor + e.period.value, e.period.value, s.clock);
      s.(queue := Push(s.queue, d, Entry(e.timer, e.period, d - e.period.value, e.fires + 1)), pc := Waiting)
  }

  /** From the job of a timer to the scheduler's next look at the heap. */
  lemma {:induction false} JobLeadsBack(s: Wheel, e: Entry)
    requires s.pc == RunningJob(e) && e.period != Some(0)
    ensures Leads(s, Renewed(s, e))
  {
    hide Leads, Push;
    var next := Step(s, Scheduler(None)).value;
    if e.period.None? {
      LeadsNow(next);
    } else {
      CatchesUp(next, Fired(e), e.anchor + e.period.value);
    }
    LeadsLater(s, None, Renewed(s, e));
  }

  /** Once its job has begun. */
  function Begun(s: Wheel, n: Node): Wheel
    requires n.id in s.queue.entries
  {
    var e := s.queue.entries[n.id];
    s.(queue := Pop(s.queue, n), starts := s.starts + [Start(e.timer, n.deadline, s.clock)], pc := RunningJob(e))
  }

  /** The earliest node dealt with: nothing comes of a stale or cancelled one; a live one's job starts,
      once, now, and a repeating timer has its next tick after now in the queue. */
  function Served(s: Wheel, n: Node): Wheel {
    if Live(s, n) then Renewed(Begun(s, n), s.queue.entries[n.id]) else s.(queue := Pop(s.queue, n))
  }

  /** Where the scheduler looks at the heap and finds a node due. */
  ghost predicate Finds(s: Wheel, n: Node) {
    s.pc.Waiting? && !s.shutdown && IsPeek(s.queue.heap, Some(n)) && n.deadline <= s.clock
  }

  /** The scheduler's next three steps start the job of the earliest node, if that is due, live and
      not cancelled: once, now, and for the tick it was due at. */
  lemma DueJobStarts(s: Wheel, n: Node)
    requires Finds(s, n) && Live(s, n)
    ensures RunFrom(s, [Scheduler(Some(n)), Scheduler(None), Scheduler(None)]) == Some(Begun(s, n))
  {
    hide IsPeek, Pop;
    var one, two := [Scheduler(Some(n))], [Scheduler(Some(n)), Scheduler(None)];
    var three := two + [Scheduler(None)];
    RunNone(s);
    RunStep(s, [], Scheduler(Some(n)));
    assert [] + one == one && one + [Scheduler(None)] == two;
    RunStep(s, one, Scheduler(None));
    RunStep(s, two, Scheduler(None));
    assert three == [Scheduler(Some(n)), Scheduler(None), Scheduler(None)];
  }

  lemma DueLeadsToJob(s: Wheel, n: Node)
    requires Finds(s, n) && Live(s, n)
    ensures Leads(s, Begun(s, n))
  {
    DueJobStarts(s, n);
    var acts := [Scheduler(Some(n)), Scheduler(None), Scheduler(None)];
    hide RunFrom;
    assert forall k :: 0 <= k < |acts| ==> acts[k].Scheduler?;
  }

  lemma {:induction false} RunsJoin(s: Wheel, acts: seq<Action>, more: seq<Action>)
    requires RunFrom(s, acts).Some?
    ensures RunFrom(s, acts + more) == RunFrom(RunFrom(s, acts).value, more)
  {
    hide Step;
    if more == [] {
      assert acts + more == acts;
      RunNone(RunFrom(s, acts).value);
    } else {
      RunsJoin(s, acts, more[..|more| - 1]);
      assert (acts + more)[..|acts + more| - 1] == acts + more[..|more| - 1];
    }
  }

  lemma LeadsThrough(s: Wheel, t: Wheel, u: Wheel)
    requires Leads(s, t) && Leads(t, u)
    ensures Leads(s, u)
  {
    hide RunFrom;
    var acts: seq<Action> :| (forall k :: 0 <= k < |acts| ==> acts[k].Scheduler?) && RunFrom(s, acts) == Some(t);
    var more: seq<Action> :| (forall k :: 0 <= k < |more| ==> more[k].Scheduler?) && RunFrom(t, more) == Some(u);
    RunsJoin(s, acts, more);
    var all := acts + more;
    assert forall k :: 0 <= k < |all| ==> all[k].Scheduler?;
  }

  /** Left to itself, the scheduler deals with the earliest node if that is due, and is back for more:
      nothing comes of a stale or cancelled one, and a live one is Served. */
  lemma DueIsServed(s: Wheel, n: Node)
    requires Finds(s, n) && (Live(s, n) ==> s.queue.entries[n.id].period != Some(0))
    ensures Leads(s, Served(s, n))
  {
    hide Leads, Push, Pop, IsPeek;
    if Live(s, n) {
      DueLeadsToJob(s, n);
      JobLeadsBack(Begun(s, n), s.queue.entries[n.id]);
      LeadsThrough(s, Begun(s, n), Served(s, n));
    } else {
      var popped := Step(s, Scheduler(Some(n))).value;
      LeadsNow(Served(s, n));
      if n.id in s.queue.entries {
        LeadsLater(popped, None, Served(s, n));
      }
      LeadsLater(s, Some(n), Served(s, n));
    }
  }

  /** The scheduler about to look at the heap, with no zero period among the timers it may serve. */
  ghost predicate AtWork(s: Wheel) {
    && s.pc.Waiting? && !s.shutdown && QueueOk(s.queue)
    && forall id :: id in s.queue.entries && s.queue.entries[id].timer !in s.flags ==> s.queue.entries[id].period != Some(0)
  }

  /** b starts, now, an entry that is due and not cancelled. */
  ghost predicate StartsDue(s: Wheel, id: nat, b: Start) {
    && id in s.queue.entries && id in s.queue.due && s.queue.due[id] <= s.clock
    && s.queue.entries[id].timer !in s.flags
    && b == Start(s.queue.entries[id].timer, s.queue.due[id], s.clock)
  }

  ghost predicate IsDue(s: Wheel, b: Start) {
    exists id :: StartsDue(s, id, b)
  }

  ghost function DueNodes(s: Wheel): set<Node> {
    set n | n in s.queue.heap && n.deadline <= s.clock
  }

  /** Serving one node pops it and pushes nothing but a later tick under a fresh id. */
  ghost predicate OneServed(s: Wheel, n: Node, t: Wheel) {
    && t.clock == s.clock && t.flags == s.flags && t.starts == s.starts + Made(s, n)
    && NodeTaken(s.queue, n, s.clock, t.queue)
  }

  /** The start that serving a node makes. */
  function Made(s: Wheel, n: Node): seq<Start> {
    if Live(s, n) then [Start(s.queue.entries[n.id].timer, n.deadline, s.clock)] else []
  }

  lemma QueueIsServed(s: Wheel, n: Node)
    requires QueueOk(s.queue) && IsPeek(s.queue.heap, Some(n))
    ensures QueueOk(Pop(s.queue, n)) && QueueOk(Served(s, n).queue)
  {
    hide QueueOk, Push, Pop, IsPeek, FirstAfter;
    PopKeeps(s.queue, n);
    if Live(s, n) && s.queue.entries[n.id].period.Some? && s.queue.entries[n.id].period.value != 0 {
      var e := s.queue.entries[n.id];
      var d := FirstAfter(e.anchor + e.period.value, e.period.value, s.clock);
      PushKeeps(Pop(s.queue, n), d, Entry(e.timer, e.period, d - e.period.value, e.fires + 1));
    }
  }

  /** Of q's nodes due by now, r lacks n and has no other; what r has instead is a later tick of the
      same timer. */
  ghost predicate NodeTaken(q: Queue, n: Node, clock: int, r: Queue) {
    && (set m | m in r.heap && m.deadline <= clock) == (set m | m in q.heap && m.deadline <= clock) - {n}
    && (forall id :: id in q.entries && id != n.id ==>
          id in r.entries && r.entries[id] == q.entries[id] && id in q.due && id in r.due && r.due[id] == q.due[id])
    && (forall id :: id in r.entries && id in r.due && r.due[id] <= clock ==> id in q.entries && id != n.id)
    && (forall id :: id in r.entries ==>
          || (id in q.entries && r.entries[id] == q.entries[id])
          || (n.id in q.entries && r.entries[id].timer == q.entries[n.id].timer && r.entries[id].period == q.entries[n.id].period))
  }

  lemma PopTakes(q: Queue, n: Node, clock: int)
    requires NodesOk(q) && n in q.heap && n.deadline <= clock
    ensures NodeTaken(q, n, clock, Pop(q, n))
  {
  }

  lemma PushTakesNothing(q: Queue, n: Node, clock: int, r: Queue, d: int, e: Entry)
    requires NodesOk(r) && NodeTaken(q, n, clock, r) && d > clock
    requires n.id in q.entries && e.timer == q.entries[n.id].timer && e.period == q.entries[n.id].period
    ensures NodeTaken(q, n, clock, Push(r, d, e))
  {
    assert Push(r, d, e).heap == r.heap + {Node(d, r.nextId + 1)};
  }

  /** What is pushed back for a live repeating entry: its first tick after now. */
  lemma RenewalTakesNothing(q: Queue, n: Node, clock: int, r: Queue, e: Entry)
    requires NodesOk(r) && NodeTaken(q, n, clock, r) && n.id in q.entries && e == q.entries[n.id]
    requires e.period.Some? && e.period.value != 0
    ensures var d := FirstAfter(e.anchor + e.period.value, e.period.value, clock);
      NodeTaken(q, n, clock, Push(r, d, Entry(e.timer, e.period, d - e.period.value, e.fires + 1)))
  {
    hide NodesOk, NodeTaken, Push;
    var d := FirstAfter(e.anchor + e.period.value, e.period.value, clock);
    PushTakesNothing(q, n, clock, r, d, Entry(e.timer, e.period, d - e.period.value, e.fires + 1));
  }

  lemma ServedTakes(s: Wheel, n: Node)
    requires NodesOk(s.queue) && NodesOk(Pop(s.queue, n)) && n in s.queue.heap && n.deadline <= s.clock
    ensures NodeTaken(s.queue, n, s.clock, Served(s, n).queue)
  {
    hide Push, Pop, NodesOk, NodeTaken, FirstAfter;
    PopTakes(s.queue, n, s.clock);
    if Live(s, n) && s.queue.entries[n.id].period.Some? && s.queue.entries[n.id].period.value != 0 {
      RenewalTakesNothing(s.queue, n, s.clock, Pop(s.queue, n), s.queue.entries[n.id]);
    }
  }

  lemma ServedIsOne(s: Wheel, n: Node)
    requires NodesOk(s.queue) && NodesOk(Pop(s.queue, n)) && n in s.queue.heap && n.deadline <= s.clock
    ensures OneServed(s, n, Served(s, n))
  {
    hide Push, Pop, NodesOk, NodeTaken, FirstAfter;
    ServedTakes(s, n);
  }

  lemma StaysAtWork(s: Wheel, n: Node)
    requires AtWork(s) && QueueOk(Served(s, n).queue) && NodeTaken(s.queue, n, s.clock, Served(s, n).queue)
    requires Live(s, n) || n.id !in s.queue.entries || s.queue.entries[n.id].timer in s.flags
    ensures AtWork(Served(s, n))
  {
    hide QueueOk;
    assert Served(s, n).flags == s.flags && Served(s, n).pc == Waiting && !Served(s, n).shutdown by {
      hide Push, Pop, FirstAfter, NodeTaken;
    }
    hide Served;
  }

  /** What is due before is the start just made or due after. */
  lemma DueShrinks(s: Wheel, n: Node, t: Wheel, b: Start)
    requires NodesOk(s.queue) && NodesOk(t.queue) && n in s.queue.heap && n.deadline <= s.clock && OneServed(s, n, t)
    ensures IsDue(s, b) <==> IsDue(t, b) || b in Made(s, n)
  {
    hide DueNodes;
    if id :| StartsDue(s, id, b) {
      assert id != n.id ==> StartsDue(t, id, b);
    }
    if id :| StartsDue(t, id, b) {
      assert StartsDue(s, id, b);
    }
    if Live(s, n) {
      assert StartsDue(s, n.id, Start(s.queue.entries[n.id].timer, n.deadline, s.clock));
    }
  }

  /** Asleep until the earliest deadline there is, which is still to come. */
  ghost predicate SleepsTillNext(t: Wheel) {
    && t.pc.Asleep? && !t.woken
    && (t.pc.until.None? <==> t.queue.heap == {})
    && (t.pc.until.Some? ==>
          && t.clock < t.pc.until.value
          && (exists n :: n in t.queue.heap && n.deadline == t.pc.until.value)
          && (forall n :: n in t.queue.heap ==> t.pc.until.value <= n.deadline))
  }

  lemma NothingDueSleeps(s: Wheel, peek: Option<Node>) returns (t: Wheel)
    requires s.pc.Waiting? && !s.shutdown && IsPeek(s.queue.heap, peek) && (peek.Some? ==> peek.value.deadline > s.clock)
    ensures t == s.(pc := t.pc, woken := false) && Leads(s, t) && SleepsTillNext(t)
  {
    t := Step(s, Scheduler(peek)).value;
    LeadsNow(t);
    LeadsLater(s, peek, t);
  }

  lemma {:induction false} DueAreServed(s: Wheel) returns (t: Wheel)
    requires AtWork(s)
    ensures Leads(s, t) && SleepsTillNext(t) && t.clock == s.clock && t.flags == s.flags
    ensures s.starts <= t.starts
    ensures forall b :: b in t.starts[|s.starts|..] <==> IsDue(s, b)
    decreases |DueNodes(s)|
  {
    hide QueueOk, Leads, SleepsTillNext, Served, NodeTaken, IsDue;
    var peek := PeekExists(s.queue.heap);
    if peek.Some? && peek.value.deadline <= s.clock {
      var r := OneIsServed(s, peek.value);
      t := DueAreServed(r);
      LeadsThrough(s, r, t);
      forall b ensures b in t.starts[|s.starts|..] <==> IsDue(s, b) {
        StartsJoin(s.starts, Made(s, peek.value), t.starts, b);
      }
    } else {
      NothingIsDue(s, peek);
      t := NothingDueSleeps(s, peek);
    }
  }

  lemma NothingIsDue(s: Wheel, peek: Option<Node>)
    requires QueueOk(s.queue) && IsPeek(s.queue.heap, peek) && (peek.Some? ==> peek.value.deadline > s.clock)
    ensures forall b :: !IsDue(s, b)
  {
    assert forall id :: id in s.queue.entries ==> id in s.queue.due && Node(s.queue.due[id], id) in s.queue.heap;
  }

  lemma StartsJoin(before: seq<Start>, made: seq<Start>, all: seq<Start>, b: Start)
    requires before + made <= all
    ensures b in all[|before|..] <==> b in made || b in all[|before + made|..]
  {
    assert all[|before|..] == made + all[|before + made|..];
  }

  lemma OneIsServed(s: Wheel, n: Node) returns (r: Wheel)
    requires AtWork(s) && Finds(s, n)
    ensures AtWork(r) && Leads(s, r) && r.clock == s.clock && r.flags == s.flags && r.starts == s.starts + Made(s, n)
    ensures |DueNodes(r)| < |DueNodes(s)|
    ensures forall b :: IsDue(s, b) <==> IsDue(r, b) || b in Made(s, n)
  {
    r := Served(s, n);
    QueueIsServed(s, n);
    assert NodesOk(s.queue) && NodesOk(Pop(s.queue, n)) && NodesOk(r.queue);
    assert n in DueNodes(s);
    hide QueueOk, NodesOk, Leads, Served, IsDue, IsPeek, Pop;
    ServedIsOne(s, n);
    StaysAtWork(s, n);
    DueIsServed(s, n);
    assert DueNodes(r) == DueNodes(s) - {n};
    hide NodeTaken;
    forall b ensures IsDue(s, b) <==> IsDue(r, b) || b in Made(s, n) {
      DueShrinks(s, n, r, b);
    }
  }

  lemma LeadsReachable(s: Wheel, t: Wheel)
    requires Reachable(s) && Leads(s, t)
    ensures Reachable(t)
  {
    hide RunFrom;
    var now, acts :| RunFrom(Fresh(now), acts) == Some(s);
    var more: seq<Action> :| (forall k :: 0 <= k < |more| ==> more[k].Scheduler?) && RunFrom(s, more) == Some(t);
    RunsJoin(Fresh(now), acts, more);
  }

  /** However late it is and however much is due, the scheduler left to itself starts the job of every
      entry that is due and not cancelled, at its own tick, and of no other; no timer twice; then it
      sleeps until the earliest deadline left. */
  lemma EverythingDueIsServed(s: Wheel) returns (t: Wheel)
    requires Reachable(s) && s.pc.Waiting? && !s.shutdown
    requires forall id :: id in s.queue.entries && s.queue.entries[id].timer !in s.flags ==> s.queue.entries[id].period != Some(0)
    ensures Leads(s, t) && SleepsTillNext(t) && t.clock == s.clock && t.flags == s.flags
    ensures s.starts <= t.starts
    ensures forall b :: b in t.starts[|s.starts|..] <==> IsDue(s, b)
    ensures forall j, k :: |s.starts| <= j < k < |t.starts| ==> t.starts[j].timer != t.starts[k].timer
  {
    ReachableInv(s);
    hide QueueOk, Leads, SleepsTillNext;
    t := DueAreServed(s);
    LeadsReachable(s, t);
    hide Reachable;
    forall j, k | |s.starts| <= j < k < |t.starts| ensures t.starts[j].timer != t.starts[k].timer {
      assert t.starts[j] in t.starts[|s.starts|..] && t.starts[k] in t.starts[|s.starts|..];
      assert IsDue(s, t.starts[j]) && IsDue(s, t.starts[k]);
      if t.starts[j].timer == t.starts[k].timer {
        StartsOfOneTimer(t, j, k);
      }
    }
  }

  /** Timer 1, due at 10 and every p after, is all there is, and the clock stands at 10. */
  ghost predicate OneTimer(w: Option<Wheel>, p: nat, entries: map<nat, Entry>, nextId: nat, flags: set<nat>, pc: Pc) {
    && w.Some? && w.value.queue.entries == entries && w.value.queue.nextId == nextId && w.value.pc == pc
    && w.value.clock == 10 && w.value.timers == map[1 := Timer(10, Some(p))]
    && !w.value.shutdown && w.value.flags == flags && w.value.removing == {}
  }

  const FIRST_NODE := Node(10, 1)

  function Unfired(p: nat): Entry {
    Entry(1, Some(p), 10, 0)
  }

  function FiredOnce(p: nat): Entry {
    Entry(1, Some(p), 10, 1)
  }

  lemma TakeFirst(p: nat) returns (acts: seq<Action>)
    ensures OneTimer(RunFrom(Fresh(10), acts), p, map[], 1, {}, CheckFlag(Unfired(p), FIRST_NODE))
  {
    var s, insert := Fresh(10), [Insert(10, Some(p))];
    acts := insert + [Scheduler(Some(FIRST_NODE))];
    hide RunFrom;
    RunNone(s);
    RunStep(s, [], Insert(10, Some(p)));
    assert [] + insert == insert;
    assert OneTimer(RunFrom(s, insert), p, map[1 := Unfired(p)], 1, {}, Waiting);
    assert RunFrom(s, insert).value.queue.heap == {FIRST_NODE};
    RunStep(s, insert, Scheduler(Some(FIRST_NODE)));
  }

  lemma StartFirst(p: nat) returns (acts: seq<Action>)
    ensures OneTimer(RunFrom(Fresh(10), acts), p, map[], 1, {}, RunningJob(Unfired(p)))
  {
    acts := TakeFirst(p);
    hide RunFrom, IsPeek, Push, Pop;
    RunStep(Fresh(10), acts, Scheduler(None));
    acts := acts + [Scheduler(None)];
    assert OneTimer(RunFrom(Fresh(10), acts), p, map[], 1, {}, StartJob(Unfired(p), FIRST_NODE));
    RunStep(Fresh(10), acts, Scheduler(None));
    acts := acts + [Scheduler(None)];
  }

  lemma FinishFirst(p: nat, flags: set<nat>, before: seq<Action>) returns (acts: seq<Action>)
    requires p > 0 && OneTimer(RunFrom(Fresh(10), before), p, map[], 1, flags, RunningJob(Unfired(p)))
    ensures OneTimer(RunFrom(Fresh(10), acts), p, map[2 := FiredOnce(p)], 2, flags, Waiting)
    ensures before <= acts
  {
    hide RunFrom, IsPeek, Pop;
    RunStep(Fresh(10), before, Scheduler(None));
    acts := before + [Scheduler(None)];
    assert OneTimer(RunFrom(Fresh(10), acts), p, map[], 1, flags, CatchUp(FiredOnce(p), 10 + p));
    RunStep(Fresh(10), acts, Scheduler(None));
    acts := acts + [Scheduler(None)];
    assert OneTimer(RunFrom(Fresh(10), acts), p, map[], 1, flags, Reinsert(FiredOnce(p), 10 + p, 10));
    RunStep(Fresh(10), acts, Scheduler(None));
    acts := acts + [Scheduler(None)];
  }

  lemma CancelFirst(p: nat, entries: map<nat, Entry>, nextId: nat, pc: Pc, before: seq<Action>) returns (acts: seq<Action>)
    requires 1 !in entries && !pc.CheckFlag? && OneTimer(RunFrom(Fresh(10), before), p, entries, nextId, {}, pc)
    ensures OneTimer(RunFrom(Fresh(10), acts), p, entries, nextId, {1}, pc)
  {
    hide RunFrom;
    RunStep(Fresh(10), before, RaiseFlag(1));
    RunStep(Fresh(10), before + [RaiseFlag(1)], RemoveId(1));
    acts := before + [RaiseFlag(1)] + [RemoveId(1)];
    assert entries - {1} == entries;
  }

  /** A run in which `cancel` completes and the entry it was to free stays, under id 2. */
  lemma CancelledEntryCanLinger() returns (acts: seq<Action>)
    ensures OneTimer(RunFrom(Fresh(10), acts), 5, map[2 := FiredOnce(5)], 2, {1}, Waiting)
  {
    hide RunFrom, OneTimer;
    acts := StartFirst(5);
    acts := FinishFirst(5, {}, acts);
    acts := CancelFirst(5, map[2 := FiredOnce(5)], 2, Waiting, acts);
  }

  /** A run in which `cancel` completes while the timer's own first job runs, finds nothing to
      remove, and the entry appears in the map afterwards. */
  lemma CancelDuringFirstJobLingers() returns (cancelled: seq<Action>, acts: seq<Action>)
    ensures OneTimer(RunFrom(Fresh(10), cancelled), 5, map[], 1, {1}, RunningJob(Unfired(5)))
    ensures cancelled <= acts
    ensures OneTimer(RunFrom(Fresh(10), acts), 5, map[2 := FiredOnce(5)], 2, {1}, Waiting)
  {
    hide RunFrom, OneTimer;
    var started := StartFirst(5);
    cancelled := CancelFirst(5, map[], 1, RunningJob(Unfired(5)), started);
    acts := FinishFirst(5, {1}, cancelled);
  }

  // --- period 0 ---------------------------------------------------------------------------------

  /** Catching up with period 0 from a deadline already reached. */
  predicate Spinning(s: Wheel) {
    s.pc.CatchUp? && s.pc.entry.period == Some(0) && s.pc.deadline <= s.clock
  }

  lemma SpinningStep(s: Wheel, a: Action)
    requires Spinning(s) && Step(s, a).Some?
    ensures Spinning(Step(s, a).value) && Step(s, a).value.starts == s.starts
  {
  }

  /** The first job of a timer with period 0 leaves the scheduler spinning: with a deadline it has
      already reached and cannot advance. */
  lemma ZeroPeriodSpins(s: Wheel)
    requires Reachable(s) && s.pc.RunningJob? && s.pc.entry.period == Some(0)
    ensures StepScheduler(s, None).Some? && Spinning(StepScheduler(s, None).value)
  {
    ReachableInv(s);
    hide Inv;
    assert HeldOk(s) by {
      assert Inv(s);
    }
  }

  /** There is such a run: insert a timer with period 0 that is due, and let its job start. */
  lemma ZeroPeriodIsReached() returns (acts: seq<Action>)
    ensures var s := RunFrom(Fresh(10), acts);
      s.Some? && Reachable(s.value) && s.value.pc.RunningJob? && s.value.pc.entry.period == Some(0)
  {
    acts := StartFirst(0);
    hide RunFrom;
  }

  /** From there it never gets away, and no job of any timer starts any more. */
  lemma {:induction false} SpinsForever(s: Wheel, acts: seq<Action>)
    requires Spinning(s) && RunFrom(s, acts).Some?
    ensures Spinning(RunFrom(s, acts).value)
    ensures RunFrom(s, acts).value.starts == s.starts
  {
    if acts != [] {
      var before := acts[..|acts| - 1];
      hide Step, Spinning;
      SpinsForever(s, before);
      SpinningStep(RunFrom(s, before).value, acts[|acts| - 1]);
    }
  }

  /** With a positive period the loop ends, however the clock moves as long as it stays bounded:
      it returns the first deadline, stepping from `start` by periods, that its last reading of
      the clock has not reached. `clock` gives the successive readings. */
  method CatchUpLoop(start: int, period: nat, clock: nat -> int, bound: int) returns (deadline: int, read: nat)
    requires period > 0
    requires forall i: nat, j: nat :: i <= j ==> clock(i) <= clock(j)
    requires forall i: nat :: clock(i) <= bound
    ensures clock(read) < deadline
    ensures deadline == Point(start, period, read)
    ensures forall k: nat :: k < read ==> Point(start, period, k) <= clock(read)
  {
    deadline, read := start, 0;
    while deadline <= clock(read)
      invariant deadline == Point(start, period, read)
      invariant forall k: nat :: k < read ==> Point(start, period, k) <= clock(k)
      decreases bound - deadline
    {
      assert (read + 1) * period == read * period + period;
      assert Point(start, period, read) <= clock(read);
      deadline := deadline + period;
      read := read + 1;
    }
  }
}
