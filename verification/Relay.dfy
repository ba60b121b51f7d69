/** The two-direction relay: each direction copies one side to the other, and the directions, the
    canceller and the peers interleave at every access to something shared. */
module Relay {
  import opened Wrappers

  type byte = x: int | 0 <= x < 256 witness 0

  /** One end of the relay. Direction d reads side d and writes side 1 - d. */
  datatype Side = Side(
    shared: bool,
    /** The direction holding the lock of a serialized side. */
    holder: Option<nat>,
    readShut: bool,
    writeShut: bool,
    /** What the peer has sent so far, what of it is still unread, and whether it has closed. */
    sent: seq<byte>,
    inbox: seq<byte>,
    closed: bool)

  /** How one direction ends. */
  datatype Ending = Eof | SawFinished | CancelledAtTop | CancelledAtEof | Failed | Panicked

  datatype Pc =
    | Top | CheckFinished | StartRead | Reading | CheckEof | HalfClose
    | StartWrite(chunk: seq<byte>) | Writing(chunk: seq<byte>, written: nat)
    | Account(n: nat) | Record(n: nat)
    | SetFinished(how: Ending) | Releasing(how: Ending, todo: seq<nat>) | Over(how: Ending)

  datatype Dir = Dir(
    pc: Pc,
    /** Bytes read from the source, bytes the destination took, and the two byte counts. */
    got: seq<byte>,
    put: seq<byte>,
    stat: nat,
    recorded: nat,
    /** Reads and writes begun since `finished` was set. */
    readsAfter: nat,
    writesAfter: nat)

  /** What the transport answers. */
  datatype Io = Ready | Data(n: nat) | EndOfStream | NotYet | Fault | Panic | Wrote(n: nat)

  datatype Now = Now(dir: Dir, src: Side, dst: Side, finished: bool)

  const BUFFER := 32768

  function One(b: bool): nat {
    if b then 1 else 0
  }

  /** Best-effort release of both halves: a serialized side whose lock is taken is skipped. */
  function Release(side: Side): Side {
    if side.shared || side.holder.None? then side.(readShut := true, writeShut := true) else side
  }

  function ShutWrite(side: Side): Side {
    if side.shared || side.holder.None? then side.(writeShut := true) else side
  }

  function Unlock(side: Side): Side {
    side.(holder := None)
  }

  function Lock(side: Side, d: nat): Option<Side> {
    if side.shared then Some(side) else if side.holder.Some? then None else Some(side.(holder := Some(d)))
  }

  /** Which sides an ending releases, in order. */
  function ReleasedBy(how: Ending, d: nat): seq<nat>
    requires d < 2
  {
    match how
    case CancelledAtTop => [d, 1 - d]
    case CancelledAtEof => [1 - d]
    case Failed => [d, 1 - d]
    case Panicked => [0, 1]
    case Eof => []
    case SawFinished => []
  }

  function At(now: Now, pc: Pc): Now {
    now.(dir := now.dir.(pc := pc))
  }

  /** From the top of the loop to the end of a read. */
  function StepRead(now: Now, d: nat, cancelled: bool, io: Io): Option<Now> {
    match now.dir.pc
    case Top => Some(At(now, if cancelled then SetFinished(CancelledAtTop) else CheckFinished))
    case CheckFinished => Some(At(now, if now.finished then Over(SawFinished) else StartRead))
    case StartRead =>
      var locked := Lock(now.src, d);
      if locked.None? then None
      else Some(now.(src := locked.value, dir := now.dir.(pc := Reading, readsAfter := now.dir.readsAfter + One(now.finished))))
    case Reading =>
      var back := now.(src := Unlock(now.src));
      if io.Data? && 1 <= io.n <= |now.src.inbox| && io.n <= BUFFER then
        Some(back.(src := back.src.(inbox := now.src.inbox[io.n..]),
                   dir := now.dir.(pc := StartWrite(now.src.inbox[..io.n]), got := now.dir.got + now.src.inbox[..io.n])))
      else if io == EndOfStream && ((now.src.closed && now.src.inbox == []) || now.src.readShut) then Some(At(back, CheckEof))
      else if io == NotYet then Some(At(back, Top))
      else if io == Fault then Some(At(back, SetFinished(Failed)))
      else if io == Panic then Some(At(back, SetFinished(Panicked)))
      else None
    case CheckEof => Some(At(now, if cancelled then SetFinished(CancelledAtEof) else HalfClose))
    case HalfClose => Some(At(now, Over(Eof)).(dst := ShutWrite(now.dst)))
    case _ => None
  }

  /** From a chunk in hand back to the top of the loop. */
  function StepWrite(now: Now, d: nat, io: Io): Option<Now> {
    match now.dir.pc
    case StartWrite(chunk) =>
      var locked := Lock(now.dst, d);
      if locked.None? then None
      else Some(now.(dst := locked.value, dir := now.dir.(pc := Writing(chunk, 0), writesAfter := now.dir.writesAfter + One(now.finished))))
    case Writing(chunk, written) =>
      var back := now.(dst := Unlock(now.dst));
      if io == Panic then Some(At(back, SetFinished(Panicked)))
      else if written >= |chunk| then Some(At(back, Account(|chunk|)))
      else if io.Wrote? && io.n == 0 then Some(At(back, SetFinished(Failed)))
      else if io.Wrote? && io.n <= |chunk| - written then
        Some(now.(dir := now.dir.(pc := Writing(chunk, written + io.n), put := now.dir.put + chunk[written..written + io.n])))
      else if io == Fault then Some(At(back, SetFinished(Failed)))
      else None
    case Account(n) => Some(now.(dir := now.dir.(pc := Record(n), stat := now.dir.stat + n)))
    case Record(n) =>
      if io == Panic then Some(At(now, SetFinished(Panicked)))
      else Some(now.(dir := now.dir.(pc := Top, recorded := now.dir.recorded + n)))
    case _ => None
  }

  /** An ending other than a half-close: tell the partner, then release what it may be parked on. */
  function StepEnd(now: Now, d: nat): Option<Now>
    requires d < 2
  {
    match now.dir.pc
    case SetFinished(how) => Some(At(now, Releasing(how, ReleasedBy(how, d))).(finished := true))
    case Releasing(how, todo) =>
      if todo == [] then Some(At(now, Over(how)))
      else if todo[0] == d then Some(At(now, Releasing(how, todo[1..])).(src := Release(now.src)))
      else Some(At(now, Releasing(how, todo[1..])).(dst := Release(now.dst)))
    case _ => None
  }

  function StepDir(now: Now, d: nat, cancelled: bool, io: Io): Option<Now>
    requires d < 2
  {
    match now.dir.pc
    case StartWrite(_) => StepWrite(now, d, io)
    case Writing(_, _) => StepWrite(now, d, io)
    case Account(_) => StepWrite(now, d, io)
    case Record(_) => StepWrite(now, d, io)
    case SetFinished(_) => StepEnd(now, d)
    case Releasing(_, _) => StepEnd(now, d)
    case _ => StepRead(now, d, cancelled, io)
  }

  // --- what one direction keeps ------------------------------------------------------

  predicate Copying(pc: Pc) {
    pc == Top || pc == CheckFinished || pc == StartRead || pc == Reading || pc == CheckEof || pc == HalfClose
    || pc == Over(Eof) || pc == Over(SawFinished)
  }

  /** Bytes read are bytes delivered, in order, up to the chunk in hand; and both counts agree. */
  ghost predicate Carries(dir: Dir) {
    match dir.pc
    case StartWrite(chunk) => dir.got == dir.put + chunk && dir.stat == dir.recorded == |dir.put|
    case Writing(chunk, written) =>
      written <= |chunk| <= |dir.got| && dir.got == dir.put + chunk[written..] && dir.stat == dir.recorded == |dir.got| - |chunk|
    case Account(n) => dir.got == dir.put && dir.stat == dir.recorded == |dir.put| - n
    case Record(n) => dir.got == dir.put && dir.stat == |dir.put| && dir.recorded == |dir.put| - n
    case SetFinished(how) => Setter(how) && dir.put <= dir.got
    case Releasing(how, _) => Setter(how) && dir.put <= dir.got
    case _ => if Copying(dir.pc) then dir.got == dir.put && dir.stat == dir.recorded == |dir.put| else dir.put <= dir.got
  }

  /** Past `finished` a direction begins no second read and no second write. */
  ghost predicate WindsDown(dir: Dir, finished: bool) {
    && dir.readsAfter <= 1 && dir.writesAfter <= 1
    && (!finished ==> dir.readsAfter == dir.writesAfter == 0)
    && (dir.pc == StartRead ==> dir.readsAfter == 0)
    && (dir.pc == StartRead || dir.pc == Reading || dir.pc.StartWrite? ==> dir.writesAfter == 0)
  }

  predicate AtEof(pc: Pc) {
    pc == CheckEof || pc == HalfClose || pc == Over(Eof)
  }

  predicate Setter(how: Ending) {
    how != Eof && how != SawFinished
  }

  /** The source's bytes are read in order, and an end of stream is the peer's own, or a release. */
  ghost predicate Honest(dir: Dir, src: Side, finished: bool, cancelled: bool) {
    && src.sent == dir.got + src.inbox
    && (AtEof(dir.pc) ==> (src.closed && src.inbox == []) || finished || cancelled)
    && (src.readShut ==> finished || cancelled)
  }

  /** What has to have happened for a direction to be where it is. */
  ghost predicate Caused(pc: Pc, finished: bool, cancelled: bool) {
    match pc
    case SetFinished(how) => Setter(how) && ByCancel(how, cancelled)
    case Releasing(how, _) => Setter(how) && finished && ByCancel(how, cancelled)
    case Over(how) => (how != Eof ==> finished) && ByCancel(how, cancelled)
    case _ => true
  }

  predicate ByCancel(how: Ending, cancelled: bool) {
    how == CancelledAtTop || how == CancelledAtEof ==> cancelled
  }

  /** Everything one direction keeps whatever it does next. */
  ghost predicate Sound(now: Now, cancelled: bool) {
    && Carries(now.dir)
    && WindsDown(now.dir, now.finished)
    && Honest(now.dir, now.src, now.finished, cancelled)
    && Caused(now.dir.pc, now.finished, cancelled)
  }

  predicate InRead(pc: Pc) {
    pc == Top || pc == CheckFinished || pc == StartRead || pc == Reading || pc == CheckEof || pc == HalfClose
  }

  predicate InWrite(pc: Pc) {
    pc.StartWrite? || pc.Writing? || pc.Account? || pc.Record?
  }

  lemma ReadSound(now: Now, d: nat, cancelled: bool, io: Io)
    requires Sound(now, cancelled) && InRead(now.dir.pc) && now.dir.pc != Reading && StepRead(now, d, cancelled, io).Some?
    ensures Sound(StepRead(now, d, cancelled, io).value, cancelled)
  {
  }

  lemma ReadDataSound(now: Now, d: nat, cancelled: bool, n: nat)
    requires Sound(now, cancelled) && now.dir.pc == Reading && StepRead(now, d, cancelled, Data(n)).Some?
    ensures Sound(StepRead(now, d, cancelled, Data(n)).value, cancelled)
  {
    assert now.src.inbox == now.src.inbox[..n] + now.src.inbox[n..];
  }

  lemma ReadNothingSound(now: Now, d: nat, cancelled: bool, io: Io)
    requires Sound(now, cancelled) && now.dir.pc == Reading && !io.Data? && StepRead(now, d, cancelled, io).Some?
    ensures Sound(StepRead(now, d, cancelled, io).value, cancelled)
  {
  }

  lemma ReadingSound(now: Now, d: nat, cancelled: bool, io: Io)
    requires Sound(now, cancelled) && now.dir.pc == Reading && StepRead(now, d, cancelled, io).Some?
    ensures Sound(StepRead(now, d, cancelled, io).value, cancelled)
  {
    hide Sound, StepRead;
    if io.Data? {
      ReadDataSound(now, d, cancelled, io.n);
    } else {
      ReadNothingSound(now, d, cancelled, io);
    }
  }

  lemma WriteSound(now: Now, d: nat, cancelled: bool, io: Io)
    requires Sound(now, cancelled) && InWrite(now.dir.pc) && !now.dir.pc.Writing? && StepWrite(now, d, io).Some?
    ensures Sound(StepWrite(now, d, io).value, cancelled)
  {
  }

  lemma WrittenOn(put: seq<byte>, chunk: seq<byte>, w: nat, n: nat)
    requires w + n <= |chunk|
    ensures put + chunk[w..] == (put + chunk[w..w + n]) + chunk[w + n..]
  {
  }

  lemma WroteSound(now: Now, d: nat, cancelled: bool, n: nat)
    requires Sound(now, cancelled) && now.dir.pc.Writing? && now.dir.pc.written < |now.dir.pc.chunk|
    requires StepWrite(now, d, Wrote(n)).Some?
    ensures Sound(StepWrite(now, d, Wrote(n)).value, cancelled)
  {
    var chunk, w := now.dir.pc.chunk, now.dir.pc.written;
    if n <= |chunk| - w {
      WrittenOn(now.dir.put, chunk, w, n);
    }
  }

  lemma WritingStopsSound(now: Now, d: nat, cancelled: bool, io: Io)
    requires Sound(now, cancelled) && now.dir.pc.Writing? && StepWrite(now, d, io).Some?
    requires now.dir.pc.written >= |now.dir.pc.chunk| || !io.Wrote?
    ensures Sound(StepWrite(now, d, io).value, cancelled)
  {
    var chunk, w := now.dir.pc.chunk, now.dir.pc.written;
    if w >= |chunk| {
      assert chunk[w..] == [];
    }
  }

  lemma WritingSound(now: Now, d: nat, cancelled: bool, io: Io)
    requires Sound(now, cancelled) && now.dir.pc.Writing? && StepWrite(now, d, io).Some?
    ensures Sound(StepWrite(now, d, io).value, cancelled)
  {
    hide Sound, StepWrite;
    if io.Wrote? && now.dir.pc.written < |now.dir.pc.chunk| {
      WroteSound(now, d, cancelled, io.n);
    } else {
      WritingStopsSound(now, d, cancelled, io);
    }
  }

  lemma EndSound(now: Now, d: nat, cancelled: bool)
    requires d < 2 && Sound(now, cancelled) && StepEnd(now, d).Some?
    ensures Sound(StepEnd(now, d).value, cancelled)
  {
  }

  lemma DirSound(now: Now, d: nat, cancelled: bool, io: Io)
    requires d < 2 && Sound(now, cancelled) && StepDir(now, d, cancelled, io).Some?
    ensures Sound(StepDir(now, d, cancelled, io).value, cancelled)
  {
    hide Sound, StepWrite, StepEnd;
    if now.dir.pc.Writing? {
      WritingSound(now, d, cancelled, io);
    } else if InWrite(now.dir.pc) {
      WriteSound(now, d, cancelled, io);
    } else if now.dir.pc.SetFinished? || now.dir.pc.Releasing? {
      EndSound(now, d, cancelled);
    } else if now.dir.pc == Reading {
      ReadingSound(now, d, cancelled, io);
    } else {
      ReadSound(now, d, cancelled, io);
    }
  }

  // --- the whole relay -------------------------------------------------------------------

  datatype MainPc =
    | Starting | Registering | Spawning | Running
    | Aborting(todo: seq<nat>)
    | Returned(stats: Option<(nat, nat)>)

  datatype Relay = Relay(
    dirs: seq<Dir>,
    sides: seq<Side>,
    finished: bool,
    cancelled: bool,
    /** The sides the cancel hook has still to release, once it is registered. */
    hook: Option<seq<nat>>,
    main: MainPc)

  datatype Action =
    | Move(d: nat, io: Io)
    | Main(spawns: bool)
    | Cancel
    | HookStep
    | Arrive(x: nat, bytes: seq<byte>)
    | PeerCloses(x: nat)

  predicate Pair(s: Relay) {
    |s.dirs| == 2 && |s.sides| == 2
  }

  function NowOf(s: Relay, d: nat): Now
    requires d < 2 && |s.dirs| == 2 && |s.sides| == 2
  {
    Now(s.dirs[d], s.sides[d], s.sides[1 - d], s.finished)
  }

  function Put(s: Relay, d: nat, now: Now): Relay
    requires d < 2 && |s.dirs| == 2 && |s.sides| == 2
  {
    s.(dirs := s.dirs[d := now.dir], sides := s.sides[d := now.src][1 - d := now.dst], finished := now.finished)
  }

  function ReleaseSide(s: Relay, x: nat): Relay
    requires x < |s.sides|
  {
    s.(sides := s.sides[x := Release(s.sides[x])])
  }

  /** What `relay_with` returns once both directions are over. */
  function Outcome(s: Relay): Option<(nat, nat)>
    requires |s.dirs| == 2
  {
    if s.cancelled then None
    else if s.dirs[0].pc.Over? && !Setter(s.dirs[0].pc.how) && s.dirs[1].pc.Over? && !Setter(s.dirs[1].pc.how) then
      Some((s.dirs[0].stat, s.dirs[1].stat))
    else None
  }

  function StepMain(s: Relay, spawns: bool): Option<Relay>
    requires |s.dirs| == 2 && |s.sides| == 2
  {
    match s.main
    case Starting => Some(s.(main := if s.cancelled then Aborting([0, 1]) else Registering))
    case Registering => Some(s.(hook := Some([0, 1]), main := Spawning))
    case Spawning => Some(if spawns then s.(main := Running) else s.(finished := true, main := Aborting([0, 1])))
    case Aborting(todo) =>
      if todo == [] then Some(s.(main := Returned(None)))
      else if todo[0] < 2 then Some(ReleaseSide(s, todo[0]).(main := Aborting(todo[1..])))
      else None
    case Running =>
      if s.dirs[0].pc.Over? && s.dirs[1].pc.Over? then Some(s.(main := Returned(Outcome(s)))) else None
    case Returned(_) => None
  }

  function Step(s: Relay, a: Action): Option<Relay> {
    if |s.dirs| != 2 || |s.sides| != 2 then None
    else
      match a
      case Move(d, io) =>
        if d < 2 && s.main == Running then
          var now := StepDir(NowOf(s, d), d, s.cancelled, io);
          if now.Some? then Some(Put(s, d, now.value)) else None
        else None
      case Main(spawns) => StepMain(s, spawns)
      case Cancel => Some(s.(cancelled := true))
      case HookStep =>
        if s.cancelled && s.hook.Some? && s.hook.value != [] && s.hook.value[0] < 2 then
          Some(ReleaseSide(s, s.hook.value[0]).(hook := Some(s.hook.value[1..])))
        else None
      case Arrive(x, bytes) =>
        if x < 2 && !s.sides[x].closed then
          Some(s.(sides := s.sides[x := s.sides[x].(sent := s.sides[x].sent + bytes, inbox := s.sides[x].inbox + bytes)]))
        else None
      case PeerCloses(x) =>
        if x < 2 then Some(s.(sides := s.sides[x := s.sides[x].(closed := true)])) else None
  }

  const NewDir := Dir(Top, [], [], 0, 0, 0, 0)

  function Fresh(shared0: bool, shared1: bool): Relay {
    Relay([NewDir, NewDir],
          [Side(shared0, None, false, false, [], [], false), Side(shared1, None, false, false, [], [], false)],
          false, false, None, Starting)
  }

  function Run(shared0: bool, shared1: bool, acts: seq<Action>): Option<Relay> {
    if acts == [] then Some(Fresh(shared0, shared1))
    else
      var before := Run(shared0, shared1, acts[..|acts| - 1]);
      if before.None? then None else Step(before.value, acts[|acts| - 1])
  }

  // --- its invariant -----------------------------------------------------------------------

  predicate Ended(pc: Pc) {
    pc.Releasing? || (pc.Over? && Setter(pc.how))
  }

  /** Nothing can be parked on this side any more, where it is shared. */
  predicate Shut(side: Side) {
    side.shared ==> side.readShut && side.writeShut
  }

  ghost predicate BothSound(s: Relay)
    requires Pair(s)
  {
    Sound(NowOf(s, 0), s.cancelled) && Sound(NowOf(s, 1), s.cancelled)
  }

  /** `finished` is set by a direction that ended other than by a half-close, or by a failed spawn. */
  ghost predicate FinishedBy(s: Relay)
    requires Pair(s)
  {
    && (s.finished ==> Ended(s.dirs[0].pc) || Ended(s.dirs[1].pc) || s.main.Aborting? || s.main == Returned(None))
    && (s.main.Aborting? ==> s.finished || s.cancelled)
    && (s.main == Spawning || s.main == Running ==> s.hook.Some?)
  }

  /** The sides an ended direction has released so far are shut. */
  ghost predicate ReleasedSoFar(dir: Dir, d: nat, sides: seq<Side>)
    requires d < 2 && |sides| == 2
  {
    match dir.pc
    case Releasing(how, todo) =>
      && (forall k :: 0 <= k < |todo| ==> todo[k] < 2)
      && forall x :: 0 <= x < 2 && x in ReleasedBy(how, d) && x !in todo ==> Shut(sides[x])
    case Over(how) => forall x :: 0 <= x < 2 && x in ReleasedBy(how, d) ==> Shut(sides[x])
    case _ => true
  }

  ghost predicate HookSoFar(s: Relay)
    requires Pair(s)
  {
    s.hook.Some? ==> forall x :: 0 <= x < 2 && x !in s.hook.value ==> Shut(s.sides[x])
  }

  /** A serialized side's lock is held by the direction inside its read or its write, and by no other. */
  ghost predicate Exclusive(side: Side, x: nat, reader: Pc, writer: Pc)
    requires x < 2
  {
    if side.shared then side.holder == None
    else
      && (side.holder == Some(x) <==> reader == Reading)
      && (side.holder == Some(1 - x) <==> writer.Writing?)
      && (side.holder == None || side.holder == Some(x) || side.holder == Some(1 - x))
  }

  ghost predicate HalfClosed(dir: Dir, dst: Side) {
    dir.pc == Over(Eof) && dst.shared ==> dst.writeShut
  }

  ghost predicate HalvesClosed(s: Relay)
    requires Pair(s)
  {
    HalfClosed(s.dirs[0], s.sides[1]) && HalfClosed(s.dirs[1], s.sides[0])
  }

  /** What a successful return means, for one direction. */
  ghost predicate Delivered(dir: Dir, src: Side, stat: nat) {
    && dir.pc == Over(Eof)
    && src.closed
    && dir.put == dir.got == src.sent
    && stat == dir.recorded == |src.sent|
  }

  ghost predicate Complete(s: Relay)
    requires Pair(s)
  {
    s.main.Returned? && s.main.stats.Some? ==>
      Delivered(s.dirs[0], s.sides[0], s.main.stats.value.0) && Delivered(s.dirs[1], s.sides[1], s.main.stats.value.1)
  }

  ghost predicate Inv(s: Relay) {
    && Pair(s)
    && BothSound(s)
    && FinishedBy(s)
    && ReleasedSoFar(s.dirs[0], 0, s.sides) && ReleasedSoFar(s.dirs[1], 1, s.sides)
    && HookSoFar(s)
    && Exclusive(s.sides[0], 0, s.dirs[0].pc, s.dirs[1].pc) && Exclusive(s.sides[1], 1, s.dirs[1].pc, s.dirs[0].pc)
    && HalvesClosed(s)
    && Complete(s)
  }

  lemma FreshInv(shared0: bool, shared1: bool)
    ensures Inv(Fresh(shared0, shared1))
  {
  }

  predicate ShutGrows(side: Side, side': Side) {
    side'.shared == side.shared && (side.readShut ==> side'.readShut) && (side.writeShut ==> side'.writeShut)
  }

  /** What anybody but the directions may do to a side. */
  predicate Untouched(side: Side, side': Side) {
    ShutGrows(side, side') && side'.holder == side.holder && (side.closed ==> side'.closed && side'.sent == side.sent)
  }

  /** What a direction may do to the sides: it takes and gives back locks, shuts halves, and reads
      its own source. */
  predicate SideMove(side: Side, side': Side) {
    && ShutGrows(side, side')
    && side'.closed == side.closed && side'.sent == side.sent
  }

  /** What one step of direction d does to everything but its own account. */
  ghost predicate Effect(now: Now, now': Now, d: nat) {
    && SideMove(now.src, now'.src) && SideMove(now.dst, now'.dst)
    && now'.dst.inbox == now.dst.inbox
    && (now.finished ==> now'.finished)
    && (now'.finished && !now.finished ==> Ended(now'.dir.pc))
    && (Ended(now.dir.pc) ==> Ended(now'.dir.pc))
    && (now.dir.pc.Over? ==> false)
    && (now'.dst.readShut && !now.dst.readShut ==> now'.finished)
    && (now'.dir.pc == Over(Eof) && now'.dst.shared ==> now'.dst.writeShut)
  }

  lemma ReadEffect(now: Now, d: nat, cancelled: bool, io: Io)
    requires InRead(now.dir.pc) && StepRead(now, d, cancelled, io).Some?
    ensures Effect(now, StepRead(now, d, cancelled, io).value, d)
  {
  }

  lemma WritingEffect(now: Now, d: nat, io: Io)
    requires now.dir.pc.Writing? && StepWrite(now, d, io).Some?
    ensures Effect(now, StepWrite(now, d, io).value, d)
  {
  }

  lemma AroundWriteEffect(now: Now, d: nat, io: Io)
    requires InWrite(now.dir.pc) && !now.dir.pc.Writing? && StepWrite(now, d, io).Some?
    ensures Effect(now, StepWrite(now, d, io).value, d)
  {
  }

  lemma WriteEffect(now: Now, d: nat, io: Io)
    requires InWrite(now.dir.pc) && StepWrite(now, d, io).Some?
    ensures Effect(now, StepWrite(now, d, io).value, d)
  {
    hide Effect, StepWrite;
    if now.dir.pc.Writing? {
      WritingEffect(now, d, io);
    } else {
      AroundWriteEffect(now, d, io);
    }
  }

  lemma EndEffect(now: Now, d: nat, cancelled: bool)
    requires d < 2 && StepEnd(now, d).Some? && Caused(now.dir.pc, now.finished, cancelled)
    ensures Effect(now, StepEnd(now, d).value, d)
  {
  }

  lemma DirEffect(now: Now, d: nat, cancelled: bool, io: Io)
    requires d < 2 && StepDir(now, d, cancelled, io).Some? && Caused(now.dir.pc, now.finished, cancelled)
    ensures Effect(now, StepDir(now, d, cancelled, io).value, d)
  {
    hide Effect, StepWrite, StepEnd;
    if InWrite(now.dir.pc) {
      WriteEffect(now, d, io);
    } else if now.dir.pc.SetFinished? || now.dir.pc.Releasing? {
      EndEffect(now, d, cancelled);
    } else {
      ReadEffect(now, d, cancelled, io);
    }
  }

  /** Both sides' locks stay with the direction inside them. */
  ghost predicate LocksHeld(now: Now, d: nat, partner: Pc)
    requires d < 2
  {
    Exclusive(now.src, d, now.dir.pc, partner) && Exclusive(now.dst, 1 - d, partner, now.dir.pc)
  }

  lemma ReadingLocks(now: Now, d: nat, cancelled: bool, io: Io, partner: Pc)
    requires d < 2 && now.dir.pc == Reading && StepRead(now, d, cancelled, io).Some? && LocksHeld(now, d, partner)
    ensures LocksHeld(StepRead(now, d, cancelled, io).value, d, partner)
  {
  }

  lemma AroundReadLocks(now: Now, d: nat, cancelled: bool, io: Io, partner: Pc)
    requires d < 2 && InRead(now.dir.pc) && now.dir.pc != Reading
    requires StepRead(now, d, cancelled, io).Some? && LocksHeld(now, d, partner)
    ensures LocksHeld(StepRead(now, d, cancelled, io).value, d, partner)
  {
  }

  lemma ReadLocks(now: Now, d: nat, cancelled: bool, io: Io, partner: Pc)
    requires d < 2 && InRead(now.dir.pc) && StepRead(now, d, cancelled, io).Some? && LocksHeld(now, d, partner)
    ensures LocksHeld(StepRead(now, d, cancelled, io).value, d, partner)
  {
    hide LocksHeld, StepRead;
    if now.dir.pc == Reading {
      ReadingLocks(now, d, cancelled, io, partner);
    } else {
      AroundReadLocks(now, d, cancelled, io, partner);
    }
  }

  lemma WriteLocks(now: Now, d: nat, io: Io, partner: Pc)
    requires d < 2 && InWrite(now.dir.pc) && StepWrite(now, d, io).Some? && LocksHeld(now, d, partner)
    ensures LocksHeld(StepWrite(now, d, io).value, d, partner)
  {
  }

  lemma EndLocks(now: Now, d: nat, partner: Pc)
    requires d < 2 && StepEnd(now, d).Some? && LocksHeld(now, d, partner)
    ensures LocksHeld(StepEnd(now, d).value, d, partner)
  {
  }

  lemma DirLocks(now: Now, d: nat, cancelled: bool, io: Io, partner: Pc)
    requires d < 2 && StepDir(now, d, cancelled, io).Some? && LocksHeld(now, d, partner)
    ensures LocksHeld(StepDir(now, d, cancelled, io).value, d, partner)
  {
    hide LocksHeld, StepWrite, StepEnd;
    if InWrite(now.dir.pc) {
      WriteLocks(now, d, io, partner);
    } else if now.dir.pc.SetFinished? || now.dir.pc.Releasing? {
      EndLocks(now, d, partner);
    } else {
      ReadLocks(now, d, cancelled, io, partner);
    }
  }

  lemma EndReleases(now: Now, d: nat, sides: seq<Side>, sides': seq<Side>)
    requires d < 2 && StepEnd(now, d).Some? && |sides| == 2
    requires now.src == sides[d] && now.dst == sides[1 - d]
    requires sides' == sides[d := StepEnd(now, d).value.src][1 - d := StepEnd(now, d).value.dst]
    requires ReleasedSoFar(now.dir, d, sides)
    ensures ReleasedSoFar(StepEnd(now, d).value.dir, d, sides')
  {
  }

  lemma DirReleases(now: Now, d: nat, cancelled: bool, io: Io, sides: seq<Side>, sides': seq<Side>)
    requires d < 2 && StepDir(now, d, cancelled, io).Some? && |sides| == 2
    requires now.src == sides[d] && now.dst == sides[1 - d]
    requires sides' == sides[d := StepDir(now, d, cancelled, io).value.src][1 - d := StepDir(now, d, cancelled, io).value.dst]
    requires ReleasedSoFar(now.dir, d, sides)
    ensures ReleasedSoFar(StepDir(now, d, cancelled, io).value.dir, d, sides')
  {
    if now.dir.pc.SetFinished? || now.dir.pc.Releasing? {
      EndReleases(now, d, sides, sides');
    }
  }

  /** The partner stays sound under whatever this direction does. */
  lemma PartnerSound(now: Now, now': Now, d: nat, partner: Dir, cancelled: bool)
    requires Effect(now, now', d)
    requires Sound(Now(partner, now.dst, now.src, now.finished), cancelled)
    ensures Sound(Now(partner, now'.dst, now'.src, now'.finished), cancelled)
  {
  }

  lemma ShutStays(dir: Dir, d: nat, sides: seq<Side>, sides': seq<Side>)
    requires d < 2 && |sides| == 2 && |sides'| == 2 && ReleasedSoFar(dir, d, sides)
    requires ShutGrows(sides[0], sides'[0]) && ShutGrows(sides[1], sides'[1])
    ensures ReleasedSoFar(dir, d, sides')
  {
  }

  lemma MoveReleases(s: Relay, d: nat, io: Io)
    requires Inv(s) && d < 2 && StepDir(NowOf(s, d), d, s.cancelled, io).Some?
    ensures var s' := Put(s, d, StepDir(NowOf(s, d), d, s.cancelled, io).value);
      Pair(s') && ReleasedSoFar(s'.dirs[0], 0, s'.sides) && ReleasedSoFar(s'.dirs[1], 1, s'.sides)
  {
    var now := NowOf(s, d);
    var s' := Put(s, d, StepDir(now, d, s.cancelled, io).value);
    DirEffect(now, d, s.cancelled, io);
    DirReleases(now, d, s.cancelled, io, s.sides, s'.sides);
    hide StepDir, BothSound, Exclusive, ReleasedSoFar, HookSoFar, HalfClosed, FinishedBy, Complete;
    ShutStays(s.dirs[1 - d], 1 - d, s.sides, s'.sides);
  }

  lemma MoveShuts(s: Relay, d: nat, io: Io)
    requires Inv(s) && d < 2 && StepDir(NowOf(s, d), d, s.cancelled, io).Some?
    ensures var s' := Put(s, d, StepDir(NowOf(s, d), d, s.cancelled, io).value);
      Pair(s') && HookSoFar(s') && HalvesClosed(s')
  {
    DirEffect(NowOf(s, d), d, s.cancelled, io);
    hide StepDir, BothSound, Exclusive, ReleasedSoFar, FinishedBy, Complete;
  }

  lemma MoveSound(s: Relay, d: nat, io: Io)
    requires Inv(s) && d < 2 && StepDir(NowOf(s, d), d, s.cancelled, io).Some?
    ensures var s' := Put(s, d, StepDir(NowOf(s, d), d, s.cancelled, io).value);
      && Pair(s') && BothSound(s')
      && Exclusive(s'.sides[0], 0, s'.dirs[0].pc, s'.dirs[1].pc) && Exclusive(s'.sides[1], 1, s'.dirs[1].pc, s'.dirs[0].pc)
  {
    var now := NowOf(s, d);
    var now' := StepDir(now, d, s.cancelled, io).value;
    assert Sound(now, s.cancelled) && Sound(NowOf(s, 1 - d), s.cancelled);
    DirEffect(now, d, s.cancelled, io);
    DirSound(now, d, s.cancelled, io);
    DirLocks(now, d, s.cancelled, io, s.dirs[1 - d].pc);
    hide StepDir, Sound, Exclusive, ReleasedSoFar, Effect;
    PartnerSound(now, now', d, s.dirs[1 - d], s.cancelled);
    assert NowOf(Put(s, d, now'), d) == now';
    assert NowOf(Put(s, d, now'), 1 - d) == Now(s.dirs[1 - d], now'.dst, now'.src, now'.finished);
  }

  lemma MoveKeeps(s: Relay, d: nat, io: Io)
    requires Inv(s) && d < 2 && s.main == Running && StepDir(NowOf(s, d), d, s.cancelled, io).Some?
    ensures Inv(Put(s, d, StepDir(NowOf(s, d), d, s.cancelled, io).value))
  {
    MoveSound(s, d, io);
    MoveReleases(s, d, io);
    MoveShuts(s, d, io);
    DirEffect(NowOf(s, d), d, s.cancelled, io);
    hide StepDir, BothSound, Exclusive, ReleasedSoFar, HookSoFar, HalfClosed;
  }

  /** A change to one side that nobody is inside: locks, halves shut and peers' bytes stay. */
  lemma SideKeeps(s: Relay, s': Relay)
    requires Inv(s) && Pair(s') && s'.dirs == s.dirs && s'.main == s.main
    requires s'.finished == s.finished && s'.cancelled == s.cancelled
    requires Untouched(s.sides[0], s'.sides[0]) && Untouched(s.sides[1], s'.sides[1])
    requires HookSoFar(s') && (s.hook.Some? ==> s'.hook.Some?)
    requires BothSound(s')
    ensures Inv(s')
  {
    hide BothSound, ReleasedSoFar, HookSoFar;
    ShutStays(s.dirs[0], 0, s.sides, s'.sides);
    ShutStays(s.dirs[1], 1, s.sides, s'.sides);
  }

  lemma ReleaseKeeps(s: Relay, x: nat, hook': Option<seq<nat>>)
    requires Inv(s) && x < 2 && (s.finished || s.cancelled)
    requires hook' == s.hook || (s.hook.Some? && s.hook.value != [] && s.hook.value[0] == x && hook' == Some(s.hook.value[1..]))
    ensures Inv(ReleaseSide(s, x).(hook := hook'))
  {
    var s' := ReleaseSide(s, x).(hook := hook');
    ReleaseSounds(s, s', x);
    HookReleases(s, s', x);
    hide BothSound, ReleasedSoFar, Exclusive, HalfClosed, Complete, FinishedBy, Inv;
    SideKeeps(s, s');
  }

  lemma ReleaseSounds(s: Relay, s': Relay, x: nat)
    requires Inv(s) && x < 2 && (s.finished || s.cancelled)
    requires s'.dirs == s.dirs && s'.sides == s.sides[x := Release(s.sides[x])] && s'.finished == s.finished && s'.cancelled == s.cancelled
    ensures Pair(s') && BothSound(s')
  {
    assert Sound(NowOf(s, 0), s.cancelled) && Sound(NowOf(s, 1), s.cancelled);
    hide Sound, ReleasedSoFar, Exclusive, HalfClosed, Complete, FinishedBy;
    ReleasedSound(NowOf(s, 0), NowOf(s', 0), s.cancelled);
    ReleasedSound(NowOf(s, 1), NowOf(s', 1), s.cancelled);
  }

  lemma HookReleases(s: Relay, s': Relay, x: nat)
    requires Inv(s) && x < 2
    requires s'.hook == s.hook || (s.hook.Some? && s.hook.value != [] && s.hook.value[0] == x && s'.hook == Some(s.hook.value[1..]))
    requires s'.dirs == s.dirs && s'.sides == s.sides[x := Release(s.sides[x])]
    ensures Pair(s') && HookSoFar(s')
  {
    hide BothSound, ReleasedSoFar, Exclusive, HalfClosed, Complete, FinishedBy;
    assert s.hook.Some? && s.hook.value != [] ==> s.hook.value == [s.hook.value[0]] + s.hook.value[1..];
  }

  lemma ReleasedSound(now: Now, now': Now, cancelled: bool)
    requires Sound(now, cancelled) && (now.finished || cancelled)
    requires now'.dir == now.dir && now'.finished == now.finished
    requires SideMove(now.src, now'.src) && now'.src.inbox == now.src.inbox
    ensures Sound(now', cancelled)
  {
  }

  /** The heart of completeness: two directions that both came back Ok, with the token not
      cancelled, both met their peers' own end of stream, with nothing left behind. */
  lemma OkIsComplete(s: Relay)
    requires Inv(s) && s.main == Running && Outcome(s).Some?
    ensures Delivered(s.dirs[0], s.sides[0], s.dirs[0].stat) && Delivered(s.dirs[1], s.sides[1], s.dirs[1].stat)
  {
    assert !s.finished;
    assert Sound(NowOf(s, 0), s.cancelled) && Sound(NowOf(s, 1), s.cancelled);
    assert s.dirs[0].pc == Over(Eof) && s.dirs[1].pc == Over(Eof);
  }

  lemma MainKeeps(s: Relay, spawns: bool)
    requires Inv(s) && StepMain(s, spawns).Some?
    ensures Inv(StepMain(s, spawns).value)
  {
    hide BothSound, ReleasedSoFar, HookSoFar, Exclusive, HalfClosed, Delivered;
    var s' := StepMain(s, spawns).value;
    match s.main
    case Running =>
      if Outcome(s).Some? { OkIsComplete(s); }
      MainOnly(s, s');
    case Aborting(todo) =>
      if todo == [] {
        MainOnly(s, s');
      } else {
        ReleaseKeeps(s, todo[0], s.hook);
        MainOnly(ReleaseSide(s, todo[0]), s');
      }
    case Starting => MainOnly(s, s');
    case Registering => MainOnly(s, s');
    case Spawning => MainOnly(s, s');
  }

  /** Changes to the main thread's own place, to the hook's list while whole, and to the flag. */
  lemma MainOnly(s: Relay, s': Relay)
    requires Inv(s)
    requires s'.dirs == s.dirs && s'.sides == s.sides && s'.cancelled == s.cancelled
    requires FinishedBy(s')
    requires s.finished ==> s'.finished
    requires s'.hook == s.hook || s'.hook == Some([0, 1])
    requires Complete(s')
    ensures Inv(s')
  {
    assert Sound(NowOf(s, 0), s.cancelled) && Sound(NowOf(s, 1), s.cancelled);
    FlagSound(NowOf(s, 0), s.cancelled, s'.finished, s'.cancelled);
    FlagSound(NowOf(s, 1), s.cancelled, s'.finished, s'.cancelled);
    hide Sound, ReleasedSoFar, Exclusive, FinishedBy, Complete;
  }

  lemma FlagSound(now: Now, cancelled: bool, finished': bool, cancelled': bool)
    requires Sound(now, cancelled) && (cancelled ==> cancelled') && (now.finished ==> finished')
    ensures Sound(now.(finished := finished'), cancelled')
  {
  }

  lemma CancelKeeps(s: Relay)
    requires Inv(s)
    ensures Inv(s.(cancelled := true))
  {
    assert Sound(NowOf(s, 0), s.cancelled) && Sound(NowOf(s, 1), s.cancelled);
    FlagSound(NowOf(s, 0), s.cancelled, s.finished, true);
    FlagSound(NowOf(s, 1), s.cancelled, s.finished, true);
    hide Sound, ReleasedSoFar, Exclusive;
  }

  ghost predicate PeerMove(side: Side, side': Side) {
    || side' == side || side' == side.(closed := true)
    || exists bytes: seq<byte> :: !side.closed && side' == side.(sent := side.sent + bytes, inbox := side.inbox + bytes)
  }

  lemma PeerSound(now: Now, now': Now, cancelled: bool)
    requires Sound(now, cancelled) && now'.dir == now.dir && now'.finished == now.finished && PeerMove(now.src, now'.src)
    ensures Sound(now', cancelled)
  {
  }

  lemma PeerSounds(s: Relay, s': Relay, x: nat)
    requires Inv(s) && x < 2 && |s'.sides| == 2
    requires PeerMove(s.sides[x], s'.sides[x]) && s' == s.(sides := s.sides[x := s'.sides[x]])
    ensures Pair(s') && BothSound(s')
  {
    assert Sound(NowOf(s, 0), s.cancelled) && Sound(NowOf(s, 1), s.cancelled);
    PeerSound(NowOf(s, x), NowOf(s', x), s.cancelled);
    hide PeerMove, ReleasedSoFar, Exclusive, HookSoFar, FinishedBy, Complete;
    if x == 0 {
      DestinationSound(NowOf(s, 1), NowOf(s', 1), s.cancelled);
    } else {
      DestinationSound(NowOf(s, 0), NowOf(s', 0), s.cancelled);
    }
  }

  lemma DestinationSound(now: Now, now': Now, cancelled: bool)
    requires Sound(now, cancelled) && now' == now.(dst := now'.dst)
    ensures Sound(now', cancelled)
  {
  }

  lemma PeerUntouched(side: Side, side': Side)
    requires PeerMove(side, side')
    ensures Untouched(side, side') && Shut(side') == Shut(side)
  {
  }

  /** The peer sends or closes: only an open side can grow, so no account of an ended stream changes. */
  lemma PeerKeeps(s: Relay, x: nat, side': Side)
    requires Inv(s) && x < 2 && PeerMove(s.sides[x], side')
    ensures Inv(s.(sides := s.sides[x := side']))
  {
    var s' := s.(sides := s.sides[x := side']);
    PeerSounds(s, s', x);
    PeerUntouched(s.sides[x], side');
    hide BothSound, PeerMove, ReleasedSoFar, Exclusive, HalfClosed, Complete, FinishedBy;
    SideKeeps(s, s');
  }

  lemma InvKept(s: Relay, a: Action)
    requires Inv(s) && Step(s, a).Some?
    ensures Inv(Step(s, a).value)
  {
    hide BothSound, FinishedBy, ReleasedSoFar, HookSoFar, Exclusive, HalfClosed, Complete, StepDir, StepMain;
    match a
    case Move(d, io) => MoveKeeps(s, d, io);
    case Main(spawns) => MainKeeps(s, spawns);
    case Cancel => CancelKeeps(s);
    case HookStep => ReleaseKeeps(s, s.hook.value[0], Some(s.hook.value[1..]));
    case Arrive(x, bytes) => PeerKeeps(s, x, s.sides[x].(sent := s.sides[x].sent + bytes, inbox := s.sides[x].inbox + bytes));
    case PeerCloses(x) => PeerKeeps(s, x, s.sides[x].(closed := true));
  }

  /** Some interleaving leads to s, for some mix of shared and serialized sides. */
  ghost predicate Reachable(s: Relay) {
    exists shared0, shared1, acts :: Run(shared0, shared1, acts) == Some(s)
  }

  lemma {:induction false} RunInv(shared0: bool, shared1: bool, acts: seq<Action>)
    requires Run(shared0, shared1, acts).Some?
    ensures Inv(Run(shared0, shared1, acts).value)
  {
    if acts == [] {
      FreshInv(shared0, shared1);
    } else {
      hide Inv;
      RunInv(shared0, shared1, acts[..|acts| - 1]);
      InvKept(Run(shared0, shared1, acts[..|acts| - 1]).value, acts[|acts| - 1]);
    }
  }

  lemma ReachableInv(s: Relay)
    requires Reachable(s)
    ensures Inv(s)
  {
    var shared0, shared1, acts :| Run(shared0, shared1, acts) == Some(s);
    RunInv(shared0, shared1, acts);
  }

  // --- what the relay promises -----------------------------------------------------------------

  /** Past `finished` each direction begins one more read and one more write at the most. */
  lemma FinishedWindsDown(s: Relay, d: nat)
    requires Reachable(s) && d < 2
    ensures d < |s.dirs| && s.dirs[d].readsAfter <= 1 && s.dirs[d].writesAfter <= 1
    ensures !s.finished ==> s.dirs[d].readsAfter == s.dirs[d].writesAfter == 0
  {
    ReachableInv(s);
    assert Sound(NowOf(s, d), s.cancelled);
  }

  /** What an ending that sets `finished` has released when it is over. */
  lemma EndingReleases(s: Relay, d: nat)
    requires Reachable(s) && d < 2 && |s.dirs| == 2 && |s.sides| == 2
    requires s.dirs[d].pc.Over? && Setter(s.dirs[d].pc.how)
    ensures s.dirs[1 - d].pc == Reading && s.sides[1 - d].shared ==> s.sides[1 - d].readShut
    ensures s.dirs[1 - d].pc.Writing? && s.sides[d].shared && !s.sides[d].writeShut ==>
              s.dirs[d].pc.how == CancelledAtEof && s.cancelled && (s.main == Running ==> s.hook.Some? && d in s.hook.value)
  {
    hide Carries, WindsDown, Honest, Exclusive, HalvesClosed, Complete;
    ReachableInv(s);
    assert Sound(NowOf(s, d), s.cancelled);
    assert (1 - d) in ReleasedBy(s.dirs[d].pc.how, d);
    assert Shut(s.sides[1 - d]);
    if s.dirs[d].pc.how != CancelledAtEof {
      assert d in ReleasedBy(s.dirs[d].pc.how, d);
    }
  }

  /** Once the cancel hook has gone through both sides nothing can stay parked on a shared one. */
  lemma HookReleasesBoth(s: Relay, x: nat)
    requires Reachable(s) && x < 2 && s.hook == Some([])
    ensures x < |s.sides| && (s.sides[x].shared ==> s.sides[x].readShut && s.sides[x].writeShut)
  {
    ReachableInv(s);
  }

  /** A serialized side is never read and written at the same time. */
  lemma SerializedIsExclusive(s: Relay, x: nat)
    requires Reachable(s) && x < 2 && |s.sides| == 2 && |s.dirs| == 2 && !s.sides[x].shared
    ensures !(s.dirs[x].pc == Reading && s.dirs[1 - x].pc.Writing?)
  {
    ReachableInv(s);
  }

  /** A half-close always reaches a shared side. */
  lemma HalfCloseArrives(s: Relay, d: nat)
    requires Reachable(s) && d < 2 && |s.sides| == 2 && |s.dirs| == 2
    requires s.dirs[d].pc == Over(Eof) && s.sides[1 - d].shared
    ensures s.sides[1 - d].writeShut
  {
    ReachableInv(s);
  }

  /** A half-close leaves the destination's write half shut exactly if it was shut before, or the
      side is shared, or the partner is not reading it under its lock at that moment. */
  lemma HalfCloseShutsIff(s: Relay, d: nat, io: Io)
    requires Reachable(s) && d < 2 && |s.sides| == 2 && |s.dirs| == 2
    requires s.main == Running && s.dirs[d].pc == HalfClose
    ensures Step(s, Move(d, io)).Some?
    ensures var t := Step(s, Move(d, io)).value;
      && |t.sides| == 2 && |t.dirs| == 2 && t.dirs[d].pc == Over(Eof)
      && (t.sides[1 - d].writeShut <==>
            s.sides[1 - d].writeShut || s.sides[1 - d].shared || s.dirs[1 - d].pc != Reading)
  {
    ReachableInv(s);
    assert Exclusive(s.sides[1 - d], 1 - d, s.dirs[1 - d].pc, s.dirs[d].pc);
    hide Inv, Exclusive;
  }

  /** At every moment what a direction has delivered is a prefix of what the peer sent, in order;
      and while it copies, it lacks only the chunk in hand. */
  lemma DeliversInOrder(s: Relay, d: nat)
    requires Reachable(s) && d < 2
    ensures d < |s.dirs| && d < |s.sides|
    ensures s.dirs[d].put <= s.dirs[d].got <= s.sides[d].sent
    ensures Copying(s.dirs[d].pc) ==> s.dirs[d].put == s.dirs[d].got && s.dirs[d].stat == s.dirs[d].recorded == |s.dirs[d].put|
  {
    hide WindsDown, Caused, Exclusive, HalvesClosed, Complete, ReleasedSoFar, HookSoFar, FinishedBy, Carries, Honest;
    ReachableInv(s);
    var now := NowOf(s, d);
    assert Sound(now, s.cancelled);
    hide Inv, BothSound, Reachable;
    CarriesInOrder(now, s.cancelled);
  }

  lemma CarriesInOrder(now: Now, cancelled: bool)
    requires Carries(now.dir) && Honest(now.dir, now.src, now.finished, cancelled)
    ensures now.dir.put <= now.dir.got <= now.src.sent
    ensures Copying(now.dir.pc) ==>
      now.dir.put == now.dir.got && now.dir.stat == now.dir.recorded == |now.dir.put|
  {
  }

  /** `relay_with` returns Ok only when both directions met their peers' end of stream; then every
      byte each peer sent was delivered to the other in order, and the statistics and the
      accounting hook both add up to exactly those bytes. */
  lemma OkMeansDelivered(s: Relay)
    requires Reachable(s) && s.main.Returned? && s.main.stats.Some?
    ensures |s.dirs| == 2 && |s.sides| == 2
    ensures Delivered(s.dirs[0], s.sides[0], s.main.stats.value.0)
    ensures Delivered(s.dirs[1], s.sides[1], s.main.stats.value.1)
  {
    ReachableInv(s);
  }

  // --- when it returns Ok ------------------------------------------------------------------------

  /** What the transports, the caller or the spawning of the threads do against the relay: a fault
      or a panic inside a read or a write, a write that takes nothing, a panicking accounting hook,
      a cancellation, or a thread that does not start. */
  predicate Disturbs(s: Relay, a: Action)
    requires Pair(s)
  {
    match a
    case Cancel => !s.main.Returned?
    case Main(spawns) => s.main == Spawning && !spawns
    case Move(d, io) => d < 2 && s.main == Running && Upsets(s.dirs[d].pc, io)
    case _ => false
  }

  predicate Upsets(pc: Pc, io: Io) {
    match pc
    case Reading => io == Fault || io == Panic
    case Writing(chunk, written) => io == Panic || (written < |chunk| && (io == Fault || io == Wrote(0)))
    case Record(_) => io == Panic
    case _ => false
  }

  /** Some action of the run went against the relay. */
  predicate Disturbed(shared0: bool, shared1: bool, acts: seq<Action>) {
    acts != []
    && var before, a := acts[..|acts| - 1], acts[|acts| - 1];
       || Disturbed(shared0, shared1, before)
       || (Run(shared0, shared1, before).Some?
           && Pair(Run(shared0, shared1, before).value) && Disturbs(Run(shared0, shared1, before).value, a))
  }

  predicate Abandons(pc: Pc) {
    pc.SetFinished? || pc.Releasing? || (pc.Over? && pc.how != Eof)
  }

  /** The relay is on its way to an error, or has returned one. */
  predicate Failing(s: Relay)
    requires Pair(s)
  {
    if s.main.Returned? then s.main.stats.None?
    else s.cancelled || s.finished || s.main.Aborting? || Abandons(s.dirs[0].pc) || Abandons(s.dirs[1].pc)
  }

  lemma ReadAbandonsIff(now: Now, d: nat, cancelled: bool, io: Io)
    requires !cancelled && !now.finished && InRead(now.dir.pc) && StepRead(now, d, cancelled, io).Some?
    ensures var now' := StepRead(now, d, cancelled, io).value;
      !now'.finished && (Abandons(now'.dir.pc) <==> Upsets(now.dir.pc, io))
  {
  }

  lemma WriteAbandonsIff(now: Now, d: nat, io: Io)
    requires !now.finished && InWrite(now.dir.pc) && StepWrite(now, d, io).Some?
    ensures var now' := StepWrite(now, d, io).value;
      !now'.finished
      && (Abandons(now'.dir.pc) <==> Upsets(now.dir.pc, io))
  {
  }

  lemma StaysAbandoned(now: Now, d: nat, cancelled: bool, io: Io)
    requires d < 2 && Abandons(now.dir.pc) && StepDir(now, d, cancelled, io).Some?
    requires now.dir.pc.SetFinished? ==> Setter(now.dir.pc.how)
    requires now.dir.pc.Releasing? ==> Setter(now.dir.pc.how)
    ensures Abandons(StepDir(now, d, cancelled, io).value.dir.pc)
  {
  }

  lemma MoveFailsIff(s: Relay, d: nat, io: Io)
    requires Inv(s) && Step(s, Move(d, io)).Some?
    ensures var t := Step(s, Move(d, io)).value;
      Pair(t) && (Failing(t) <==> Failing(s) || Disturbs(s, Move(d, io)))
  {
    var now := NowOf(s, d);
    assert Sound(now, s.cancelled) && Caused(now.dir.pc, s.finished, s.cancelled);
    hide Inv, Sound, StepRead, StepWrite, StepEnd;
    DirEffect(now, d, s.cancelled, io);
    if Abandons(s.dirs[d].pc) {
      StaysAbandoned(now, d, s.cancelled, io);
    } else if !s.cancelled && !s.finished {
      if InWrite(now.dir.pc) {
        WriteAbandonsIff(now, d, io);
      } else {
        ReadAbandonsIff(now, d, s.cancelled, io);
      }
    }
  }

  /** When both directions are over the caller's answer is the error exactly if something failed:
      whoever left because of `finished` left a partner that had set it. */
  lemma OutcomeFailsIff(s: Relay)
    requires Inv(s) && s.main == Running && s.dirs[0].pc.Over? && s.dirs[1].pc.Over?
    ensures Outcome(s).None? <==> Failing(s)
  {
    assert Caused(s.dirs[0].pc, s.finished, s.cancelled) && Caused(s.dirs[1].pc, s.finished, s.cancelled);
    hide Sound, ReleasedSoFar, HookSoFar, Exclusive, HalvesClosed, Complete;
  }

  lemma StepFailsIff(s: Relay, a: Action)
    requires Inv(s) && Step(s, a).Some?
    ensures Pair(Step(s, a).value) && (Failing(Step(s, a).value) <==> Failing(s) || Disturbs(s, a))
  {
    if a.Move? {
      MoveFailsIff(s, a.d, a.io);
    } else {
      if a.Main? && s.main == Running {
        OutcomeFailsIff(s);
      }
      hide BothSound, ReleasedSoFar, HookSoFar, Exclusive, HalvesClosed, Complete, Outcome;
    }
  }

  lemma {:induction false} RunFailsIff(shared0: bool, shared1: bool, acts: seq<Action>)
    requires Run(shared0, shared1, acts).Some?
    ensures Pair(Run(shared0, shared1, acts).value)
    ensures Failing(Run(shared0, shared1, acts).value) <==> Disturbed(shared0, shared1, acts)
  {
    if acts != [] {
      var before, a := acts[..|acts| - 1], acts[|acts| - 1];
      hide Failing, Disturbs, Step, Inv;
      RunInv(shared0, shared1, before);
      RunFailsIff(shared0, shared1, before);
      StepFailsIff(Run(shared0, shared1, before).value, a);
    }
  }

  /** `relay_with` returns Ok exactly if nothing went against it: polls that find nothing, short
      writes and either order of closing do not turn it into an error. */
  lemma OkIffUndisturbed(shared0: bool, shared1: bool, acts: seq<Action>)
    requires Run(shared0, shared1, acts).Some? && Run(shared0, shared1, acts).value.main.Returned?
    ensures Run(shared0, shared1, acts).value.main.stats.Some? <==> !Disturbed(shared0, shared1, acts)
  {
    RunFailsIff(shared0, shared1, acts);
  }

  /** Actions that can do no harm, wherever the relay stands. */
  predicate Harmless(a: Action) {
    a != Cancel && a != Main(false) && (a.Move? ==> a.io != Fault && a.io != Panic && a.io != Wrote(0))
  }

  lemma {:induction false} HarmlessDisturbsNothing(shared0: bool, shared1: bool, acts: seq<Action>)
    requires forall k :: 0 <= k < |acts| ==> Harmless(acts[k])
    ensures !Disturbed(shared0, shared1, acts)
  {
    if acts != [] {
      HarmlessDisturbsNothing(shared0, shared1, acts[..|acts| - 1]);
    }
  }

  /** In a run of harmless actions `finished` is never set, no direction comes to an ending other
      than its end of stream, and a relay that has returned has returned Ok. */
  lemma {:induction false} UndisturbedGoesOn(shared0: bool, shared1: bool, acts: seq<Action>, d: nat)
    requires Run(shared0, shared1, acts).Some? && d < 2
    requires forall k :: 0 <= k < |acts| ==> Harmless(acts[k])
    ensures var s := Run(shared0, shared1, acts).value;
      && d < |s.dirs| && !s.finished && !s.dirs[d].pc.SetFinished? && !s.dirs[d].pc.Releasing?
      && (s.dirs[d].pc.Over? ==> s.dirs[d].pc.how == Eof)
      && (s.main.Returned? ==> s.main.stats.Some?)
  {
    HarmlessDisturbsNothing(shared0, shared1, acts);
    RunFailsIff(shared0, shared1, acts);
    RunInv(shared0, shared1, acts);
    hide Run, Disturbed, Inv, Failing;
    NotFailing(Run(shared0, shared1, acts).value, d);
  }

  lemma NotFailing(s: Relay, d: nat)
    requires Inv(s) && !Failing(s) && d < 2
    ensures !s.finished && !s.dirs[d].pc.SetFinished? && !s.dirs[d].pc.Releasing? && (s.dirs[d].pc.Over? ==> s.dirs[d].pc.how == Eof)
    ensures s.main.Returned? ==> s.main.stats.Some?
  {
    hide BothSound, ReleasedSoFar, HookSoFar, Exclusive, HalvesClosed;
    if s.main.Returned? {
      assert Delivered(s.dirs[0], s.sides[0], s.main.stats.value.0) && Delivered(s.dirs[1], s.sides[1], s.main.stats.value.1);
    }
  }

  // --- one round of a direction ------------------------------------------------------------------

  /** The relay some more actions later. */
  function RunOn(s: Relay, more: seq<Action>): Option<Relay>
    decreases |more|
  {
    if more == [] then Some(s)
    else
      var next := Step(s, more[0]);
      if next.None? then None else RunOn(next.value, more[1..])
  }

  /** A running relay that nothing has gone against, with nobody inside either side. */
  predicate AtLeisure(s: Relay) {
    && Pair(s) && s.main == Running && !s.finished && !s.cancelled
    && s.sides[0].holder == None && s.sides[1].holder == None
  }

  /** The relay with direction d's account and the two sides replaced. */
  function With(s: Relay, d: nat, dir: Dir, src: Side, dst: Side): Relay
    requires d < 2 && Pair(s)
  {
    s.(dirs := s.dirs[d := dir], sides := s.sides[d := src][1 - d := dst])
  }

  /** A side with direction d inside it. */
  function Entered(side: Side, d: nat): Side {
    if side.shared then side else side.(holder := Some(d))
  }

  /** One access of direction d, for the run that goes on from it. */
  lemma {:induction false} Onward(s: Relay, d: nat, now: Now, io: Io, now': Now, more: seq<Action>)
    requires AtLeisure(s) && d < 2 && !now.finished && !now'.finished
    requires StepDir(now, d, false, io) == Some(now')
    ensures RunOn(With(s, d, now.dir, now.src, now.dst), [Move(d, io)] + more)
         == RunOn(With(s, d, now'.dir, now'.src, now'.dst), more)
  {
    hide StepDir;
    var t := With(s, d, now.dir, now.src, now.dst);
    assert NowOf(t, d) == now;
    assert Put(t, d, now') == With(s, d, now'.dir, now'.src, now'.dst);
    assert ([Move(d, io)] + more)[1..] == more;
  }

  lemma {:induction false} Stays(s: Relay, d: nat)
    requires Pair(s) && d < 2
    ensures With(s, d, s.dirs[d], s.sides[d], s.sides[1 - d]) == s
  {
  }

  /** The accesses that lead from the top of the loop into the read. */
  function IntoRead(d: nat, more: seq<Action>): seq<Action> {
    [Move(d, Ready)] + ([Move(d, Ready)] + ([Move(d, Ready)] + more))
  }

  lemma {:induction false} EntersRead(s: Relay, d: nat, more: seq<Action>)
    requires d < 2 && AtLeisure(s) && s.dirs[d].pc == Top
    ensures RunOn(s, IntoRead(d, more))
         == RunOn(With(s, d, s.dirs[d].(pc := Reading), Entered(s.sides[d], d), s.sides[1 - d]), more)
  {
    var now0 := NowOf(s, d);
    var now1, now2 := At(now0, CheckFinished), At(now0, StartRead);
    var now3 := At(now0, Reading).(src := Entered(now0.src, d));
    Stays(s, d);
    Onward(s, d, now0, Ready, now1, [Move(d, Ready)] + ([Move(d, Ready)] + more));
    Onward(s, d, now1, Ready, now2, [Move(d, Ready)] + more);
    Onward(s, d, now2, Ready, now3, more);
  }

  lemma {:induction false} OneMore(s: Relay, d: nat, now: Now, io: Io, now': Now)
    requires AtLeisure(s) && d < 2 && !now.finished && !now'.finished
    requires StepDir(now, d, false, io) == Some(now')
    ensures RunOn(With(s, d, now.dir, now.src, now.dst), [Move(d, io)])
         == Some(With(s, d, now'.dir, now'.src, now'.dst))
  {
    hide StepDir;
    Onward(s, d, now, io, now', []);
    assert [Move(d, io)] + [] == [Move(d, io)];
  }

  /** A read that would block only sends the direction round its loop: four accesses later the relay
      is exactly as it was. */
  lemma {:induction false} PollLeavesNoTrace(s: Relay, d: nat)
    requires d < 2 && AtLeisure(s) && s.dirs[d].pc == Top
    ensures RunOn(s, IntoRead(d, [Move(d, NotYet)])) == Some(s)
  {
    EntersRead(s, d, [Move(d, NotYet)]);
    Stays(s, d);
    hide IntoRead, RunOn, With;
    OneMore(s, d, At(NowOf(s, d), Reading).(src := Entered(s.sides[d], d)), NotYet, NowOf(s, d));
  }

  /** The end of the peer's stream is handed on as a half-close, and nothing else: the other
      direction still has everything to carry. */
  lemma {:induction false} EndOfStreamIsHandedOn(s: Relay, d: nat)
    requires d < 2 && AtLeisure(s) && s.dirs[d].pc == Top && s.sides[d].closed && s.sides[d].inbox == []
    ensures RunOn(s, IntoRead(d, [Move(d, EndOfStream)] + ([Move(d, Ready)] + [Move(d, Ready)])))
         == Some(With(s, d, s.dirs[d].(pc := Over(Eof)), s.sides[d], s.sides[1 - d].(writeShut := true)))
  {
    var now0 := NowOf(s, d);
    EntersRead(s, d, [Move(d, EndOfStream)] + ([Move(d, Ready)] + [Move(d, Ready)]));
    hide IntoRead, RunOn, With;
    Onward(s, d, At(now0, Reading).(src := Entered(now0.src, d)), EndOfStream, At(now0, CheckEof), [Move(d, Ready)] + [Move(d, Ready)]);
    Onward(s, d, At(now0, CheckEof), Ready, At(now0, HalfClose), [Move(d, Ready)]);
    OneMore(s, d, At(now0, HalfClose), Ready, At(now0, Over(Eof)).(dst := now0.dst.(writeShut := true)));
  }

  /** The lengths the transport takes, write by write, and their sum. */
  function Sum(cuts: seq<nat>): nat {
    if cuts == [] then 0 else cuts[0] + Sum(cuts[1..])
  }

  function Writes(d: nat, cuts: seq<nat>, more: seq<Action>): seq<Action> {
    if cuts == [] then more else [Move(d, Wrote(cuts[0]))] + Writes(d, cuts[1..], more)
  }

  /** However the transport cuts it, the chunk goes out whole. */
  lemma {:induction false} WritesWhole(s: Relay, d: nat, now: Now, cuts: seq<nat>, more: seq<Action>)
    requires AtLeisure(s) && d < 2 && !now.finished && now.dir.pc.Writing?
    requires (forall k :: 0 <= k < |cuts| ==> cuts[k] > 0)
    requires now.dir.pc.written + Sum(cuts) == |now.dir.pc.chunk|
    ensures var chunk, w := now.dir.pc.chunk, now.dir.pc.written;
      RunOn(With(s, d, now.dir, now.src, now.dst), Writes(d, cuts, more))
      == RunOn(With(s, d, now.dir.(pc := Writing(chunk, |chunk|), put := now.dir.put + chunk[w..]), now.src, now.dst), more)
    decreases |cuts|
  {
    var chunk, w := now.dir.pc.chunk, now.dir.pc.written;
    hide RunOn, With;
    if cuts == [] {
      assert chunk[w..] == [];
      assert now.dir.(pc := Writing(chunk, |chunk|), put := now.dir.put + chunk[w..]) == now.dir;
    } else {
      var n := cuts[0];
      var now' := now.(dir := now.dir.(pc := Writing(chunk, w + n), put := now.dir.put + chunk[w..w + n]));
      Onward(s, d, now, Wrote(n), now', Writes(d, cuts[1..], more));
      WritesWhole(s, d, now', cuts[1..], more);
      WrittenOn(now.dir.put, chunk, w, n);
    }
  }

  /** A chunk of n bytes, read and written in the given cuts. */
  function Round(d: nat, n: nat, cuts: seq<nat>): seq<Action> {
    IntoRead(d, [Move(d, Data(n))] + ([Move(d, Ready)] + Writes(d, cuts, [Move(d, Ready)] + ([Move(d, Ready)] + [Move(d, Ready)]))))
  }

  /** One round of the loop carries the next n bytes across, however the transport cuts them: they
      leave the source's inbox, reach the destination in order, and are counted and recorded once;
      nothing else about the relay changes. */
  lemma {:induction false} RoundCarriesChunk(s: Relay, d: nat, n: nat, cuts: seq<nat>)
    requires d < 2 && AtLeisure(s) && s.dirs[d].pc == Top
    requires 1 <= n <= |s.sides[d].inbox| && n <= 32768
    requires Sum(cuts) == n && forall k :: 0 <= k < |cuts| ==> cuts[k] > 0
    ensures RunOn(s, Round(d, n, cuts)) == Some(Carried(s, d, n))
  {
    var now, ready := Holding(NowOf(s, d), n), [Move(d, Ready)];
    ReadsChunk(s, d, n, Writes(d, cuts, ready + (ready + ready)));
    WritesChunk(s, d, now, cuts);
    CarriedIs(s, d, n);
    hide RunOn, With, Writes, IntoRead, Sum, AtLeisure, Entered;
  }

  /** The relay with the next n bytes of direction d's source carried across. */
  function Carried(s: Relay, d: nat, n: nat): Relay
    requires d < 2 && Pair(s) && n <= |s.sides[d].inbox|
  {
    var dir, side, chunk := s.dirs[d], s.sides[d], s.sides[d].inbox[..n];
    With(s, d, dir.(got := dir.got + chunk, put := dir.put + chunk, stat := dir.stat + n, recorded := dir.recorded + n),
         side.(inbox := side.inbox[n..]), s.sides[1 - d])
  }

  lemma {:induction false} CarriedIs(s: Relay, d: nat, n: nat)
    requires d < 2 && Pair(s) && n <= |s.sides[d].inbox| && s.dirs[d].pc == Top
    ensures var now := Holding(NowOf(s, d), n);
      var chunk := now.dir.pc.chunk;
      |chunk| == n
      && Carried(s, d, n)
         == With(s, d, now.dir.(pc := Top, put := now.dir.put + chunk, stat := now.dir.stat + n, recorded := now.dir.recorded + n),
                 now.src, now.dst)
  {
  }

  /** With a chunk of n bytes read and nothing of it written. */
  function Holding(now: Now, n: nat): Now
    requires n <= |now.src.inbox|
  {
    now.(src := now.src.(inbox := now.src.inbox[n..]),
         dir := now.dir.(pc := Writing(now.src.inbox[..n], 0), got := now.dir.got + now.src.inbox[..n]))
  }

  lemma {:induction false} ReadsChunk(s: Relay, d: nat, n: nat, more: seq<Action>)
    requires d < 2 && AtLeisure(s) && s.dirs[d].pc == Top
    requires 1 <= n <= |s.sides[d].inbox| && n <= BUFFER
    ensures var now := Holding(NowOf(s, d), n);
      RunOn(s, IntoRead(d, [Move(d, Data(n))] + ([Move(d, Ready)] + more)))
      == RunOn(With(s, d, now.dir, now.src, Entered(now.dst, d)), more)
  {
    var now0 := NowOf(s, d);
    var now2 := Holding(now0, n);
    var now1 := At(now2, StartWrite(now0.src.inbox[..n]));
    EntersRead(s, d, [Move(d, Data(n))] + ([Move(d, Ready)] + more));
    hide IntoRead, RunOn, With;
    Onward(s, d, At(now0, Reading).(src := Entered(now0.src, d)), Data(n), now1, [Move(d, Ready)] + more);
    Onward(s, d, now1, Ready, now2.(dst := Entered(now2.dst, d)), more);
  }

  lemma {:induction false} WritesChunk(s: Relay, d: nat, now: Now, cuts: seq<nat>)
    requires AtLeisure(s) && d < 2 && !now.finished && now.dst.holder == None && now.dir.pc.Writing?
    requires now.dir.pc.written == 0 && Sum(cuts) == |now.dir.pc.chunk| && forall k :: 0 <= k < |cuts| ==> cuts[k] > 0
    ensures var ready, chunk, n := [Move(d, Ready)], now.dir.pc.chunk, |now.dir.pc.chunk|;
      RunOn(With(s, d, now.dir, now.src, Entered(now.dst, d)), Writes(d, cuts, ready + (ready + ready)))
      == Some(With(s, d, now.dir.(pc := Top, put := now.dir.put + chunk, stat := now.dir.stat + n, recorded := now.dir.recorded + n),
                   now.src, now.dst))
  {
    hide RunOn, With, Writes, StepDir;
    var chunk, ready := now.dir.pc.chunk, [Move(d, Ready)];
    WritesWhole(s, d, now.(dst := Entered(now.dst, d)), cuts, ready + (ready + ready));
    assert chunk[0..] == chunk;
    CountsChunk(s, d, now.(dir := now.dir.(put := now.dir.put + chunk)), chunk);
  }

  lemma {:induction false} CountsChunk(s: Relay, d: nat, now: Now, chunk: seq<byte>)
    requires AtLeisure(s) && d < 2 && !now.finished && now.dst.holder == None
    ensures var ready := [Move(d, Ready)];
      RunOn(With(s, d, now.dir.(pc := Writing(chunk, |chunk|)), now.src, Entered(now.dst, d)), ready + (ready + ready))
      == Some(With(s, d, now.dir.(pc := Top, stat := now.dir.stat + |chunk|, recorded := now.dir.recorded + |chunk|), now.src, now.dst))
  {
    hide RunOn, With;
    var ready := [Move(d, Ready)];
    var now1 := At(now, Account(|chunk|));
    var now2 := now.(dir := now.dir.(pc := Record(|chunk|), stat := now.dir.stat + |chunk|));
    var now3 := now2.(dir := now2.dir.(pc := Top, recorded := now.dir.recorded + |chunk|));
    Onward(s, d, At(now, Writing(chunk, |chunk|)).(dst := Entered(now.dst, d)), Ready, now1, ready + ready);
    Onward(s, d, now1, Ready, now2, ready);
    OneMore(s, d, now2, Ready, now3);
  }

  // --- who has shut a write half -----------------------------------------------------------------

  /** `todo` is the last part of `all`. */
  predicate TailIn(all: seq<nat>, todo: seq<nat>) {
    todo == all || todo == [] || (|all| == 2 && todo == [all[1]])
  }

  /** Direction e has shut side x's write half, or tried to: by its releases so far, or by its
      finished half-close. */
  ghost predicate ShutByDir(pc: Pc, e: nat, x: nat)
    requires e < 2
  {
    match pc
    case Releasing(how, todo) => x in ReleasedBy(how, e) && x !in todo
    case Over(how) => x in ReleasedBy(how, e) || (how == Eof && x == 1 - e)
    case _ => false
  }

  ghost predicate EndsInOrder(pc: Pc, e: nat)
    requires e < 2
  {
    pc.Releasing? ==> TailIn(ReleasedBy(pc.how, e), pc.todo)
  }

  /** Somebody has shut side x's write half: the hook past it, a direction, or an aborted start. */
  ghost predicate ShutBySomebody(s: Relay, x: nat)
    requires Pair(s)
  {
    || (s.hook.Some? && x !in s.hook.value)
    || ShutByDir(s.dirs[0].pc, 0, x) || ShutByDir(s.dirs[1].pc, 1, x)
    || s.main.Aborting? || s.main.Returned?
  }

  /** A write half is shut only by somebody who has done so. */
  ghost predicate Accounted(s: Relay) {
    && Pair(s)
    && EndsInOrder(s.dirs[0].pc, 0) && EndsInOrder(s.dirs[1].pc, 1)
    && (s.hook.Some? ==> s.hook.value in [[0, 1], [1], []])
    && (s.main == Starting || s.main == Registering ==> s.hook == None)
    && (s.sides[0].writeShut ==> ShutBySomebody(s, 0))
    && (s.sides[1].writeShut ==> ShutBySomebody(s, 1))
  }

  /** What one step of direction d does to the write halves, and what it has then done. */
  ghost predicate ShutsItsOwn(now: Now, now': Now, d: nat)
    requires d < 2
  {
    && EndsInOrder(now'.dir.pc, d)
    && (ShutByDir(now.dir.pc, d, 0) ==> ShutByDir(now'.dir.pc, d, 0))
    && (ShutByDir(now.dir.pc, d, 1) ==> ShutByDir(now'.dir.pc, d, 1))
    && (now'.src.writeShut ==> now.src.writeShut || ShutByDir(now'.dir.pc, d, d))
    && (now'.dst.writeShut ==> now.dst.writeShut || ShutByDir(now'.dir.pc, d, 1 - d))
  }

  lemma ReadShuts(now: Now, d: nat, cancelled: bool, io: Io)
    requires d < 2 && InRead(now.dir.pc) && StepRead(now, d, cancelled, io).Some?
    ensures ShutsItsOwn(now, StepRead(now, d, cancelled, io).value, d)
  {
    hide ReleasedBy;
  }

  lemma WriteShuts(now: Now, d: nat, io: Io)
    requires d < 2 && InWrite(now.dir.pc) && StepWrite(now, d, io).Some?
    ensures ShutsItsOwn(now, StepWrite(now, d, io).value, d)
  {
    hide ReleasedBy;
  }

  lemma ReleasedOnce(how: Ending, d: nat)
    requires d < 2
    ensures var all := ReleasedBy(how, d); |all| <= 2 && (|all| == 2 ==> all[0] != all[1])
    ensures forall x :: x in ReleasedBy(how, d) ==> x < 2
  {
  }

  lemma TailStep(all: seq<nat>, todo: seq<nat>)
    requires |all| <= 2 && (|all| == 2 ==> all[0] != all[1]) && TailIn(all, todo) && todo != []
    ensures TailIn(all, todo[1..]) && todo[0] in all && todo[0] !in todo[1..]
    ensures forall x :: x in todo <==> x == todo[0] || x in todo[1..]
  {
    if |all| == 2 && todo == all {
      assert todo[1..] == [all[1]];
    } else {
      assert todo[1..] == [];
    }
  }

  lemma FinishShuts(now: Now, d: nat)
    requires d < 2 && now.dir.pc.SetFinished? && StepEnd(now, d).Some?
    ensures ShutsItsOwn(now, StepEnd(now, d).value, d)
  {
    hide ReleasedBy;
  }

  lemma ReleaseShuts(now: Now, d: nat)
    requires d < 2 && now.dir.pc.Releasing? && EndsInOrder(now.dir.pc, d) && StepEnd(now, d).Some?
    ensures ShutsItsOwn(now, StepEnd(now, d).value, d)
  {
    hide ReleasedBy, TailIn;
    ReleasedOnce(now.dir.pc.how, d);
    if now.dir.pc.todo != [] {
      TailStep(ReleasedBy(now.dir.pc.how, d), now.dir.pc.todo);
    }
  }

  lemma DirShuts(now: Now, d: nat, cancelled: bool, io: Io)
    requires d < 2 && EndsInOrder(now.dir.pc, d) && StepDir(now, d, cancelled, io).Some?
    ensures ShutsItsOwn(now, StepDir(now, d, cancelled, io).value, d)
  {
    hide ShutsItsOwn, StepWrite, StepEnd, EndsInOrder;
    if InWrite(now.dir.pc) {
      WriteShuts(now, d, io);
    } else if now.dir.pc.SetFinished? {
      FinishShuts(now, d);
    } else if now.dir.pc.Releasing? {
      ReleaseShuts(now, d);
    } else {
      ReadShuts(now, d, cancelled, io);
    }
  }

  lemma MoveAccounted(s: Relay, d: nat, io: Io)
    requires Accounted(s) && Step(s, Move(d, io)).Some?
    ensures Accounted(Step(s, Move(d, io)).value)
  {
    DirShuts(NowOf(s, d), d, s.cancelled, io);
    hide StepDir, ShutByDir, EndsInOrder;
  }

  lemma HookAccounted(s: Relay)
    requires Accounted(s) && Step(s, HookStep).Some?
    ensures Accounted(Step(s, HookStep).value)
  {
    hide ShutByDir, EndsInOrder;
    assert [0, 1][1..] == [1] && [1][1..] == [];
  }

  lemma MainAccounted(s: Relay, spawns: bool)
    requires Accounted(s) && Step(s, Main(spawns)).Some?
    ensures Accounted(Step(s, Main(spawns)).value)
  {
    hide ShutByDir, EndsInOrder, Outcome;
  }

  lemma RestAccounted(s: Relay, a: Action)
    requires Accounted(s) && !a.Move? && Step(s, a).Some?
    ensures Accounted(Step(s, a).value)
  {
    if a.HookStep? {
      HookAccounted(s);
    } else if a.Main? {
      MainAccounted(s, a.spawns);
    } else {
      hide ShutByDir, EndsInOrder;
    }
  }

  lemma {:induction false} RunAccounted(shared0: bool, shared1: bool, acts: seq<Action>)
    requires Run(shared0, shared1, acts).Some?
    ensures Accounted(Run(shared0, shared1, acts).value)
  {
    if acts != [] {
      var before, a := acts[..|acts| - 1], acts[|acts| - 1];
      RunAccounted(shared0, shared1, before);
      hide Accounted, Step;
      if a.Move? {
        MoveAccounted(Run(shared0, shared1, before).value, a.d, a.io);
      } else {
        RestAccounted(Run(shared0, shared1, before).value, a);
      }
    }
  }

  /** When the direction that set `finished` is over and its partner is in a write on a shared side,
      that side's write half is still open exactly if the ending was the one that releases only its
      destination and the cancel hook has not come to the side yet. */
  lemma WriterLeftOpenIff(s: Relay, d: nat)
    requires Reachable(s) && d < 2 && |s.dirs| == 2 && |s.sides| == 2 && s.main == Running
    requires s.dirs[d].pc.Over? && Setter(s.dirs[d].pc.how) && s.dirs[1 - d].pc.Writing? && s.sides[d].shared
    ensures !s.sides[d].writeShut
       <==> s.dirs[d].pc.how == CancelledAtEof && s.hook.Some? && d in s.hook.value
  {
    EndingReleases(s, d);
    var shared0, shared1, acts :| Run(shared0, shared1, acts) == Some(s);
    RunAccounted(shared0, shared1, acts);
    if s.dirs[d].pc.how == CancelledAtEof && s.hook.Some? && d in s.hook.value {
      assert !ShutByDir(s.dirs[d].pc, d, d) && !ShutByDir(s.dirs[1 - d].pc, 1 - d, d);
      assert !ShutBySomebody(s, d);
    }
  }

  /** Once the direction that set `finished` is over, its partner is not parked in a read on a
      shared side that is still open. In a write it is left on an open shared side exactly after the
      one ending that releases only its destination, until the cancel hook comes to that side. */
  lemma PartnerIsReleased(s: Relay, d: nat)
    requires Reachable(s) && d < 2 && |s.dirs| == 2 && |s.sides| == 2
    requires s.dirs[d].pc.Over? && Setter(s.dirs[d].pc.how)
    ensures s.dirs[1 - d].pc == Reading && s.sides[1 - d].shared ==> s.sides[1 - d].readShut
    ensures s.dirs[1 - d].pc.Writing? && s.sides[d].shared && !s.sides[d].writeShut ==>
              s.dirs[d].pc.how == CancelledAtEof && s.cancelled
    ensures s.dirs[1 - d].pc.Writing? && s.sides[d].shared && s.main == Running ==>
      (!s.sides[d].writeShut <==> s.dirs[d].pc.how == CancelledAtEof && s.hook.Some? && d in s.hook.value)
  {
    EndingReleases(s, d);
    hide Inv, Accounted, Reachable, Run;
    if s.dirs[1 - d].pc.Writing? && s.sides[d].shared && s.main == Running {
      WriterLeftOpenIff(s, d);
    }
  }

  // --- it ends ---------------------------------------------------------------------------------

  /** A bound on the steps a direction has left once `finished` is set or the token is cancelled:
      after a cancellation alone it may still be past the check of the token and read once more. */
  function Fuel(pc: Pc, finished: bool): nat {
    match pc
    case CheckFinished => if finished then 6 else BUFFER + 14
    case StartRead => BUFFER + 13
    case Reading => BUFFER + 12
    case StartWrite(chunk) => |chunk| + 11
    case Writing(chunk, written) => 10 + if written <= |chunk| then |chunk| - written else 0
    case Account(_) => 9
    case Record(_) => 8
    case CheckEof => 8
    case HalfClose => 7
    case Top => 7
    case SetFinished(_) => 5
    case Releasing(_, todo) => 1 + |todo|
    case Over(_) => 0
  }

  predicate Burns(now: Now, now': Now) {
    (now.finished ==> now'.finished) && Fuel(now'.dir.pc, now'.finished) < Fuel(now.dir.pc, now.finished)
  }

  lemma FuelBurnsReading(now: Now, d: nat, cancelled: bool, io: Io)
    requires (now.finished || cancelled) && InRead(now.dir.pc) && StepRead(now, d, cancelled, io).Some?
    ensures Burns(now, StepRead(now, d, cancelled, io).value)
  {
  }

  lemma FuelBurnsWriting(now: Now, d: nat, io: Io)
    requires InWrite(now.dir.pc) && StepWrite(now, d, io).Some?
    ensures Burns(now, StepWrite(now, d, io).value)
  {
  }

  lemma FuelBurnsEnding(now: Now, d: nat)
    requires d < 2 && StepEnd(now, d).Some?
    ensures Burns(now, StepEnd(now, d).value)
  {
  }

  lemma FuelBurns(now: Now, d: nat, cancelled: bool, io: Io)
    requires (now.finished || cancelled) && d < 2 && StepDir(now, d, cancelled, io).Some?
    ensures Burns(now, StepDir(now, d, cancelled, io).value)
  {
    hide Burns, StepWrite, StepEnd;
    if InWrite(now.dir.pc) {
      FuelBurnsWriting(now, d, io);
    } else if now.dir.pc.SetFinished? || now.dir.pc.Releasing? {
      FuelBurnsEnding(now, d);
    } else {
      FuelBurnsReading(now, d, cancelled, io);
    }
  }

  function MovesOf(acts: seq<Action>, d: nat): nat {
    if acts == [] then 0
    else MovesOf(acts[..|acts| - 1], d) + if acts[|acts| - 1].Move? && acts[|acts| - 1].d == d then 1 else 0
  }

  /** Nothing new is to come. */
  predicate WindingUp(s: Relay) {
    |s.dirs| == 2 && |s.sides| == 2 && (s.finished || s.cancelled)
  }

  function FuelOf(s: Relay, d: nat): nat
    requires d < |s.dirs|
  {
    Fuel(s.dirs[d].pc, s.finished)
  }

  lemma FlagBurnsNoLess(pc: Pc)
    ensures Fuel(pc, true) <= Fuel(pc, false)
  {
  }

  lemma OthersLeaveFuel(s: Relay, a: Action, d: nat)
    requires d < 2 && WindingUp(s) && Step(s, a).Some? && !(a.Move? && a.d == d)
    ensures WindingUp(Step(s, a).value) && FuelOf(Step(s, a).value, d) <= FuelOf(s, d)
  {
    hide StepDir, Fuel;
    FlagBurnsNoLess(s.dirs[d].pc);
    if a.Move? {
      FuelBurns(NowOf(s, a.d), a.d, s.cancelled, a.io);
    }
  }

  lemma OwnMovesBurnFuel(s: Relay, d: nat, io: Io)
    requires d < 2 && WindingUp(s) && Step(s, Move(d, io)).Some?
    ensures WindingUp(Step(s, Move(d, io)).value) && FuelOf(Step(s, Move(d, io)).value, d) < FuelOf(s, d)
  {
    hide StepDir, Fuel;
    FuelBurns(NowOf(s, d), d, s.cancelled, io);
  }

  lemma LastStep(shared0: bool, shared1: bool, before: seq<Action>, a: Action, all: seq<Action>)
    requires all == before + [a] && Run(shared0, shared1, all).Some?
    ensures Run(shared0, shared1, before).Some?
    ensures Run(shared0, shared1, all) == Step(Run(shared0, shared1, before).value, a)
  {
    assert all[..|all| - 1] == before;
  }

  /** Once `finished` is set or the token is cancelled the relay ends: whatever everybody else does
      meanwhile, a direction has no more than a fixed number of steps left, of which fewer and fewer
      as it takes them. */
  lemma {:induction false} WindingUpEnds(shared0: bool, shared1: bool, acts: seq<Action>, more: seq<Action>, d: nat)
    requires d < 2 && Run(shared0, shared1, acts).Some? && Run(shared0, shared1, acts + more).Some?
    requires WindingUp(Run(shared0, shared1, acts).value)
    ensures WindingUp(Run(shared0, shared1, acts + more).value)
    ensures MovesOf(more, d) + FuelOf(Run(shared0, shared1, acts + more).value, d)
         <= FuelOf(Run(shared0, shared1, acts).value, d)
  {
    if more == [] {
      assert acts + more == acts;
    } else {
      var before, a := more[..|more| - 1], more[|more| - 1];
      LastStep(shared0, shared1, acts + before, a, acts + more);
      hide Run, Step, WindingUp, FuelOf;
      WindingUpEnds(shared0, shared1, acts, before, d);
      var t := Run(shared0, shared1, acts + before).value;
      if a.Move? && a.d == d {
        OwnMovesBurnFuel(t, d, a.io);
      } else {
        OthersLeaveFuel(t, a, d);
      }
    }
  }

  ghost predicate CanStep(s: Relay, d: nat) {
    exists io :: Step(s, Move(d, io)).Some?
  }

  /** A transport may always fail, and that moves whoever is not waiting for a lock. */
  lemma FaultMoves(s: Relay, d: nat)
    requires s.main == Running && d < 2 && |s.dirs| == 2 && |s.sides| == 2 && !s.dirs[d].pc.Over?
    requires s.dirs[d].pc == StartRead ==> s.sides[d].shared || s.sides[d].holder == None
    requires s.dirs[d].pc.StartWrite? ==> s.sides[1 - d].shared || s.sides[1 - d].holder == None
    ensures CanStep(s, d)
  {
    hide ReleasedBy;
    assert Step(s, Move(d, Fault)).Some?;
  }

  /** And it does not stand still: a direction that is not over can be let through by its transport,
      unless it waits for the lock of a serialized side that its partner holds inside a read or a
      write, and then the partner can. */
  lemma SomeDirectionMoves(s: Relay, d: nat)
    requires Reachable(s) && s.main == Running && d < 2 && |s.dirs| == 2 && |s.sides| == 2 && !s.dirs[d].pc.Over?
    ensures CanStep(s, d) || ((s.dirs[1 - d].pc == Reading || s.dirs[1 - d].pc.Writing?) && CanStep(s, 1 - d))
  {
    ReachableInv(s);
    assert Exclusive(s.sides[d], d, s.dirs[d].pc, s.dirs[1 - d].pc);
    assert Exclusive(s.sides[1 - d], 1 - d, s.dirs[1 - d].pc, s.dirs[d].pc);
    hide Inv, CanStep;
    if (s.dirs[d].pc == StartRead && !s.sides[d].shared && s.sides[d].holder.Some?)
    || (s.dirs[d].pc.StartWrite? && !s.sides[1 - d].shared && s.sides[1 - d].holder.Some?) {
      FaultMoves(s, 1 - d);
    } else {
      FaultMoves(s, d);
    }
  }

  // --- starts that come to nothing -----------------------------------------------------------------

  predicate BothShut(side: Side) {
    side.readShut && side.writeShut
  }

  /** Before the directions run they have done nothing; a start given up shuts both sides, shared or
      not, one after the other. */
  ghost predicate Unstarted(s: Relay) {
    && Pair(s)
    && (s.main == Starting || s.main == Registering || s.main == Spawning || s.main.Aborting? ==> s.dirs == [NewDir, NewDir])
    && (s.main.Aborting? ==>
          && s.main.todo in [[0, 1], [1], []]
          && forall x :: 0 <= x < 2 && x !in s.main.todo ==> BothShut(s.sides[x]))
    && (s.main.Returned? ==>
          || (s.dirs[0].pc.Over? && s.dirs[1].pc.Over?)
          || (s.dirs == [NewDir, NewDir] && s.main.stats == None && BothShut(s.sides[0]) && BothShut(s.sides[1])))
  }

  lemma UnstartedAborts(s: Relay)
    requires Unstarted(s) && s.main.Aborting? && Step(s, Main(true)).Some?
    requires s.sides[0].holder == None && s.sides[1].holder == None
    ensures Unstarted(Step(s, Main(true)).value)
  {
    assert [0, 1][1..] == [1] && [1][1..] == [];
  }

  lemma UnstartedMain(s: Relay, spawns: bool)
    requires Inv(s) && Unstarted(s) && Step(s, Main(spawns)).Some?
    ensures Unstarted(Step(s, Main(spawns)).value)
  {
    if s.main.Aborting? {
      assert Exclusive(s.sides[0], 0, s.dirs[0].pc, s.dirs[1].pc) && Exclusive(s.sides[1], 1, s.dirs[1].pc, s.dirs[0].pc);
      hide Inv;
      UnstartedAborts(s);
    }
    hide Inv, Outcome;
  }

  lemma UnstartedRest(s: Relay, a: Action)
    requires Unstarted(s) && !a.Main? && Step(s, a).Some?
    ensures Unstarted(Step(s, a).value)
  {
    hide StepDir;
  }

  lemma {:induction false} RunUnstarted(shared0: bool, shared1: bool, acts: seq<Action>)
    requires Run(shared0, shared1, acts).Some?
    ensures Unstarted(Run(shared0, shared1, acts).value)
  {
    if acts != [] {
      var before, a := acts[..|acts| - 1], acts[|acts| - 1];
      RunUnstarted(shared0, shared1, before);
      RunInv(shared0, shared1, before);
      hide Unstarted, Step, Inv;
      if a.Main? {
        UnstartedMain(Run(shared0, shared1, before).value, a.spawns);
      } else {
        UnstartedRest(Run(shared0, shared1, before).value, a);
      }
    }
  }

  /** A relay that has returned has run both directions to their ends, or has touched no byte and
      returned the error with both halves of both sides shut. */
  lemma ReturnsNothingOpen(s: Relay)
    requires Reachable(s) && s.main.Returned?
    ensures |s.dirs| == 2 && |s.sides| == 2
    ensures (s.dirs[0].pc.Over? && s.dirs[1].pc.Over?)
         || (s.dirs == [NewDir, NewDir] && s.main.stats == None && BothShut(s.sides[0]) && BothShut(s.sides[1]))
  {
    var shared0, shared1, acts :| Run(shared0, shared1, acts) == Some(s);
    RunUnstarted(shared0, shared1, acts);
  }

  /** Given up, or about to be. */
  predicate Refused(s: Relay) {
    s.cancelled && s.dirs == [NewDir, NewDir] && (s.main == Starting || s.main.Aborting? || s.main == Returned(None))
  }

  lemma StaysRefused(s: Relay, a: Action)
    requires Refused(s) && Step(s, a).Some?
    ensures Refused(Step(s, a).value)
  {
  }

  /** A relay called with its token cancelled starts no direction, whatever happens next. */
  lemma {:induction false} CancelledStartRunsNothing(shared0: bool, shared1: bool, acts: seq<Action>, more: seq<Action>)
    requires Run(shared0, shared1, acts).Some? && Run(shared0, shared1, acts + more).Some?
    requires Run(shared0, shared1, acts).value.main == Starting && Run(shared0, shared1, acts).value.cancelled
    ensures Refused(Run(shared0, shared1, acts + more).value)
  {
    if more == [] {
      assert acts + more == acts;
      RunUnstarted(shared0, shared1, acts);
    } else {
      var before, a := more[..|more| - 1], more[|more| - 1];
      LastStep(shared0, shared1, acts + before, a, acts + more);
      hide Run, Step, Refused;
      CancelledStartRunsNothing(shared0, shared1, acts, before);
      StaysRefused(Run(shared0, shared1, acts + before).value, a);
    }
  }

  // --- how a direction ends ------------------------------------------------------------------------

  lemma ReadUpset(now: Now, d: nat, cancelled: bool, io: Io)
    requires d < 2 && now.dir.pc == Reading && Upsets(now.dir.pc, io)
    ensures StepDir(now, d, cancelled, io)
         == Some(At(now, SetFinished(if io == Panic then Panicked else Failed)).(src := Unlock(now.src)))
  {
  }

  lemma WriteUpset(now: Now, d: nat, cancelled: bool, io: Io)
    requires d < 2 && now.dir.pc.Writing? && Upsets(now.dir.pc, io)
    ensures StepDir(now, d, cancelled, io)
         == Some(At(now, SetFinished(if io == Panic then Panicked else Failed)).(dst := Unlock(now.dst)))
  {
  }

  lemma RecordUpset(now: Now, d: nat, cancelled: bool, io: Io)
    requires d < 2 && now.dir.pc.Record? && Upsets(now.dir.pc, io)
    ensures StepDir(now, d, cancelled, io) == Some(At(now, SetFinished(Panicked))) && io == Panic
  {
  }

  /** What goes against a direction ends it there and then, with the lock it held given back: by a
      panic as a panic, otherwise as a failure. */
  lemma UpsetEndsIt(s: Relay, d: nat, io: Io)
    requires Reachable(s) && d < 2 && |s.dirs| == 2 && |s.sides| == 2 && s.main == Running && Upsets(s.dirs[d].pc, io)
    ensures Step(s, Move(d, io)).Some?
    ensures var t := Step(s, Move(d, io)).value;
      && |t.dirs| == 2 && |t.sides| == 2
      && t.dirs[d].pc == SetFinished(if io == Panic then Panicked else Failed)
      && t.sides[0].holder != Some(d) && t.sides[1].holder != Some(d)
  {
    ReachableInv(s);
    assert Exclusive(s.sides[d], d, s.dirs[d].pc, s.dirs[1 - d].pc);
    assert Exclusive(s.sides[1 - d], 1 - d, s.dirs[1 - d].pc, s.dirs[d].pc);
    var now := NowOf(s, d);
    hide Inv, StepDir;
    if now.dir.pc == Reading {
      ReadUpset(now, d, s.cancelled, io);
    } else if now.dir.pc.Writing? {
      WriteUpset(now, d, s.cancelled, io);
    } else {
      RecordUpset(now, d, s.cancelled, io);
    }
    hide Exclusive, Upsets;
    LocksAfter(s, d, io, StepDir(now, d, s.cancelled, io).value);
  }

  lemma LocksAfter(s: Relay, d: nat, io: Io, now': Now)
    requires d < 2 && |s.dirs| == 2 && |s.sides| == 2 && s.main == Running
    requires StepDir(NowOf(s, d), d, s.cancelled, io) == Some(now')
    ensures Step(s, Move(d, io)).Some?
    ensures var t := Step(s, Move(d, io)).value;
      && |t.dirs| == 2 && |t.sides| == 2 && t.dirs[d] == now'.dir && t.sides[d] == now'.src && t.sides[1 - d] == now'.dst
  {
    hide StepDir;
  }

  /** A direction that was cancelled at the top of its loop, or failed, releases its source before its
      destination; one that panicked releases side 0 first. */
  lemma ReleasesInOrder(s: Relay, d: nat)
    requires Reachable(s) && d < 2 && |s.dirs| == 2 && s.dirs[d].pc.Releasing?
    ensures var how, todo := s.dirs[d].pc.how, s.dirs[d].pc.todo;
      && (how == CancelledAtTop || how == Failed ==> d in todo ==> 1 - d in todo)
      && (how == Panicked ==> 0 in todo ==> 1 in todo)
      && (how == CancelledAtEof ==> d !in todo)
  {
    var shared0, shared1, acts :| Run(shared0, shared1, acts) == Some(s);
    RunAccounted(shared0, shared1, acts);
    hide Run, ShutBySomebody, EndsInOrder;
    TailsInOrder(s.dirs[d].pc, d);
  }

  lemma TailsInOrder(pc: Pc, d: nat)
    requires d < 2 && pc.Releasing? && EndsInOrder(pc, d)
    ensures pc.how == CancelledAtTop || pc.how == Failed ==> d in pc.todo ==> 1 - d in pc.todo
    ensures pc.how == Panicked ==> 0 in pc.todo ==> 1 in pc.todo
    ensures pc.how == CancelledAtEof ==> d !in pc.todo
  {
  }

  /** No chunk is larger than the buffer. */
  predicate ChunkFits(pc: Pc) {
    match pc
    case StartWrite(chunk) => |chunk| <= 32768
    case Writing(chunk, _) => |chunk| <= 32768
    case _ => true
  }

  lemma ReadChunkFits(now: Now, d: nat, cancelled: bool, io: Io)
    requires InRead(now.dir.pc) && StepRead(now, d, cancelled, io).Some?
    ensures ChunkFits(StepRead(now, d, cancelled, io).value.dir.pc)
  {
  }

  lemma WriteChunkFits(now: Now, d: nat, io: Io)
    requires InWrite(now.dir.pc) && ChunkFits(now.dir.pc) && StepWrite(now, d, io).Some?
    ensures ChunkFits(StepWrite(now, d, io).value.dir.pc)
  {
  }

  lemma DirChunkFits(now: Now, d: nat, cancelled: bool, io: Io)
    requires d < 2 && ChunkFits(now.dir.pc) && StepDir(now, d, cancelled, io).Some?
    ensures ChunkFits(StepDir(now, d, cancelled, io).value.dir.pc)
  {
    hide StepRead, StepWrite;
    if InWrite(now.dir.pc) {
      WriteChunkFits(now, d, io);
    } else if !now.dir.pc.SetFinished? && !now.dir.pc.Releasing? && !now.dir.pc.Over? {
      ReadChunkFits(now, d, cancelled, io);
    } else if now.dir.pc.Over? {
      assert StepRead(now, d, cancelled, io) == None by {
        OverIsOver(now, d, cancelled, io);
      }
    }
  }

  lemma OverIsOver(now: Now, d: nat, cancelled: bool, io: Io)
    requires now.dir.pc.Over?
    ensures StepRead(now, d, cancelled, io) == None
  {
  }

  lemma StepChunkFits(s: Relay, a: Action)
    requires Pair(s) && ChunkFits(s.dirs[0].pc) && ChunkFits(s.dirs[1].pc) && Step(s, a).Some?
    ensures var t := Step(s, a).value; Pair(t) && ChunkFits(t.dirs[0].pc) && ChunkFits(t.dirs[1].pc)
  {
    hide StepDir, ChunkFits, Outcome;
    if a.Move? {
      DirChunkFits(NowOf(s, a.d), a.d, s.cancelled, a.io);
    }
  }

  lemma {:induction false} ChunksFit(shared0: bool, shared1: bool, acts: seq<Action>)
    requires Run(shared0, shared1, acts).Some?
    ensures var s := Run(shared0, shared1, acts).value; Pair(s) && ChunkFits(s.dirs[0].pc) && ChunkFits(s.dirs[1].pc)
  {
    if acts != [] {
      hide Step, ChunkFits;
      ChunksFit(shared0, shared1, acts[..|acts| - 1]);
      StepChunkFits(Run(shared0, shared1, acts[..|acts| - 1]).value, acts[|acts| - 1]);
    }
  }

  // --- what it does not promise ---------------------------------------------------------------

  lemma RunNone(shared0: bool, shared1: bool)
    ensures Run(shared0, shared1, []) == Some(Fresh(shared0, shared1))
  {
  }

  lemma RunStep(shared0: bool, shared1: bool, acts: seq<Action>, a: Action)
    requires Run(shared0, shared1, acts).Some?
    ensures Run(shared0, shared1, acts + [a]) == Step(Run(shared0, shared1, acts).value, a)
  {
    assert (acts + [a])[..|acts|] == acts;
  }

  /** A running relay between a shared and a serialized side, before any byte moves. */
  predicate Quiet(r: Option<Relay>, pc0: Pc, pc1: Pc, holder: Option<nat>, closed: bool) {
    && r.Some?
    && var s := r.value;
    && |s.dirs| == 2 && |s.sides| == 2 && s.main == Running && !s.finished && !s.cancelled
    && s.dirs[0].pc == pc0 && s.dirs[1].pc == pc1
    && s.sides[0].shared && s.sides[0].closed == closed && s.sides[0].inbox == []
    && !s.sides[1].shared && s.sides[1].holder == holder && !s.sides[1].writeShut
  }

  lemma QuietStart() returns (acts: seq<Action>)
    ensures Quiet(Run(true, false, acts), Top, Top, None, false)
  {
    hide Run;
    RunNone(true, false);
    RunStep(true, false, [], Main(true));
    RunStep(true, false, [] + [Main(true)], Main(true));
    RunStep(true, false, [] + [Main(true)] + [Main(true)], Main(true));
    acts := [] + [Main(true)] + [Main(true)] + [Main(true)];
  }

  /** A direction with nothing in the way walks from the top of its loop into its read. */
  lemma QuietReads(acts: seq<Action>, d: nat, other: Pc, closed: bool, holder: Option<nat>) returns (more: seq<Action>)
    requires d < 2 && (d == 1 ==> holder == None)
    requires Quiet(Run(true, false, acts), if d == 0 then Top else other, if d == 0 then other else Top, holder, closed)
    ensures Quiet(Run(true, false, more), if d == 0 then Reading else other, if d == 0 then other else Reading,
                  if d == 1 then Some(1) else holder, closed)
  {
    hide Run;
    var step := Move(d, Ready);
    RunStep(true, false, acts, step);
    RunStep(true, false, acts + [step], step);
    assert Quiet(Run(true, false, acts + [step] + [step]), if d == 0 then StartRead else other, if d == 0 then other else StartRead, holder, closed);
    RunStep(true, false, acts + [step] + [step], step);
    more := acts + [step] + [step] + [step];
  }

  lemma QuietCloses(acts: seq<Action>) returns (more: seq<Action>)
    requires Quiet(Run(true, false, acts), Reading, Reading, Some(1), true)
    ensures Quiet(Run(true, false, more), Over(Eof), Reading, Some(1), true)
  {
    hide Run;
    RunStep(true, false, acts, Move(0, EndOfStream));
    var a1 := acts + [Move(0, EndOfStream)];
    assert Quiet(Run(true, false, a1), CheckEof, Reading, Some(1), true);
    RunStep(true, false, a1, Move(0, Ready));
    var a2 := a1 + [Move(0, Ready)];
    assert Quiet(Run(true, false, a2), HalfClose, Reading, Some(1), true);
    RunStep(true, false, a2, Move(0, Ready));
    more := a2 + [Move(0, Ready)];
  }

  /** A half-close can miss a serialized side: while the partner reads it under its lock, the
      closing direction skips the shutdown and is over with the side's write half still open. */
  lemma HalfCloseCanBeSkipped() returns (acts: seq<Action>)
    ensures Quiet(Run(true, false, acts), Over(Eof), Reading, Some(1), true)
  {
    hide Run;
    var a0 := QuietStart();
    var a1 := QuietReads(a0, 1, Top, false, None);
    RunStep(true, false, a1, PeerCloses(0));
    var a2 := QuietReads(a1 + [PeerCloses(0)], 0, Reading, true, Some(1));
    acts := QuietCloses(a2);
  }

  /** A running relay between two shared sides: where the directions are, what waits to be read on
      side 1, and that nobody has shut side 0. */
  predicate Open(r: Option<Relay>, pc0: Pc, pc1: Pc, waiting: seq<byte>, closed: bool, cancelled: bool) {
    && r.Some?
    && var s := r.value;
    && |s.dirs| == 2 && |s.sides| == 2 && s.main == Running && s.cancelled == cancelled
    && s.dirs[0].pc == pc0 && s.dirs[1].pc == pc1
    && s.sides[0].shared && s.sides[0].closed == closed && s.sides[0].inbox == [] && !s.sides[0].writeShut
    && s.sides[1].shared && s.sides[1].inbox == waiting && !s.sides[1].closed
    && (s.finished ==> cancelled)
  }

  lemma OpenStarts() returns (acts: seq<Action>)
    ensures Open(Run(true, true, acts), Top, Top, [0], true, false)
  {
    hide Run;
    RunNone(true, true);
    RunStep(true, true, [], Main(true));
    RunStep(true, true, [] + [Main(true)], Main(true));
    RunStep(true, true, [] + [Main(true)] + [Main(true)], Main(true));
    acts := [] + [Main(true)] + [Main(true)] + [Main(true)];
    assert Open(Run(true, true, acts), Top, Top, [], false, false);
    RunStep(true, true, acts, Arrive(1, [0]));
    acts := acts + [Arrive(1, [0])];
    assert Open(Run(true, true, acts), Top, Top, [0], false, false);
    RunStep(true, true, acts, PeerCloses(0));
    acts := acts + [PeerCloses(0)];
  }

  lemma OpenReads(acts: seq<Action>, d: nat, other: Pc, waiting: seq<byte>) returns (more: seq<Action>)
    requires d < 2
    requires Open(Run(true, true, acts), if d == 0 then Top else other, if d == 0 then other else Top, waiting, true, false)
    ensures Open(Run(true, true, more), if d == 0 then Reading else other, if d == 0 then other else Reading, waiting, true, false)
  {
    hide Run;
    var step := Move(d, Ready);
    RunStep(true, true, acts, step);
    RunStep(true, true, acts + [step], step);
    assert Open(Run(true, true, acts + [step] + [step]), if d == 0 then StartRead else other, if d == 0 then other else StartRead, waiting, true, false);
    RunStep(true, true, acts + [step] + [step], step);
    more := acts + [step] + [step] + [step];
  }

  lemma OpenTakesByte(acts: seq<Action>)
    requires Open(Run(true, true, acts), Top, Reading, [0], true, false)
    ensures Open(Run(true, true, acts + [Move(1, Data(1))]), Top, StartWrite([0]), [], true, false)
  {
    RunStep(true, true, acts, Move(1, Data(1)));
    hide Run;
  }

  lemma OpenWrites(acts: seq<Action>) returns (more: seq<Action>)
    requires Open(Run(true, true, acts), Top, Reading, [0], true, false)
    ensures Open(Run(true, true, more), Top, Writing([0], 0), [], true, false)
  {
    hide Run;
    OpenTakesByte(acts);
    more := acts + [Move(1, Data(1))];
    RunStep(true, true, more, Move(1, Ready));
    more := more + [Move(1, Ready)];
  }

  lemma OpenIsCancelled(acts: seq<Action>) returns (more: seq<Action>)
    requires Open(Run(true, true, acts), Reading, Writing([0], 0), [], true, false)
    ensures Open(Run(true, true, more), SetFinished(CancelledAtEof), Writing([0], 0), [], true, true)
  {
    hide Run;
    RunStep(true, true, acts, Move(0, EndOfStream));
    more := acts + [Move(0, EndOfStream)];
    assert Open(Run(true, true, more), CheckEof, Writing([0], 0), [], true, false);
    RunStep(true, true, more, Cancel);
    more := more + [Cancel];
    assert Open(Run(true, true, more), CheckEof, Writing([0], 0), [], true, true);
    RunStep(true, true, more, Move(0, Ready));
    more := more + [Move(0, Ready)];
  }

  lemma OpenEnds(acts: seq<Action>) returns (more: seq<Action>)
    requires Open(Run(true, true, acts), SetFinished(CancelledAtEof), Writing([0], 0), [], true, true)
    ensures Open(Run(true, true, more), Over(CancelledAtEof), Writing([0], 0), [], true, true)
  {
    hide Run;
    RunStep(true, true, acts, Move(0, Ready));
    more := acts + [Move(0, Ready)];
    assert Open(Run(true, true, more), Releasing(CancelledAtEof, [1]), Writing([0], 0), [], true, true);
    RunStep(true, true, more, Move(0, Ready));
    more := more + [Move(0, Ready)];
    assert Open(Run(true, true, more), Releasing(CancelledAtEof, []), Writing([0], 0), [], true, true);
    RunStep(true, true, more, Move(0, Ready));
    more := more + [Move(0, Ready)];
  }

  /** The one ending PartnerIsReleased leaves to the cancel hook does come about: the direction that
      met its end of stream while cancelled is over, and its partner is still inside a write on a
      shared side whose write half nobody has shut. */
  lemma CancelledAtEofLeavesAWriter() returns (acts: seq<Action>)
    ensures Open(Run(true, true, acts), Over(CancelledAtEof), Writing([0], 0), [], true, true)
  {
    hide Run, Open;
    acts := OpenStarts();
    acts := OpenReads(acts, 1, Top, [0]);
    acts := OpenWrites(acts);
    acts := OpenReads(acts, 0, Writing([0], 0), []);
    acts := OpenIsCancelled(acts);
    acts := OpenEnds(acts);
  }

  /** A running relay between two shared sides whose peers have both closed, undisturbed: where the
      directions are, what waits on side 1, and what has been counted. */
  predicate Calm(r: Option<Relay>, pc0: Pc, pc1: Pc, waiting: seq<byte>, sum: nat) {
    && r.Some?
    && var s := r.value;
    && |s.dirs| == 2 && |s.sides| == 2 && s.main == Running && !s.cancelled && !s.finished
    && s.dirs[0].pc == pc0 && s.dirs[1].pc == pc1 && s.dirs[0].stat == 0 && s.dirs[1].stat == sum
    && s.sides[0].shared && s.sides[0].closed && s.sides[0].inbox == []
    && s.sides[1].shared && s.sides[1].closed && s.sides[1].inbox == waiting
  }

  lemma CalmStarts() returns (acts: seq<Action>)
    ensures Calm(Run(true, true, acts), Top, Top, [0], 0)
  {
    hide Run;
    RunNone(true, true);
    RunStep(true, true, [], Main(true));
    RunStep(true, true, [] + [Main(true)], Main(true));
    RunStep(true, true, [] + [Main(true)] + [Main(true)], Main(true));
    acts := [] + [Main(true)] + [Main(true)] + [Main(true)];
    assert Open(Run(true, true, acts), Top, Top, [], false, false) && Run(true, true, acts).value.dirs == [NewDir, NewDir];
    RunStep(true, true, acts, Arrive(1, [0]));
    acts := acts + [Arrive(1, [0])];
    assert Open(Run(true, true, acts), Top, Top, [0], false, false) && Run(true, true, acts).value.dirs == [NewDir, NewDir];
    CalmCloses(acts);
    acts := acts + [PeerCloses(0)] + [PeerCloses(1)];
  }

  lemma CalmCloses(acts: seq<Action>)
    requires Open(Run(true, true, acts), Top, Top, [0], false, false) && Run(true, true, acts).value.dirs == [NewDir, NewDir]
    ensures Calm(Run(true, true, acts + [PeerCloses(0)] + [PeerCloses(1)]), Top, Top, [0], 0)
  {
    hide Run;
    RunStep(true, true, acts, PeerCloses(0));
    RunStep(true, true, acts + [PeerCloses(0)], PeerCloses(1));
  }

  lemma CalmReads(acts: seq<Action>, d: nat, other: Pc, waiting: seq<byte>, sum: nat) returns (more: seq<Action>)
    requires d < 2
    requires Calm(Run(true, true, acts), if d == 0 then Top else other, if d == 0 then other else Top, waiting, sum)
    ensures Calm(Run(true, true, more), if d == 0 then Reading else other, if d == 0 then other else Reading, waiting, sum)
  {
    hide Run;
    var step := Move(d, Ready);
    RunStep(true, true, acts, step);
    RunStep(true, true, acts + [step], step);
    assert Calm(Run(true, true, acts + [step] + [step]), if d == 0 then StartRead else other, if d == 0 then other else StartRead, waiting, sum);
    RunStep(true, true, acts + [step] + [step], step);
    more := acts + [step] + [step] + [step];
  }

  lemma CalmWrites(acts: seq<Action>) returns (more: seq<Action>)
    requires Calm(Run(true, true, acts), Top, Reading, [0], 0)
    ensures Calm(Run(true, true, more), Top, Writing([0], 1), [], 0)
  {
    hide Run;
    RunStep(true, true, acts, Move(1, Data(1)));
    more := acts + [Move(1, Data(1))];
    assert Calm(Run(true, true, more), Top, StartWrite([0]), [], 0);
    RunStep(true, true, more, Move(1, Ready));
    more := more + [Move(1, Ready)];
    CalmByteGoes(more);
    more := more + [Move(1, Wrote(1))];
  }

  lemma CalmByteGoes(acts: seq<Action>)
    requires Calm(Run(true, true, acts), Top, Writing([0], 0), [], 0)
    ensures Calm(Run(true, true, acts + [Move(1, Wrote(1))]), Top, Writing([0], 1), [], 0)
  {
    RunStep(true, true, acts, Move(1, Wrote(1)));
    hide Run;
  }

  lemma CalmCounts(acts: seq<Action>) returns (more: seq<Action>)
    requires Calm(Run(true, true, acts), Top, Writing([0], 1), [], 0)
    ensures Calm(Run(true, true, more), Top, Top, [], 1)
  {
    hide Run;
    var step := Move(1, Ready);
    RunStep(true, true, acts, step);
    assert Calm(Run(true, true, acts + [step]), Top, Account(1), [], 0);
    RunStep(true, true, acts + [step], step);
    assert Calm(Run(true, true, acts + [step] + [step]), Top, Record(1), [], 1);
    RunStep(true, true, acts + [step] + [step], step);
    more := acts + [step] + [step] + [step];
  }

  lemma CalmEndsStep(acts: seq<Action>, d: nat, io: Io, other: Pc, at: Pc, to: Pc, sum: nat)
    requires d < 2
    requires (at == Reading && io == EndOfStream && to == CheckEof) || (at == CheckEof && to == HalfClose)
          || (at == HalfClose && to == Over(Eof))
    requires Calm(Run(true, true, acts), if d == 0 then at else other, if d == 0 then other else at, [], sum)
    ensures Calm(Run(true, true, acts + [Move(d, io)]), if d == 0 then to else other, if d == 0 then other else to, [], sum)
  {
    RunStep(true, true, acts, Move(d, io));
    hide Run;
  }

  lemma CalmEnds(acts: seq<Action>, d: nat, other: Pc, sum: nat) returns (more: seq<Action>)
    requires d < 2
    requires Calm(Run(true, true, acts), if d == 0 then Reading else other, if d == 0 then other else Reading, [], sum)
    ensures Calm(Run(true, true, more), if d == 0 then Over(Eof) else other, if d == 0 then other else Over(Eof), [], sum)
  {
    hide Run, Calm;
    CalmEndsStep(acts, d, EndOfStream, other, Reading, CheckEof, sum);
    more := acts + [Move(d, EndOfStream)];
    CalmEndsStep(more, d, Ready, other, CheckEof, HalfClose, sum);
    more := more + [Move(d, Ready)];
    CalmEndsStep(more, d, Ready, other, HalfClose, Over(Eof), sum);
    more := more + [Move(d, Ready)];
  }

  /** A relay does return Ok: here after one byte has gone from side 1 to side 0. */
  lemma OkIsReached() returns (acts: seq<Action>)
    ensures var s := Run(true, true, acts);
      s.Some? && Reachable(s.value) && s.value.main == Returned(Some((0, 1)))
  {
    hide Run, Calm;
    acts := CalmStarts();
    acts := CalmReads(acts, 1, Top, [0], 0);
    acts := CalmWrites(acts);
    acts := CalmCounts(acts);
    acts := CalmReads(acts, 1, Top, [], 1);
    acts := CalmEnds(acts, 1, Top, 1);
    acts := CalmReads(acts, 0, Over(Eof), [], 1);
    acts := CalmEnds(acts, 0, Over(Eof), 1);
    CalmReturns(acts);
    acts := acts + [Main(true)];
  }

  lemma CalmReturns(acts: seq<Action>)
    requires Calm(Run(true, true, acts), Over(Eof), Over(Eof), [], 1)
    ensures var s := Run(true, true, acts + [Main(true)]); s.Some? && s.value.main == Returned(Some((0, 1)))
  {
    RunStep(true, true, acts, Main(true));
    hide Run;
  }
}
