/** The standalone firmware update: the status poll and the update run, in which any
    operation may fail. */
module Firmware {
  import opened Outcomes
  import opened Wire

  const NO_STATUS := 0xFFFF_FFFF
  const CHUNK := 512  // DEFAULT_BUFFER_SIZE // 2
  const STOP := 0x00
  const START := 0x01
  const CLEAR := 0x03
  const CONFIRM := 0x80
  const TIMEOUT := 60.0

  // ---- The status poll ------------------------------------------------------------------

  /** One poll's environment: what the i-th read returns (`None` when it raises), the clock
      at the start, and the clock after each attempt. */
  datatype PollEnv = PollEnv(read: nat -> Option<nat>, clock: nat -> real)

  /** The clock does not go back and each sleep takes at least half a second. */
  ghost predicate Ticks(env: PollEnv) {
    env.clock(0) <= env.clock(1) && forall i: nat :: i > 0 ==> env.clock(i) + 0.5 <= env.clock(i + 1)
  }

  /** The last status read in the first `n` attempts. */
  function LastRead(read: nat -> Option<nat>, n: nat): nat {
    if n == 0 then NO_STATUS
    else if read(n - 1).Some? then read(n - 1).value
    else LastRead(read, n - 1)
  }

  /** It is the status read by the last attempt that did not raise, or 0xFFFFFFFF. */
  lemma {:induction false} LastReadIs(read: nat -> Option<nat>, n: nat, i: nat)
    requires i <= n && (forall j :: i <= j < n ==> read(j).None?) && (i > 0 ==> read(i - 1).Some?)
    ensures LastRead(read, n) == if i == 0 then 0xFFFF_FFFF else read(i - 1).value
  {
    if i < n { LastReadIs(read, n - 1, i); }
  }

  /** At most this many attempts fit. */
  function MaxAttempts(timeout: real): nat {
    if timeout < 0.0 then 1 else (2.0 * timeout).Floor + 2
  }

  lemma {:induction false} ClockRuns(env: PollEnv, n: nat)
    requires Ticks(env) && n > 0
    ensures env.clock(n) >= env.clock(0) + 0.5 * (n - 1) as real
  {
    if n > 1 {
      ClockRuns(env, n - 1);
      assert env.clock(n - 1) + 0.5 <= env.clock(n - 1 + 1);
    }
  }

  /** `wait_for_flash_status_ok`: returns 0 exactly when its last attempt read 0, otherwise
      the last status read, if any; it gives up only after the time is over, and makes at
      most floor(2 * timeout) + 2 attempts. */
  method WaitForFlashStatusOk(env: PollEnv, timeout: real) returns (status: nat, attempts: nat)
    requires Ticks(env)
    ensures 1 <= attempts <= MaxAttempts(timeout)
    ensures timeout >= 0.0 ==> attempts <= (2.0 * timeout).Floor + 2
    ensures status == LastRead(env.read, attempts)
    ensures status == 0 <==> env.read(attempts - 1) == Some(0)
    ensures forall i :: 0 <= i < attempts - 1 ==> env.read(i) != Some(0)
    ensures forall i :: 0 < i < attempts ==> env.clock(i) <= env.clock(0) + timeout
    ensures status != 0 ==> env.clock(attempts) > env.clock(0) + timeout
  {
    var endTime := env.clock(0) + timeout;
    status, attempts := NO_STATUS, 0;
    while true
      invariant status == LastRead(env.read, attempts) && status != 0
      invariant attempts < MaxAttempts(timeout)
      invariant forall i :: 0 <= i < attempts ==> env.read(i) != Some(0)
      invariant forall i :: 0 < i <= attempts ==> env.clock(i) <= endTime
      decreases MaxAttempts(timeout) - attempts
    {
      var result := env.read(attempts);
      attempts := attempts + 1;
      if result.Some? {
        status := result.value;
        if status == 0 {
          return;
        }
      }
      if env.clock(attempts) > endTime {
        return;
      }
      ClockRuns(env, attempts);
      AttemptsFit(timeout, attempts);
    }
  }

  lemma AttemptsFit(timeout: real, n: nat)
    requires n > 0 && 0.5 * (n - 1) as real <= timeout
    ensures n < MaxAttempts(timeout)
  {
    assert (n - 1) as real <= 2.0 * timeout;
    assert n - 1 <= (2.0 * timeout).Floor;
  }

  // ---- The update protocol --------------------------------------------------------------

  datatype Op =
    | Connect | Disconnect | ReadSwId | Status(value: nat) | PreOperational | Control(command: int)
    | GetSize | OpenFile | ReadFile | OpenDownload | Data(chunk: seq<byte>) | Progress
    | CloseDownload | CloseFile | WaitBootup

  /** An operation and whether it went through without raising. */
  datatype Event = Event(op: Op, ok: bool)

  /** Where a run stands. `rest` is the part of the file still to be written. */
  datatype Phase =
    | Idle
    | Connected | Identified | Looked | Ready | Halted | Wiped          // up to CLEAR
    | Blank | Sized | Opened                                            // flash erased
    | Loading(rest: seq<byte>) | Holding(rest: seq<byte>) | Sent(rest: seq<byte>) | AtEnd
    | Downloaded | Loaded                                               // download closed
    | Verified | Reidentified | Started | Booted | Settled | Confirmed
    | Stuck(file: bool, download: bool)                                 // failed; still open
    | Finished
    | Illegal

  function Min(a: nat, b: nat): nat { if a < b then a else b }

  /** The script: the one operation each phase allows, and where it leads if it goes
      through. */
  function After(p: Phase, op: Op, content: seq<byte>): Phase {
    match p
    case Idle => if op.Connect? then Connected else Illegal
    case Connected => if op.ReadSwId? then Identified else Illegal
    case Identified => if op.Status? then Looked else Illegal
    case Looked => if op.PreOperational? then Ready else Illegal
    case Ready => if op == Control(STOP) then Halted else Illegal
    case Halted => if op == Control(CLEAR) then Wiped else Illegal
    case Wiped => if op == Status(0) then Blank else if op.Status? then Stuck(false, false) else Illegal
    case Blank => if op.GetSize? then Sized else Illegal
    case Sized => if op.OpenFile? then Opened else Illegal
    case Opened => if op.OpenDownload? then Loading(content) else Illegal
    case Loading(rest) => if !op.ReadFile? then Illegal else if rest == [] then AtEnd else Holding(rest)
    case Holding(rest) =>
      var n := Min(CHUNK, |rest|);
      if rest != [] && op == Data(rest[..n]) then Sent(rest[n..]) else Illegal
    case Sent(rest) => if op.Progress? then Loading(rest) else Illegal
    case AtEnd => if op.CloseDownload? then Downloaded else Illegal
    case Downloaded => if op.CloseFile? then Loaded else Illegal
    case Loaded => if op == Status(0) then Verified else if op.Status? then Stuck(false, false) else Illegal
    case Verified => if op.ReadSwId? then Reidentified else Illegal
    case Reidentified => if op == Control(START) then Started else Illegal
    case Started => if op.WaitBootup? then Booted else Illegal
    case Booted => if op.PreOperational? then Settled else Illegal
    case Settled => if op == Control(CONFIRM) then Confirmed else Illegal
    case _ => Illegal
  }

  /** A failed operation leaves nothing to do but to close what is open. */
  function Failed(p: Phase, op: Op): Phase {
    if p.Idle? then
      Finished
    else
      var download := p.Loading? || p.Holding? || p.Sent? || p.AtEnd?;
      Stuck((p.Opened? || download || p.Downloaded?) && !op.CloseFile?, download && !op.CloseDownload?)
  }

  /** The update protocol: the script; after a failure closing the download, the file and
      the network, in this order. Reading the software id and waiting for boot-up may fail. */
  function Next(p: Phase, e: Event, content: seq<byte>): Phase {
    match p
    case Stuck(file, download) =>
      if download then (if e.op.CloseDownload? then Stuck(file, false) else Illegal)
      else if file then (if e.op.CloseFile? then Stuck(false, false) else Illegal)
      else if e.op.Disconnect? then Finished else Illegal
    case Confirmed => if e.op.Disconnect? then Finished else Illegal
    case Finished | Illegal => Illegal
    case _ =>
      var q := After(p, e.op, content);
      if q.Illegal? || e.ok || MayFail(e.op) then q else Failed(p, e.op)
  }

  predicate MayFail(op: Op) { op.ReadSwId? || op.WaitBootup? }

  function PhaseOf(trace: seq<Event>, content: seq<byte>): Phase {
    if trace == [] then Idle
    else Next(PhaseOf(trace[..|trace| - 1], content), trace[|trace| - 1], content)
  }

  /** What is written to the device: control commands and blocks of data. */
  datatype Write = Ctrl(command: int) | Block(bytes: seq<byte>)

  function WriteOf(op: Op): seq<Write> {
    match op
    case Control(c) => [Ctrl(c)]
    case Data(b) => [Block(b)]
    case _ => []
  }

  /** Every write attempted, in order. */
  function Attempted(trace: seq<Event>): seq<Write> {
    if trace == [] then [] else Attempted(trace[..|trace| - 1]) + WriteOf(trace[|trace| - 1].op)
  }

  function Blocks(content: seq<byte>): seq<Write> {
    if content == [] then
      []
    else
      var n := Min(CHUNK, |content|);
      [Block(content[..n])] + Blocks(content[n..])
  }

  /** The whole update: STOP, CLEAR, the file in 512-byte blocks, START, CONFIRM. */
  function Planned(content: seq<byte>): seq<Write> {
    [Ctrl(STOP), Ctrl(CLEAR)] + Blocks(content) + [Ctrl(START), Ctrl(CONFIRM)]
  }

  /** What is left to write in a phase of a run that has not failed. */
  function ToDo(p: Phase, content: seq<byte>): seq<Write> {
    match p
    case Idle | Connected | Identified | Looked | Ready => Planned(content)
    case Halted => [Ctrl(CLEAR)] + Blocks(content) + [Ctrl(START), Ctrl(CONFIRM)]
    case Wiped | Blank | Sized | Opened => Blocks(content) + [Ctrl(START), Ctrl(CONFIRM)]
    case Loading(rest) => Blocks(rest) + [Ctrl(START), Ctrl(CONFIRM)]
    case Holding(rest) => Blocks(rest) + [Ctrl(START), Ctrl(CONFIRM)]
    case Sent(rest) => Blocks(rest) + [Ctrl(START), Ctrl(CONFIRM)]
    case AtEnd | Downloaded | Loaded | Verified | Reidentified => [Ctrl(START), Ctrl(CONFIRM)]
    case Started | Booted | Settled => [Ctrl(CONFIRM)]
    case _ => []
  }

  predicate Healthy(p: Phase) { !p.Stuck? && !p.Finished? && !p.Illegal? }

  /** What one step writes comes off what was left to write. */
  predicate StepKeeps(p: Phase, e: Event, content: seq<byte>) {
    var q := Next(p, e, content);
    if Healthy(p) then
      && WriteOf(e.op) <= ToDo(p, content)
      && (Healthy(q) ==> WriteOf(e.op) + ToDo(q, content) == ToDo(p, content))
    else
      WriteOf(e.op) == [] && !Healthy(q)
  }

  lemma DataScript(p: Phase, op: Op, content: seq<byte>)
    requires After(p, op, content) != Illegal && op.Data?
    ensures p.Holding? && p.rest != [] && op == Data(p.rest[..Min(CHUNK, |p.rest|)])
    ensures After(p, op, content) == Sent(p.rest[Min(CHUNK, |p.rest|)..])
  {
  }

  lemma DataStep(p: Phase, e: Event, content: seq<byte>)
    requires Next(p, e, content) != Illegal && e.op.Data?
    ensures StepKeeps(p, e, content)
  {
    hide Blocks, After;
    DataScript(p, e.op, content);
    NextBlock(p.rest);
  }

  lemma ControlStep(p: Phase, e: Event, content: seq<byte>)
    requires Next(p, e, content) != Illegal && e.op.Control?
    ensures StepKeeps(p, e, content)
  {
    hide Blocks;
  }

  lemma SilentScript(p: Phase, op: Op, content: seq<byte>)
    requires !op.Control? && !op.Data? && After(p, op, content) != Illegal
    ensures var q := After(p, op, content);
            q == Stuck(false, false) || (Healthy(q) && ToDo(q, content) == ToDo(p, content))
  {
    NoBlocks();
    hide Blocks, Planned;
    assert [] + [Ctrl(START), Ctrl(CONFIRM)] == [Ctrl(START), Ctrl(CONFIRM)];
  }

  lemma SilentStep(p: Phase, e: Event, content: seq<byte>)
    requires Next(p, e, content) != Illegal && !e.op.Control? && !e.op.Data?
    ensures StepKeeps(p, e, content)
  {
    hide ToDo, After, Planned, Blocks;
    if Healthy(p) && !p.Confirmed? { SilentScript(p, e.op, content); }
  }

  /** One step of a legal run keeps what is written and what is left to write together. */
  lemma StepWrites(p: Phase, e: Event, content: seq<byte>)
    requires Next(p, e, content) != Illegal
    ensures StepKeeps(p, e, content)
  {
    hide Next, StepKeeps;
    if e.op.Data? {
      DataStep(p, e, content);
    } else if e.op.Control? {
      ControlStep(p, e, content);
    } else {
      SilentStep(p, e, content);
    }
  }

  lemma NoBlocks()
    ensures Blocks([]) == []
  {
  }

  lemma NextBlock(rest: seq<byte>)
    ensures var n := Min(CHUNK, |rest|);
            rest != [] ==> Blocks(rest) == [Block(rest[..n])] + Blocks(rest[n..])
  {
  }

  /** A legal run writes an initial part of the plan and nothing else; as long as nothing
      failed, exactly what its phase says. */
  lemma {:induction false} WritesInOrder(trace: seq<Event>, content: seq<byte>)
    requires PhaseOf(trace, content) != Illegal
    ensures Attempted(trace) <= Planned(content)
    ensures Healthy(PhaseOf(trace, content)) ==>
              Attempted(trace) + ToDo(PhaseOf(trace, content), content) == Planned(content)
  {
    hide Next, Planned, Blocks, WriteOf;
    if trace == [] {
      assert Attempted([]) + Planned(content) == Planned(content);
    } else {
      hide ToDo;
      var before, e := trace[..|trace| - 1], trace[|trace| - 1];
      var p, q := PhaseOf(before, content), PhaseOf(trace, content);
      StepLegal(p, e, content);
      WritesInOrder(before, content);
      StepWrites(p, e, content);
      if Healthy(p) {
        WrittenNext(Attempted(before), WriteOf(e.op), ToDo(p, content), ToDo(q, content));
      }
    }
  }

  lemma WrittenNext(written: seq<Write>, now: seq<Write>, todo: seq<Write>, later: seq<Write>)
    requires now <= todo
    ensures written + now <= written + todo
    ensures now + later == todo ==> (written + now) + later == written + todo
  {
  }

  lemma StepLegal(p: Phase, e: Event, content: seq<byte>)
    requires Next(p, e, content) != Illegal
    ensures p != Illegal
  {
  }

  /** CLEAR went through, and after it the device reported status 0. */
  ghost predicate ErasedOk(trace: seq<Event>) {
    exists c, j :: 0 <= c < j < |trace| && trace[c] == Event(Control(CLEAR), true) && trace[j].op == Status(0)
  }

  /** The download was closed without error, after that the device reported status 0, and
      nothing was written to the download since. */
  ghost predicate LoadedOk(trace: seq<Event>) {
    exists c, j :: 0 <= c < j < |trace| && trace[c] == Event(CloseDownload, true) && trace[j].op == Status(0)
                   && NoDataAfter(trace, c)
  }

  ghost predicate HasEvent(trace: seq<Event>, e: Event) {
    exists c :: 0 <= c < |trace| && trace[c] == e
  }

  predicate NoDataAfter(trace: seq<Event>, c: nat) {
    forall d :: c < d < |trace| ==> !trace[d].op.Data?
  }

  predicate Loads(p: Phase) { p.Loading? || p.Holding? || p.Sent? || p.AtEnd? }

  predicate AfterErase(p: Phase) {
    p.Blank? || p.Sized? || p.Opened? || Loads(p) || p.Downloaded? || p.Loaded? || AfterCheck(p)
  }

  predicate AfterCheck(p: Phase) {
    p.Verified? || p.Reidentified? || p.Started? || p.Booted? || p.Settled? || p.Confirmed?
  }

  lemma HasEventAppend(trace: seq<Event>, e: Event, f: Event)
    ensures HasEvent(trace, f) || e == f ==> HasEvent(trace + [e], f)
  {
    if HasEvent(trace, f) {
      var c :| 0 <= c < |trace| && trace[c] == f;
      assert (trace + [e])[c] == f;
    }
    if e == f { assert (trace + [e])[|trace|] == f; }
  }

  lemma ErasedAppend(trace: seq<Event>, e: Event)
    ensures ErasedOk(trace) || (HasEvent(trace, Event(Control(CLEAR), true)) && e.op == Status(0)) ==>
              ErasedOk(trace + [e])
  {
    var t := trace + [e];
    if ErasedOk(trace) {
      var c, j :| 0 <= c < j < |trace| && trace[c] == Event(Control(CLEAR), true) && trace[j].op == Status(0);
      assert t[c] == trace[c] && t[j] == trace[j];
    } else if HasEvent(trace, Event(Control(CLEAR), true)) && e.op == Status(0) {
      var c :| 0 <= c < |trace| && trace[c] == Event(Control(CLEAR), true);
      assert t[c] == trace[c] && t[|trace|].op == Status(0);
    }
  }

  lemma NotErased()
    ensures !AfterErase(Idle) && !AfterCheck(Idle)
  {
  }

  lemma IntoErase(p: Phase, e: Event, content: seq<byte>)
    ensures Next(p, e, content).Wiped? ==> e == Event(Control(CLEAR), true)
    ensures AfterErase(Next(p, e, content)) ==> AfterErase(p) || (p.Wiped? && e.op == Status(0))
  {
  }

  /** What the phases between CLEAR and the end tell about the run that led to them. */
  lemma {:induction false} ErasePhases(trace: seq<Event>, content: seq<byte>)
    ensures PhaseOf(trace, content).Wiped? ==> HasEvent(trace, Event(Control(CLEAR), true))
    ensures AfterErase(PhaseOf(trace, content)) ==> ErasedOk(trace)
  {
    hide ErasedOk, HasEvent, Next, AfterErase;
    if trace == [] {
      NotErased();
    } else {
      var before, e := trace[..|trace| - 1], trace[|trace| - 1];
      assert trace == before + [e];
      IntoErase(PhaseOf(before, content), e, content);
      ErasePhases(before, content);
      HasEventAppend(before, e, Event(Control(CLEAR), true));
      ErasedAppend(before, e);
    }
  }

  /** The download was closed without error and nothing was written to it since. */
  ghost predicate ClosedOk(trace: seq<Event>) {
    exists c :: 0 <= c < |trace| && trace[c] == Event(CloseDownload, true) && NoDataAfter(trace, c)
  }

  lemma ClosedAppend(trace: seq<Event>, e: Event)
    requires !e.op.Data?
    ensures ClosedOk(trace) || e == Event(CloseDownload, true) ==> ClosedOk(trace + [e])
    ensures LoadedOk(trace) || (ClosedOk(trace) && e.op == Status(0)) ==> LoadedOk(trace + [e])
  {
    var t := trace + [e];
    if e == Event(CloseDownload, true) { assert t[|trace|] == e && NoDataAfter(t, |trace|); }
    if ClosedOk(trace) {
      var c :| 0 <= c < |trace| && trace[c] == Event(CloseDownload, true) && NoDataAfter(trace, c);
      assert t[c] == trace[c] && NoDataAfter(t, c) && t[|trace|] == e;
    }
    if LoadedOk(trace) {
      var c, j :| 0 <= c < j < |trace| && trace[c] == Event(CloseDownload, true) && trace[j].op == Status(0)
                  && NoDataAfter(trace, c);
      assert t[c] == trace[c] && t[j] == trace[j] && NoDataAfter(t, c);
    }
  }

  lemma IntoCheck(p: Phase, e: Event, content: seq<byte>)
    ensures Next(p, e, content).Downloaded? ==> e == Event(CloseDownload, true)
    ensures Next(p, e, content).Loaded? ==> p.Downloaded? && !e.op.Data?
    ensures AfterCheck(Next(p, e, content)) ==> !e.op.Data? && (AfterCheck(p) || (p.Loaded? && e.op == Status(0)))
  {
  }

  /** What the phases after the download tell about the run that led to them. */
  lemma {:induction false} LoadPhases(trace: seq<Event>, content: seq<byte>)
    ensures PhaseOf(trace, content).Downloaded? || PhaseOf(trace, content).Loaded? ==> ClosedOk(trace)
    ensures AfterCheck(PhaseOf(trace, content)) ==> LoadedOk(trace)
  {
    hide ClosedOk, LoadedOk, Next, AfterCheck;
    if trace == [] {
      NotErased();
    } else {
      var before, e := trace[..|trace| - 1], trace[|trace| - 1];
      assert trace == before + [e];
      IntoCheck(PhaseOf(before, content), e, content);
      LoadPhases(before, content);
      if !e.op.Data? { ClosedAppend(before, e); }
    }
  }

  /** In a legal run data follows only a status 0 read after CLEAR; START follows only a
      status 0 read after the download was closed, when the blocks of the whole file have
      been written in order; and no write follows a failure, other than of a software id
      read or a boot-up wait. */
  lemma {:induction false} Gates(trace: seq<Event>, content: seq<byte>, i: nat)
    requires i < |trace| && PhaseOf(trace, content) != Illegal
    ensures trace[i].op.Data? ==> ErasedOk(trace[..i])
    ensures trace[i].op == Control(START) ==>
              LoadedOk(trace[..i]) && Attempted(trace[..i]) == [Ctrl(STOP), Ctrl(CLEAR)] + Blocks(content)
    ensures WriteOf(trace[i].op) != [] ==> Unfailed(trace[..i])
  {
    hide Blocks, ErasedOk, LoadedOk, Attempted, PhaseOf, Next, Unfailed;

    var before := trace[..i];
    LegalAt(trace, content, i);
    ErasePhases(before, content);
    LoadPhases(before, content);
    WritesInOrder(before, content);
    StepWrites(PhaseOf(before, content), trace[i], content);
    if WriteOf(trace[i].op) != [] { SoundPhases(before, content); }
    if trace[i].op == Control(START) {
      var todo := [Ctrl(START), Ctrl(CONFIRM)];
      assert Attempted(before) + todo == Planned(content);
      SameEnd(Attempted(before), [Ctrl(STOP), Ctrl(CLEAR)] + Blocks(content), todo);
    }
  }

  predicate Unfailed(trace: seq<Event>) {
    forall i :: 0 <= i < |trace| ==> trace[i].ok || trace[i].op == ReadSwId || trace[i].op == WaitBootup
  }

  ghost predicate Cleared(trace: seq<Event>) {
    exists c :: 0 <= c < |trace| && trace[c].op == Control(CLEAR)
  }

  /** Nothing went wrong: nothing failed that must not, and every status after CLEAR was 0. */
  predicate Sound(trace: seq<Event>) {
    && Unfailed(trace)
    && forall i, j :: 0 <= i < j < |trace| && trace[i].op == Control(0x03) && trace[j].op.Status? ==>
         trace[j].op.value == 0
  }

  lemma SoundNext(before: seq<Event>, e: Event)
    ensures Sound(before + [e]) <==>
            Sound(before) && (e.ok || MayFail(e.op)) && (e.op.Status? && e.op.value != 0 ==> !Cleared(before))
    ensures Cleared(before + [e]) <==> Cleared(before) || e.op == Control(CLEAR)
  {
    var t := before + [e];
    assert forall i :: 0 <= i < |before| ==> t[i] == before[i];
    assert t[|before|] == e;
    if Sound(t) && Cleared(before) {
      var c :| 0 <= c < |before| && before[c].op == Control(CLEAR);
      assert t[c].op == Control(CLEAR);
    }
  }

  predicate PastClear(p: Phase) { p.Wiped? || AfterErase(p) }

  lemma SoundStep(p: Phase, e: Event, content: seq<byte>)
    requires Next(p, e, content) != Illegal
    ensures var q := Next(p, e, content);
            && (Healthy(q) ==> Healthy(p) && (e.ok || MayFail(e.op)))
            && (Healthy(q) ==> (PastClear(q) <==> PastClear(p) || e.op == Control(CLEAR)))
            && (Healthy(q) && e.op.Status? && e.op.value != 0 ==> !PastClear(p))
            && (Healthy(p) && q.Stuck? ==>
                  (!e.ok && !MayFail(e.op)) || (e.op.Status? && e.op.value != 0 && PastClear(p)))
            && (q.Stuck? ==> Healthy(p) || p.Stuck?)
  {
  }

  /** A run is sound as long as it is not stuck, and not once it is. */
  lemma {:induction false} SoundPhases(trace: seq<Event>, content: seq<byte>)
    requires PhaseOf(trace, content) != Illegal
    ensures Healthy(PhaseOf(trace, content)) ==>
              Sound(trace) && (Cleared(trace) <==> PastClear(PhaseOf(trace, content)))
    ensures PhaseOf(trace, content).Stuck? ==> !Sound(trace)
  {
    if trace != [] {
      hide Next, Sound, Cleared, PastClear, MayFail;
      var before, e := trace[..|trace| - 1], trace[|trace| - 1];
      assert trace == before + [e];
      StepLegal(PhaseOf(before, content), e, content);
      SoundPhases(before, content);
      SoundStep(PhaseOf(before, content), e, content);
      SoundNext(before, e);
    }
  }

  lemma {:induction false} LegalAt(trace: seq<Event>, content: seq<byte>, i: nat)
    requires i < |trace| && PhaseOf(trace, content) != Illegal
    ensures PhaseOf(trace[..i], content) != Illegal
    ensures Next(PhaseOf(trace[..i], content), trace[i], content) != Illegal
    ensures trace[i].op.Data? ==> PhaseOf(trace[..i], content).Holding?
    ensures trace[i].op == Control(START) ==> PhaseOf(trace[..i], content).Reidentified?
  {
    hide Next;
    PrefixLegal(trace, content, i + 1);
    PrefixLegal(trace, content, i);
    assert trace[..i + 1][..i] == trace[..i];
    FromScript(PhaseOf(trace[..i], content), trace[i], content);
  }

  lemma FromScript(p: Phase, e: Event, content: seq<byte>)
    requires Next(p, e, content) != Illegal
    ensures p != Illegal
    ensures e.op.Data? ==> p.Holding?
    ensures e.op == Control(START) ==> p.Reidentified?
  {
  }

  lemma SameEnd(a: seq<Write>, b: seq<Write>, end: seq<Write>)
    requires a + end == b + end
    ensures a == b
  {
    assert |a| == |b|;
    assert a == (a + end)[..|a|] && b == (b + end)[..|b|];
  }

  lemma {:induction false} PrefixLegal(trace: seq<Event>, content: seq<byte>, i: nat)
    requires i <= |trace| && PhaseOf(trace, content) != Illegal
    ensures PhaseOf(trace[..i], content) != Illegal
  {
    if i < |trace| {
      var last := |trace| - 1;
      StepLegal(PhaseOf(trace[..last], content), trace[last], content);
      PrefixLegal(trace[..last], content, i);
      assert trace[..last][..i] == trace[..i];
    } else {
      assert trace[..i] == trace;
    }
  }

  /** The bytes written to the download. */
  function Bytes(writes: seq<Write>): seq<byte> {
    if writes == [] then []
    else (match writes[0] case Block(b) => b case Ctrl(_) => []) + Bytes(writes[1..])
  }

  /** The planned blocks are the file. */
  lemma {:induction false} BlocksAreFile(content: seq<byte>)
    ensures Bytes(Blocks(content)) == content
  {
    if content != [] {
      var n := Min(CHUNK, |content|);
      BlocksAreFile(content[n..]);
      assert Blocks(content)[1..] == Blocks(content[n..]);
      assert content == content[..n] + content[n..];
    }
  }

  function Count(trace: seq<Event>, op: Op): nat {
    if trace == [] then 0
    else Count(trace[..|trace| - 1], op) + if trace[|trace| - 1].op == op then 1 else 0
  }

  lemma EndsStep(p: Phase, e: Event, content: seq<byte>)
    requires Next(p, e, content) != Illegal
    ensures var q := Next(p, e, content);
            && !p.Finished? && !q.Idle?
            && (p.Idle? ==> if q.Finished? then e == Event(Connect, false) else e == Event(Connect, true))
            && (!p.Idle? ==> (q.Finished? <==> e.op == Disconnect))
  {
  }

  /** In a finished legal run the network was disconnected once, at the end, exactly if the
      connection had been made. */
  lemma {:induction false} DisconnectedOnce(trace: seq<Event>, content: seq<byte>)
    requires PhaseOf(trace, content) != Illegal
    ensures PhaseOf(trace, content).Idle? ==> trace == []
    ensures PhaseOf(trace, content).Finished? ==>
              trace == [Event(Connect, false)]
              || (trace[0] == Event(Connect, true) && trace[|trace| - 1].op == Disconnect
                  && Count(trace, Disconnect) == 1)
    ensures !PhaseOf(trace, content).Idle? && !PhaseOf(trace, content).Finished? ==>
              trace != [] && trace[0] == Event(Connect, true) && Count(trace, Disconnect) == 0
  {
    if trace != [] {
      var last := |trace| - 1;
      hide Next;
      StepLegal(PhaseOf(trace[..last], content), trace[last], content);
      EndsStep(PhaseOf(trace[..last], content), trace[last], content);
      DisconnectedOnce(trace[..last], content);
    }
  }

  // ---- The operations, step by step -----------------------------------------------------

  /** An operation, whatever the status it read. */
  function Shape(op: Op): Op { if op.Status? then Status(0) else op }

  function Shapes(trace: seq<Event>): (ops: seq<Op>)
    ensures |ops| == |trace|
  {
    seq(|trace|, i requires 0 <= i < |trace| => Shape(trace[i].op))
  }

  /** Reading, writing and showing 512 bytes at a time, and the read that finds the end. */
  function BlockOps(rest: seq<byte>): seq<Op> {
    if rest == [] then
      [ReadFile]
    else
      var n := if |rest| < 512 then |rest| else 512;
      [ReadFile] + ([Data(rest[..n])] + ([Progress] + BlockOps(rest[n..])))
  }

  const BEFORE_BLOCKS: seq<Op> := [
    Connect, ReadSwId, Status(0), PreOperational, Control(0x00), Control(0x03), Status(0),
    GetSize, OpenFile, OpenDownload]

  const AFTER_BLOCKS: seq<Op> := [
    CloseDownload, CloseFile, Status(0), ReadSwId, Control(0x01), WaitBootup, PreOperational,
    Control(0x80), Disconnect]

  /** Every operation of an update in which nothing fails, in order. */
  function Script(content: seq<byte>): seq<Op> { BEFORE_BLOCKS + (BlockOps(content) + AFTER_BLOCKS) }

  /** How far a phase before or after the blocks is in its part of the script. */
  function Index(p: Phase): nat {
    match p
    case Idle | AtEnd => 0
    case Connected | Downloaded => 1
    case Identified | Loaded => 2
    case Looked | Verified => 3
    case Ready | Reidentified => 4
    case Halted | Started => 5
    case Wiped | Booted => 6
    case Blank | Settled => 7
    case Sized | Confirmed => 8
    case _ => 9
  }

  predicate Early(p: Phase) {
    p.Idle? || p.Connected? || p.Identified? || p.Looked? || p.Ready? || p.Halted? || p.Wiped?
    || p.Blank? || p.Sized? || p.Opened?
  }

  predicate Late(p: Phase) { p.AtEnd? || p.Downloaded? || p.Loaded? || AfterCheck(p) }

  /** The operations left in a phase of a run that has not failed. */
  function OpsToDo(p: Phase, content: seq<byte>): seq<Op> {
    if Early(p) then BEFORE_BLOCKS[Index(p)..] + (BlockOps(content) + AFTER_BLOCKS)
    else if Late(p) then AFTER_BLOCKS[Index(p)..]
    else if p.Loading? then BlockOps(p.rest) + AFTER_BLOCKS
    else if p.Holding? then BlockOps(p.rest)[1..] + AFTER_BLOCKS
    else if p.Sent? then [Progress] + (BlockOps(p.rest) + AFTER_BLOCKS)
    else []
  }

  lemma EarlyStep(p: Phase, e: Event, content: seq<byte>)
    requires Next(p, e, content) != Illegal && Early(p)
    ensures Index(p) < 10 && BEFORE_BLOCKS[Index(p)] == Shape(e.op)
    ensures p.Opened? ==> Index(p) == 9
    ensures var q := Next(p, e, content);
            Healthy(q) ==> if p.Opened? then q == Loading(content) else Early(q) && Index(q) == Index(p) + 1
  {
  }

  lemma LateStep(p: Phase, e: Event, content: seq<byte>)
    requires Next(p, e, content) != Illegal && Late(p)
    ensures Index(p) < 9 && AFTER_BLOCKS[Index(p)] == Shape(e.op) && (p.Confirmed? ==> Index(p) == 8)
    ensures !Early(p)
    ensures var q := Next(p, e, content);
            if p.Confirmed? then q == Finished
            else Healthy(q) ==> Late(q) && !Early(q) && Index(q) == Index(p) + 1
  {
  }

  lemma BlockStep(p: Phase, e: Event, content: seq<byte>)
    requires Next(p, e, content) != Illegal && (p.Loading? || p.Holding? || p.Sent?)
    ensures var q, n := Next(p, e, content), if |p.rest| < 512 then |p.rest| else 512;
            match p
            case Loading(rest) =>
              e.op == ReadFile && (Healthy(q) ==> q == if rest == [] then AtEnd else Holding(rest))
            case Holding(rest) =>
              rest != [] && e.op == Data(rest[..n]) && (Healthy(q) ==> q == Sent(rest[n..]))
            case Sent(rest) => e.op == Progress && (Healthy(q) ==> q == Loading(rest))
  {
  }

  lemma LoadingOps(rest: seq<byte>, content: seq<byte>)
    ensures var todo := OpsToDo(Loading(rest), content);
            && todo != [] && todo[0] == ReadFile
            && todo[1..] == OpsToDo(if rest == [] then AtEnd else Holding(rest), content)
  {
    BlocksHead(rest);
    hide BlockOps;
    Tail(BlockOps(rest), AFTER_BLOCKS);
    if rest == [] { assert [] + AFTER_BLOCKS == AFTER_BLOCKS[Index(AtEnd)..]; }
  }

  lemma BlocksHead(rest: seq<byte>)
    ensures BlockOps(rest) != [] && BlockOps(rest)[0] == ReadFile
    ensures rest == [] ==> BlockOps(rest)[1..] == []
  {
  }

  lemma Tail(a: seq<Op>, b: seq<Op>)
    requires a != []
    ensures (a + b)[0] == a[0] && (a + b)[1..] == a[1..] + b
  {
  }

  lemma HoldingOps(rest: seq<byte>, content: seq<byte>)
    requires rest != []
    ensures var n, todo := if |rest| < 512 then |rest| else 512, OpsToDo(Holding(rest), content);
            todo != [] && todo[0] == Data(rest[..n]) && todo[1..] == OpsToDo(Sent(rest[n..]), content)
  {
    var n := if |rest| < 512 then |rest| else 512;
    var later := BlockOps(rest[n..]);
    var block := [Data(rest[..n])] + ([Progress] + later);
    assert BlockOps(rest) == [ReadFile] + block;
    assert BlockOps(rest)[1..] == block;
    hide BlockOps;
    assert block + AFTER_BLOCKS == [Data(rest[..n])] + ([Progress] + (later + AFTER_BLOCKS));
  }

  lemma SentOps(rest: seq<byte>, content: seq<byte>)
    ensures var todo := OpsToDo(Sent(rest), content);
            todo != [] && todo[0] == Progress && todo[1..] == OpsToDo(Loading(rest), content)
  {
    hide BlockOps;
  }

  lemma OpsFrom(list: seq<Op>, k: nat, tail: seq<Op>)
    requires k < |list|
    ensures (list[k..] + tail)[0] == list[k] && (list[k..] + tail)[1..] == list[k + 1..] + tail
    ensures list[k..][0] == list[k] && list[k..][1..] == list[k + 1..]
  {
  }

  /** A step on the way is the first operation left to do, and takes it off. */
  lemma StepOps(p: Phase, e: Event, content: seq<byte>)
    requires Next(p, e, content) != Illegal && Healthy(p)
    ensures OpsToDo(p, content) != [] && OpsToDo(p, content)[0] == Shape(e.op)
    ensures Healthy(Next(p, e, content)) ==> OpsToDo(p, content)[1..] == OpsToDo(Next(p, e, content), content)
    ensures p.Confirmed? ==> OpsToDo(p, content) == [Shape(e.op)] && Next(p, e, content) == Finished
  {
    if Early(p) {
      EarlyStep(p, e, content);
      hide Next, BlockOps, Index, Late;
      OpsFrom(BEFORE_BLOCKS, Index(p), BlockOps(content) + AFTER_BLOCKS);
    } else if Late(p) {
      LateStep(p, e, content);
      hide Next, BlockOps, Index;
      OpsFrom(AFTER_BLOCKS, Index(p), []);
    } else {
      BlockStep(p, e, content);
      hide Next, BlockOps, Index, OpsToDo;
      LoadingOps(p.rest, content);
      if p.Holding? { HoldingOps(p.rest, content); }
      SentOps(p.rest, content);
    }
  }

  lemma ShapesNext(before: seq<Event>, e: Event)
    ensures Shapes(before + [e]) == Shapes(before) + [Shape(e.op)]
  {
  }

  lemma TakeFirst(done: seq<Op>, todo: seq<Op>, all: seq<Op>)
    requires done + todo == all && todo != []
    ensures (done + [todo[0]]) + todo[1..] == all && done + [todo[0]] <= all
  {
    assert todo == [todo[0]] + todo[1..];
  }

  /** A run on its way has done what comes first in the script, operation by operation. */
  lemma {:induction false} FollowsScript(trace: seq<Event>, content: seq<byte>)
    requires PhaseOf(trace, content) != Illegal
    ensures Healthy(PhaseOf(trace, content)) ==>
              Shapes(trace) + OpsToDo(PhaseOf(trace, content), content) == Script(content)
    ensures trace != [] && Healthy(PhaseOf(trace[..|trace| - 1], content)) ==> Shapes(trace) <= Script(content)
    ensures trace != [] && PhaseOf(trace[..|trace| - 1], content).Confirmed? ==> Shapes(trace) == Script(content)
  {
    hide Next, OpsToDo, Script, Shapes;
    if trace == [] {
      ScriptFirst(content);
    } else {
      var before, e := trace[..|trace| - 1], trace[|trace| - 1];
      var p := PhaseOf(before, content);
      assert trace == before + [e];
      StepLegal(p, e, content);
      FollowsScript(before, content);
      HealthyBefore(p, e, content);
      if Healthy(p) {
        StepOps(p, e, content);
        ShapesNext(before, e);
        TakeFirst(Shapes(before), OpsToDo(p, content), Script(content));
      }
    }
  }

  lemma ScriptFirst(content: seq<byte>)
    ensures Shapes([]) + OpsToDo(Idle, content) == Script(content)
  {
    hide BlockOps;
    assert BEFORE_BLOCKS[0..] == BEFORE_BLOCKS;
  }

  lemma HealthyBefore(p: Phase, e: Event, content: seq<byte>)
    requires Next(p, e, content) != Illegal
    ensures Healthy(Next(p, e, content)) ==> Healthy(p)
    ensures !Healthy(p) ==> p.Stuck? && Closing(e.op)
    ensures Healthy(p) && Next(p, e, content).Finished? ==> p.Confirmed? || (p.Idle? && !e.ok)
  {
  }

  predicate Closing(op: Op) { op.CloseDownload? || op.CloseFile? || op.Disconnect? }

  /** The first operations of the script, and if these went wrong nothing but closing what is
      open. */
  ghost predicate ScriptThenClose(trace: seq<Event>, content: seq<byte>) {
    exists n :: 0 <= n <= |trace| && Shapes(trace[..n]) <= Script(content)
                && (n < |trace| ==> !Sound(trace[..n]))
                && forall i :: n <= i < |trace| ==> Closing(trace[i].op)
  }

  /** What any legal run does, whatever fails. */
  lemma {:induction false} AnyRun(trace: seq<Event>, content: seq<byte>)
    requires PhaseOf(trace, content) != Illegal
    ensures ScriptThenClose(trace, content)
  {
    hide Next, Script, Shapes, Sound, OpsToDo;
    if trace == [] {
      ScriptFirst(content);
      assert trace[..0] == trace && Shapes(trace) <= Script(content);
    } else {
      var before, e := trace[..|trace| - 1], trace[|trace| - 1];
      var p := PhaseOf(before, content);
      StepLegal(p, e, content);
      HealthyBefore(p, e, content);
      if Healthy(p) {
        FollowsScript(trace, content);
        assert trace[..|trace|] == trace;
      } else {
        AnyRun(before, content);
        SoundPhases(before, content);
        var n :| 0 <= n <= |before| && Shapes(before[..n]) <= Script(content)
                 && (n < |before| ==> !Sound(before[..n]))
                 && forall i :: n <= i < |before| ==> Closing(before[i].op);
        assert before[..|before|] == before && trace[..n] == before[..n];
      }
    }
  }

  function CountOk(trace: seq<Event>, op: Op): nat {
    if trace == [] then 0
    else CountOk(trace[..|trace| - 1], op) + if trace[|trace| - 1] == Event(op, true) then 1 else 0
  }

  predicate FileOpen(p: Phase) { p.Opened? || Loads(p) || p.Downloaded? || (p.Stuck? && p.file) }

  predicate DownloadOpen(p: Phase) { Loads(p) || (p.Stuck? && p.download) }

  lemma FileStep(p: Phase, e: Event, content: seq<byte>)
    requires Next(p, e, content) != Illegal
    ensures FileOpen(Next(p, e, content)) <==> e == Event(OpenFile, true) || (FileOpen(p) && e.op != CloseFile)
    ensures e.op == OpenFile ==> !FileOpen(p)
    ensures e.op == CloseFile ==> FileOpen(p) && !DownloadOpen(p)
    ensures e.op == Disconnect ==> !FileOpen(p)
  {
  }

  lemma DownloadStep(p: Phase, e: Event, content: seq<byte>)
    requires Next(p, e, content) != Illegal
    ensures DownloadOpen(Next(p, e, content))
            <==> e == Event(OpenDownload, true) || (DownloadOpen(p) && e.op != CloseDownload)
    ensures e.op == OpenDownload ==> !DownloadOpen(p)
    ensures e.op == CloseDownload ==> DownloadOpen(p)
    ensures e.op == Disconnect ==> !DownloadOpen(p)
  {
  }

  /** What was opened and not closed yet. */
  lemma {:induction false} OpenNow(trace: seq<Event>, content: seq<byte>)
    requires PhaseOf(trace, content) != Illegal
    ensures CountOk(trace, OpenFile) == Count(trace, CloseFile) + if FileOpen(PhaseOf(trace, content)) then 1 else 0
    ensures CountOk(trace, OpenDownload)
            == Count(trace, CloseDownload) + if DownloadOpen(PhaseOf(trace, content)) then 1 else 0
  {
    hide Next, FileOpen, DownloadOpen;
    if trace == [] {
      NothingOpen();
    } else {
      var before, e := trace[..|trace| - 1], trace[|trace| - 1];
      StepLegal(PhaseOf(before, content), e, content);
      OpenNow(before, content);
      FileStep(PhaseOf(before, content), e, content);
      DownloadStep(PhaseOf(before, content), e, content);
    }
  }

  lemma NothingOpen()
    ensures !FileOpen(Idle) && !DownloadOpen(Idle)
  {
  }

  /** Whatever fails, what was opened is closed once, the download before the file, and both
      before disconnecting. */
  lemma ClosedInOrder(trace: seq<Event>, content: seq<byte>, i: nat)
    requires i < |trace| && PhaseOf(trace, content) != Illegal
    ensures trace[i].op == CloseFile || trace[i].op == Disconnect ==>
              CountOk(trace[..i], OpenDownload) == Count(trace[..i], CloseDownload)
    ensures trace[i].op == Disconnect ==> CountOk(trace[..i], OpenFile) == Count(trace[..i], CloseFile)
    ensures trace[i].op == CloseFile ==> CountOk(trace[..i], OpenFile) == Count(trace[..i], CloseFile) + 1
    ensures trace[i].op == CloseDownload ==>
              CountOk(trace[..i], OpenDownload) == Count(trace[..i], CloseDownload) + 1
  {
    hide Next, FileOpen, DownloadOpen, PhaseOf;
    LegalAt(trace, content, i);
    OpenNow(trace[..i], content);
    FileStep(PhaseOf(trace[..i], content), trace[i], content);
    DownloadStep(PhaseOf(trace[..i], content), trace[i], content);
  }

  // ---- The run --------------------------------------------------------------------------

  /** How many operations were up to the network, the node or the file system. */
  function Tries(trace: seq<Event>): nat {
    if trace == [] then
      0
    else
      var op := trace[|trace| - 1].op;
      Tries(trace[..|trace| - 1]) + if op.Status? || op.Progress? then 0 else 1
  }

  function PollsIn(trace: seq<Event>): nat {
    if trace == [] then 0
    else PollsIn(trace[..|trace| - 1]) + if trace[|trace| - 1].op.Status? then 1 else 0
  }

  /** A poll of at most 60 seconds in this environment reads `status` in the end: the last status
      it read, 0 at once when it is read, otherwise only when the time is over. */
  ghost predicate Reads(env: PollEnv, status: nat) {
    exists n :: 1 <= n <= 122 && status == LastRead(env.read, n)
                && (forall i :: 0 <= i < n - 1 ==> env.read(i) != Some(0))
                && (forall i :: 0 < i < n ==> env.clock(i) <= env.clock(0) + 60.0)
                && (status != 0 ==> env.clock(n) > env.clock(0) + 60.0)
  }

  /** The event `e` after `before` is what the environment makes of it: the k-th operation goes
      through exactly if `succeeds(k)`, the k-th poll reads what `polls(k)` gives, and showing
      the progress fails exactly if the size is 0. */
  ghost predicate Happens(before: seq<Event>, e: Event, succeeds: nat -> bool, polls: nat -> PollEnv, size: nat) {
    match e.op
    case Status(v) => e.ok && Reads(polls(PollsIn(before)), v)
    case Progress => e.ok <==> size != 0
    case _ => e.ok <==> succeeds(Tries(before))
  }

  ghost predicate Happened(trace: seq<Event>, succeeds: nat -> bool, polls: nat -> PollEnv, size: nat) {
    forall i :: 0 <= i < |trace| ==> Happens(trace[..i], trace[i], succeeds, polls, size)
  }

  lemma HappenedNext(before: seq<Event>, e: Event, succeeds: nat -> bool, polls: nat -> PollEnv, size: nat)
    requires Happened(before, succeeds, polls, size) && Happens(before, e, succeeds, polls, size)
    ensures Happened(before + [e], succeeds, polls, size)
    ensures Tries(before + [e]) == Tries(before) + if e.op.Status? || e.op.Progress? then 0 else 1
    ensures PollsIn(before + [e]) == PollsIn(before) + if e.op.Status? then 1 else 0
  {
    hide Happens;
    var t := before + [e];
    assert t[..|before|] == before;
    forall i | 0 <= i < |t| ensures Happens(t[..i], t[i], succeeds, polls, size) {
      if i < |before| { assert t[..i] == before[..i]; }
    }
  }

  /** The network and the node: the k-th fallible operation goes through exactly if
      `succeeds(k)`, the k-th status poll happens in `polls(k)`. */
  class Node {
    const succeeds: nat -> bool
    const polls: nat -> PollEnv
    const content: seq<byte>   // the firmware file
    const size: nat            // its size as reported before it is read
    var operations: nat
    var polled: nat
    var trace: seq<Event>

    constructor (succeeds: nat -> bool, polls: nat -> PollEnv, content: seq<byte>, size: nat)
      ensures this.succeeds == succeeds && this.polls == polls && this.content == content
      ensures this.size == size && trace == [] && Valid()
    {
      this.succeeds, this.polls, this.content, this.size := succeeds, polls, content, size;
      operations, polled, trace := 0, 0, [];
    }

    ghost function Phase(): Phase
      reads this
    {
      PhaseOf(trace, content)
    }

    /** What happened is what the environment made happen. */
    ghost predicate Valid()
      reads this
    {
      operations == Tries(trace) && polled == PollsIn(trace) && Happened(trace, succeeds, polls, size)
    }

    method Do(op: Op) returns (ok: bool)
      requires Valid() && !op.Status? && !op.Progress?
      modifies this`operations, this`trace
      ensures Valid()
      ensures trace == old(trace) + [Event(op, ok)]
      ensures Phase() == Next(old(Phase()), Event(op, ok), content)
    {
      hide Happened, Tries, PollsIn, Next;
      ok := succeeds(operations);
      HappenedNext(trace, Event(op, ok), succeeds, polls, size);
      operations := operations + 1;
      Record(Event(op, ok));
    }

    /** The progress line: sent / size raises when size is 0. */
    method Show() returns (ok: bool)
      requires Valid()
      modifies this`trace
      ensures Valid() && ok == (size != 0)
      ensures Phase() == Next(old(Phase()), Event(Progress, ok), content)
    {
      hide Happened, Tries, PollsIn, Next;
      ok := size != 0;
      HappenedNext(trace, Event(Progress, ok), succeeds, polls, size);
      Record(Event(Progress, ok));
    }

    method Record(e: Event)
      modifies this`trace
      ensures trace == old(trace) + [e]
      ensures Phase() == Next(old(Phase()), e, content)
    {
      ghost var before := trace;
      trace := trace + [e];
      assert trace[..|trace| - 1] == before;
    }

    method Poll() returns (status: nat)
      requires Valid() && forall k :: Ticks(polls(k))
      modifies this`polled, this`trace
      ensures Valid()
      ensures trace == old(trace) + [Event(Status(status), true)]
      ensures Phase() == Next(old(Phase()), Event(Status(status), true), content)
    {
      hide Happened, Tries, PollsIn, Next, Ticks, LastRead;
      var attempts;
      status, attempts := WaitForFlashStatusOk(polls(polled), TIMEOUT);
      assert Reads(polls(polled), status);
      HappenedNext(trace, Event(Status(status), true), succeeds, polls, size);
      polled := polled + 1;
      Record(Event(Status(status), true));
    }

    /** The chunk loop, inside its two `with` blocks. */
    method CopyChunks() returns (ok: bool)
      requires Valid() && Phase() == Loading(content)
      modifies this`operations, this`trace
      ensures Valid() && Phase() == if ok then AtEnd else Stuck(true, true)
    {
      hide Next, PhaseOf, Happened, Tries, PollsIn;
      var sent := 0;
      while true
        invariant 0 <= sent <= |content| && Valid() && Phase() == Loading(content[sent..])
        decreases |content| - sent
      {
        ghost var rest := content[sent..];
        ok := Do(ReadFile);
        NextLoading(rest, ok, content);
        if !ok {
          return;
        }
        var chunk := content[sent..sent + Min(CHUNK, |content| - sent)];
        if chunk == [] {
          return;
        }
        assert chunk == rest[..Min(CHUNK, |rest|)];
        ok := Do(Data(chunk));
        NextLoading(rest, ok, content);
        assert rest[|chunk|..] == content[sent + |chunk|..];
        if !ok {
          return;
        }
        sent := sent + |chunk|;
        NextLoading(content[sent..], size != 0, content);
        ok := Show();
        if !ok {
          return;
        }
      }
    }

    /** The inner `with` block. */
    method Transfer() returns (ok: bool)
      requires Valid() && Phase() == Opened
      modifies this`operations, this`trace
      ensures Valid() && Phase() == if ok then Downloaded else Stuck(true, false)
    {
      hide PhaseOf, Happened, Tries, PollsIn;
      ok := Do(OpenDownload);
      if !ok { return; }
      ok := CopyChunks();
      var closed := Do(CloseDownload);
      ok := ok && closed;
    }

    /** Opening the file and the download, copying, closing both. */
    method Download() returns (ok: bool)
      requires Valid() && Phase() == Blank
      modifies this`operations, this`trace
      ensures Valid() && Phase() == if ok then Loaded else Stuck(false, false)
    {
      hide PhaseOf, Happened, Tries, PollsIn;
      ok := Do(GetSize);
      if !ok { return; }
      ok := Do(OpenFile);
      if !ok { return; }
      ok := Transfer();
      var closed := Do(CloseFile);
      ok := ok && closed;
    }

    /** Steps 1 to 3. A bad status is a warning only. */
    method Inspect() returns (ok: bool)
      requires Valid() && Phase() == Connected && forall k :: Ticks(polls(k))
      modifies this
      ensures Valid() && Phase() == if ok then Ready else Stuck(false, false)
    {
      hide PhaseOf, Happened, Tries, PollsIn, Ticks;
      var ignored := Do(ReadSwId);
      var status := Poll();
      ok := Do(PreOperational);
    }

    /** Steps 4 and 5: up to the erased flash. */
    method Erase() returns (ok: bool)
      requires Valid() && Phase() == Ready && forall k :: Ticks(polls(k))
      modifies this
      ensures Valid() && Phase() == if ok then Blank else Stuck(false, false)
    {
      hide PhaseOf, Happened, Tries, PollsIn, Ticks;
      ok := Do(Control(STOP));
      if !ok { return; }
      ok := Do(Control(CLEAR));
      if !ok { return; }
      var status := Poll();
      ok := status == 0;
    }

    /** After the download: the check. */
    method Verify() returns (ok: bool)
      requires Valid() && Phase() == Loaded && forall k :: Ticks(polls(k))
      modifies this
      ensures Valid() && Phase() == if ok then Reidentified else Stuck(false, false)
    {
      hide PhaseOf, Happened, Tries, PollsIn, Ticks;
      var status := Poll();
      if status != 0 { return false; }
      var ignored := Do(ReadSwId);
      ok := true;
    }

    /** Start and confirm. */
    method Launch() returns (ok: bool)
      requires Valid() && Phase() == Reidentified
      modifies this`operations, this`trace
      ensures Valid() && Phase() == if ok then Confirmed else Stuck(false, false)
    {
      hide PhaseOf, Happened, Tries, PollsIn;
      ok := Do(Control(START));
      if !ok { return; }
      var ignored := Do(WaitBootup);
      ok := Do(PreOperational);
      if !ok { return; }
      ok := Do(Control(CONFIRM));
    }

    /** The body of the `try` of `flash_firmware`. */
    method Update() returns (ok: bool)
      requires Valid() && Phase() == Connected && forall k :: Ticks(polls(k))
      modifies this
      ensures Valid() && Phase() == if ok then Confirmed else Stuck(false, false)
    {
      hide PhaseOf, Happened, Tries, PollsIn, Ticks;
      ok := Inspect();
      if !ok { return; }
      ok := Erase();
      if !ok { return; }
      ok := Download();
      if !ok { return; }
      ok := Verify();
      if !ok { return; }
      ok := Launch();
    }
  }

  lemma NextLoading(rest: seq<byte>, ok: bool, content: seq<byte>)
    ensures Next(Loading(rest), Event(ReadFile, ok), content)
            == if !ok then Stuck(true, true) else if rest == [] then AtEnd else Holding(rest)
    ensures Next(Sent(rest), Event(Progress, ok), content) == if ok then Loading(rest) else Stuck(true, true)
    ensures var n := Min(CHUNK, |rest|);
            rest != [] ==>
              Next(Holding(rest), Event(Data(rest[..n]), ok), content)
              == if ok then Sent(rest[n..]) else Stuck(true, true)
  {
  }

  /** `flash_firmware`, whatever fails: the run follows the protocol and ends with everything
      closed; it succeeds exactly if nothing went wrong, disconnecting included, and then the
      whole plan was written. */
  method FlashFirmware(succeeds: nat -> bool, polls: nat -> PollEnv, content: seq<byte>, size: nat)
    returns (ok: bool, trace: seq<Event>)
    requires forall k :: Ticks(polls(k))
    ensures PhaseOf(trace, content) == Finished
    ensures ok <==> Sound(trace)
    ensures ok ==> Attempted(trace) == Planned(content) && Shapes(trace) == Script(content)
    ensures ScriptThenClose(trace, content) && Happened(trace, succeeds, polls, size)
  {
    hide Happened, Tries, PollsIn,
         Sound, Cleared, Attempted, Planned, Shapes, Script, ScriptThenClose;
    var node := new Node(succeeds, polls, content, size);
    ok := node.Do(Connect);
    SoundNext([], Event(Connect, ok));
    assert Sound([]) by { NothingWrong(); }
    if ok {
      ok := node.Update();
      ghost var before := node.trace;
      SoundPhases(before, content);
      var done := node.Do(Disconnect);
      SoundNext(before, Event(Disconnect, done));
      if ok {
        WritesInOrder(before, content);
        AttemptedNext(before, Event(Disconnect, done));
      }
      assert node.trace[..|node.trace| - 1] == before;
      FollowsScript(node.trace, content);
      ok := ok && done;
    }
    trace := node.trace;
    AnyRun(trace, content);
  }

  lemma NothingWrong()
    ensures Sound([])
  {
  }

  lemma AttemptedNext(before: seq<Event>, e: Event)
    ensures Attempted(before + [e]) == Attempted(before) + WriteOf(e.op)
  {
    assert (before + [e])[..|before|] == before;
  }
}
