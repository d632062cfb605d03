/** The rollout-level state machine on the control plane: eight states, one handler per source state. */
module RolloutMachine {
  import opened Wrappers
  import HM = HostMachine
  import T = Timestamps

  type Stamp = c: T.Civil | T.Valid(c) witness T.Civil(1970, 1, 1, 0, 0, 0, 0)

  datatype RolloutState = Opening | Active | Converging | Terminal | Reverted | Failed | Superseded | Pruned

  datatype RolloutRecord = RolloutRecord(
    rolloutId: string, channel: string, targetRef: string, state: RolloutState, currentWave: u32,
    openedSeq: Option<int>, lastTransitionSeq: Option<int>,
    openedAt: Stamp, terminalAt: Option<Stamp>, supersededAt: Option<Stamp>)

  datatype RolloutEvent =
    | RolloutOpened(rolloutId: string, channel: string, targetRef: string, at: Stamp)
    | HostJoined(rolloutId: string, hostId: string, wave: u32, at: Stamp)
    | HostStateChanged(rolloutId: string, hostId: string, from: HM.HostState, to: HM.HostState, at: Stamp)
    | WaveAdvanced(rolloutId: string, fromWave: u32, toWave: u32, at: Stamp)
    | RolloutTerminal(rolloutId: string, at: Stamp)
    | SuccessorOpened(supersededId: string, successorId: string, at: Stamp)
    | RetentionExpired(rolloutId: string, at: Stamp)
    | OperatorClearance(rolloutId: string, operator: string, reason: string, at: Stamp)

  datatype RolloutEffect =
    | RecordRolloutTransition(rolloutId: string, from: RolloutState, to: RolloutState, at: Stamp)
    | UpdateCurrentWave(rolloutId: string, wave: u32)

  datatype RolloutError = IllegalForState(from: RolloutState) | Unimplemented(from: RolloutState)

  datatype Outcome = Stepped(next: RolloutRecord, effects: seq<RolloutEffect>) | Rejected(error: RolloutError)

  function Target(e: RolloutEvent): string {
    if e.SuccessorOpened? then e.supersededId else e.rolloutId
  }

  function MoveTo(r: RolloutRecord, to: RolloutState, at: Stamp): Outcome {
    var moved := r.(state := to);
    var next := if to.Terminal? then moved.(terminalAt := Some(at))
                else if to.Superseded? then moved.(supersededAt := Some(at))
                else moved;
    Stepped(next, [RecordRolloutTransition(r.rolloutId, r.state, to, at)])
  }

  function Ignore(r: RolloutRecord): Outcome {
    Stepped(r, [])
  }

  function Illegal(r: RolloutRecord): Outcome {
    Rejected(IllegalForState(r.state))
  }

  function FromOpening(r: RolloutRecord, e: RolloutEvent): Outcome {
    match e
    case HostJoined(_, _, _, at) => MoveTo(r, Active, at)
    case SuccessorOpened(_, _, at) => MoveTo(r, Superseded, at)
    case _ => Illegal(r)
  }

  /** Host failures are the only per-host changes that move a rollout. */
  function OnHostChange(r: RolloutRecord, to: HM.HostState, at: Stamp): Outcome {
    match to
    case Reverted => MoveTo(r, Reverted, at)
    case Failed => MoveTo(r, Failed, at)
    case _ => Ignore(r)
  }

  function FromActive(r: RolloutRecord, e: RolloutEvent): Outcome {
    match e
    case HostJoined(_, _, _, _) => Ignore(r)
    case HostStateChanged(_, _, _, to, at) => OnHostChange(r, to, at)
    case WaveAdvanced(_, fromWave, toWave, at) =>
      if toWave > fromWave then
        if toWave > r.currentWave
        then Stepped(r.(currentWave := toWave), [UpdateCurrentWave(r.rolloutId, toWave)])
        else Ignore(r)
      else MoveTo(r, Converging, at)
    case RolloutTerminal(_, at) => MoveTo(r, Terminal, at)
    case SuccessorOpened(_, _, at) => MoveTo(r, Superseded, at)
    case _ => Illegal(r)
  }

  function FromConverging(r: RolloutRecord, e: RolloutEvent): Outcome {
    match e
    case WaveAdvanced(_, fromWave, toWave, at) =>
      if toWave > fromWave then
        var moved := MoveTo(r, Active, at);
        if toWave > r.currentWave
        then Stepped(moved.next.(currentWave := toWave), moved.effects + [UpdateCurrentWave(r.rolloutId, toWave)])
        else moved
      else Ignore(r)
    case RolloutTerminal(_, at) => MoveTo(r, Terminal, at)
    case HostStateChanged(_, _, _, to, at) => OnHostChange(r, to, at)
    case SuccessorOpened(_, _, at) => MoveTo(r, Superseded, at)
    case HostJoined(_, _, _, _) => Ignore(r)
    case _ => Illegal(r)
  }

  function FromTerminal(r: RolloutRecord, e: RolloutEvent): Outcome {
    match e
    case SuccessorOpened(_, _, at) => MoveTo(r, Superseded, at)
    case RetentionExpired(_, at) => MoveTo(r, Pruned, at)
    case RolloutTerminal(_, _) => Ignore(r)
    case HostStateChanged(_, _, _, _, _) => Ignore(r)
    case HostJoined(_, _, _, _) => Ignore(r)
    case _ => Illegal(r)
  }

  /** `Reverted` and `Failed` have the same exits. */
  function FromBroken(r: RolloutRecord, e: RolloutEvent): Outcome {
    match e
    case SuccessorOpened(_, _, at) => MoveTo(r, Superseded, at)
    case RetentionExpired(_, at) => MoveTo(r, Pruned, at)
    case OperatorClearance(_, _, _, _) => Rejected(Unimplemented(r.state))
    case RolloutOpened(_, _, _, _) => Illegal(r)
    case _ => Ignore(r)
  }

  function FromSuperseded(r: RolloutRecord, e: RolloutEvent): Outcome {
    match e
    case RetentionExpired(_, at) => MoveTo(r, Pruned, at)
    case RolloutOpened(_, _, _, _) => Illegal(r)
    case OperatorClearance(_, _, _, _) => Illegal(r)
    case _ => Ignore(r)
  }

  function Step(r: RolloutRecord, e: RolloutEvent): Outcome {
    match r.state
    case Opening => FromOpening(r, e)
    case Active => FromActive(r, e)
    case Converging => FromConverging(r, e)
    case Terminal => FromTerminal(r, e)
    case Reverted => FromBroken(r, e)
    case Failed => FromBroken(r, e)
    case Superseded => FromSuperseded(r, e)
    case Pruned => Illegal(r)
  }

  // ----- The machine read event by event

  /** Which states accept an event. */
  predicate Accepts(state: RolloutState, e: RolloutEvent) {
    match e
    case RolloutOpened(_, _, _, _) => false
    case OperatorClearance(_, _, _, _) => false
    case HostJoined(_, _, _, _) => !state.Pruned?
    case HostStateChanged(_, _, _, _, _) => !state.Opening? && !state.Pruned?
    case WaveAdvanced(_, _, _, _) => !state.Opening? && !state.Terminal? && !state.Pruned?
    case RolloutTerminal(_, _) => !state.Opening? && !state.Pruned?
    case SuccessorOpened(_, _, _) => !state.Pruned?
    case RetentionExpired(_, _) => state.Terminal? || state.Reverted? || state.Failed? || state.Superseded?
  }

  predicate Running(state: RolloutState) {
    state.Active? || state.Converging?
  }

  /** Where an accepted event leads. */
  function Destination(state: RolloutState, e: RolloutEvent): RolloutState {
    match e
    case HostJoined(_, _, _, _) => if state.Opening? then Active else state
    case HostStateChanged(_, _, _, to, _) =>
      if Running(state) && to.Failed? then Failed else if Running(state) && to.Reverted? then Reverted else state
    case WaveAdvanced(_, fromWave, toWave, _) =>
      if !Running(state) then state else if toWave > fromWave then Active else Converging
    case RolloutTerminal(_, _) => if Running(state) then Terminal else state
    case SuccessorOpened(_, _, _) => Superseded
    case RetentionExpired(_, _) => Pruned
    case _ => state
  }

  function RaisedWave(r: RolloutRecord, e: RolloutEvent): u32 {
    if e.WaveAdvanced? && Running(r.state) && e.fromWave < e.toWave && r.currentWave < e.toWave then e.toWave
    else r.currentWave
  }

  /**
   An event is accepted or not by the state alone. An accepted one moves the state as listed, stamps it with the
   event's own time when it becomes Terminal or Superseded, raises the cursor on a wave advance, and says so in
   its effects; nothing else changes.
   */
  lemma StepByEvent(r: RolloutRecord, e: RolloutEvent)
    ensures Step(r, e).Stepped? <==> Accepts(r.state, e)
    ensures Step(r, e) == Rejected(Unimplemented(r.state)) <==>
              e.OperatorClearance? && (r.state.Reverted? || r.state.Failed?)
    ensures Accepts(r.state, e) ==>
              var to, wave := Destination(r.state, e), RaisedWave(r, e);
              var moved := to != r.state;
              && Step(r, e).next == r.(
                   state := to, currentWave := wave,
                   terminalAt := if moved && to.Terminal? then Some(e.at) else r.terminalAt,
                   supersededAt := if moved && to.Superseded? then Some(e.at) else r.supersededAt)
              && Step(r, e).effects ==
                   (if moved then [RecordRolloutTransition(r.rolloutId, r.state, to, e.at)] else [])
                   + (if wave != r.currentWave then [UpdateCurrentWave(r.rolloutId, wave)] else [])
  {}

  // ----- Runs of the machine

  function Advance(r: RolloutRecord, e: RolloutEvent): RolloutRecord {
    match Step(r, e)
    case Stepped(next, _) => next
    case Rejected(_) => r
  }

  function RunState(r: RolloutRecord, events: seq<RolloutEvent>): RolloutRecord
    decreases |events|
  {
    if events == [] then r else RunState(Advance(r, events[0]), events[1..])
  }

  /** How far a state is from being open: the open states share level 0, `Pruned` is last. */
  function Level(state: RolloutState): nat {
    match state
    case Opening => 0
    case Active => 1
    case Converging => 1
    case Terminal => 2
    case Reverted => 2
    case Failed => 2
    case Superseded => 3
    case Pruned => 4
  }

  /** The timestamps say which states the rollout has been through. */
  predicate Stamped(r: RolloutRecord) {
    match r.state
    case Terminal => r.terminalAt.Some? && r.supersededAt.None?
    case Superseded => r.supersededAt.Some?
    case Pruned => true
    case _ => r.terminalAt.None? && r.supersededAt.None?
  }

  /** What every event may do to a record. */
  predicate Progress(r: RolloutRecord, s: RolloutRecord) {
    && s.rolloutId == r.rolloutId && s.channel == r.channel && s.targetRef == r.targetRef && s.openedAt == r.openedAt
    && r.currentWave <= s.currentWave
    && Level(r.state) <= Level(s.state)
    && (Level(r.state) == Level(s.state) >= 2 ==> s == r)
    && (r.terminalAt.Some? ==> s.terminalAt == r.terminalAt)
    && (r.supersededAt.Some? ==> s.supersededAt == r.supersededAt)
  }

  lemma StepProgress(r: RolloutRecord, e: RolloutEvent)
    requires Stamped(r)
    ensures Stamped(Advance(r, e)) && Progress(r, Advance(r, e))
  {
  }

  /**
   Over every run: the wave cursor and the level never go back, a settled rollout never reopens and never
   changes one verdict for another, its stamps are written once, and `Pruned` is absorbing.
   */
  lemma {:induction false} RunProgress(r: RolloutRecord, events: seq<RolloutEvent>)
    requires Stamped(r)
    ensures Stamped(RunState(r, events)) && Progress(r, RunState(r, events))
    decreases |events|
  {
    if events != [] {
      StepProgress(r, events[0]);
      RunProgress(Advance(r, events[0]), events[1..]);
    }
  }

  /** The wave cursor moves only on a wave advance, never on a host joining. */
  lemma CursorMovesOnlyOnAdvance(r: RolloutRecord, e: RolloutEvent)
    ensures Advance(r, e).currentWave != r.currentWave <==>
              && e.WaveAdvanced? && (r.state.Active? || r.state.Converging?)
              && e.toWave > e.fromWave && e.toWave > r.currentWave
    ensures Advance(r, e).currentWave != r.currentWave ==> Advance(r, e).currentWave == e.toWave
  {
  }
}
