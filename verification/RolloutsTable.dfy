/**
 The `rollouts` table and the host records that hang off it. The reducer's effects are the only writes,
 so the table is the persisted image of the rollout machine.
 */
module RolloutsTable {
  import opened Wrappers
  import opened RolloutMachine
  import HM = HostMachine
  import T = Timestamps
  import Text

  type Rows = map<string, RolloutRecord>
  type HostRecords = map<(string, string), HM.HostRolloutState>

  /** Timestamps are text in the table, and text is what SQL compares. */
  predicate Before(a: Stamp, b: Stamp) {
    Text.Less(T.Rfc3339(a), T.Rfc3339(b))
  }

  // ----- The statements, as functions on the rows

  function Opened(rows: Rows, id: string, channel: string, targetRef: string, at: Stamp, seqNo: Option<int>): Rows {
    if id in rows then rows
    else rows[id := RolloutRecord(id, channel, targetRef, Opening, 0, seqNo, seqNo, at, None, None)]
  }

  function Transitioned(rows: Rows, id: string, to: RolloutState, at: Stamp, seqNo: Option<int>): Rows {
    if id !in rows || rows[id].state == to then rows
    else
      var moved := rows[id].(state := to, lastTransitionSeq := seqNo);
      rows[id := if to.Terminal? then moved.(terminalAt := Some(at))
                 else if to.Superseded? then moved.(supersededAt := Some(at))
                 else moved]
  }

  function Waved(rows: Rows, id: string, wave: u32, seqNo: Option<int>): Rows {
    if id in rows && rows[id].currentWave < wave
    then rows[id := rows[id].(currentWave := wave,
                              lastTransitionSeq := if seqNo.Some? then seqNo else rows[id].lastTransitionSeq)]
    else rows
  }

  predicate Expired(r: RolloutRecord, cutoff: Stamp) {
    && (r.state.Superseded? || r.state.Terminal? || r.state.Failed? || r.state.Reverted?)
    && ((r.supersededAt.Some? && Before(r.supersededAt.value, cutoff))
        || (r.terminalAt.Some? && Before(r.terminalAt.value, cutoff)))
  }

  function ExpiredIds(rows: Rows, cutoff: Stamp): set<string> {
    set id | id in rows && Expired(rows[id], cutoff)
  }

  function PrunedRows(rows: Rows, cutoff: Stamp): Rows {
    rows - ExpiredIds(rows, cutoff)
  }

  function PrunedRecords(records: HostRecords, rows: Rows, cutoff: Stamp): HostRecords {
    WithoutRollouts(records, ExpiredIds(rows, cutoff))
  }

  // ----- Reducer effects as writes

  function ApplyEffect(rows: Rows, effect: RolloutEffect): Rows {
    match effect
    case RecordRolloutTransition(id, _, to, at) => Transitioned(rows, id, to, at, None)
    case UpdateCurrentWave(id, wave) => Waved(rows, id, wave, None)
  }

  function ApplyEffects(rows: Rows, effects: seq<RolloutEffect>): Rows
    decreases |effects|
  {
    if effects == [] then rows else ApplyEffects(ApplyEffect(rows, effects[0]), effects[1..])
  }

  /** Load the row, step the machine, write the effects; unknown rollouts and rejected events write nothing. */
  function Processed(rows: Rows, e: RolloutEvent): Rows {
    if Target(e) !in rows then rows
    else
      match Step(rows[Target(e)], e)
      case Stepped(_, effects) => ApplyEffects(rows, effects)
      case Rejected(_) => rows
  }

  predicate Keyed(rows: Rows) {
    forall id :: id in rows ==> rows[id].rolloutId == id
  }

  lemma ApplyUpToTwo(rows: Rows, effects: seq<RolloutEffect>)
    requires |effects| <= 2
    ensures ApplyEffects(rows, effects) ==
              if |effects| == 0 then rows
              else if |effects| == 1 then ApplyEffect(rows, effects[0])
              else ApplyEffect(ApplyEffect(rows, effects[0]), effects[1])
  {
    if |effects| == 2 {
      assert effects[1..] == [effects[1]];
      assert ApplyEffects(ApplyEffect(rows, effects[0]), [effects[1]]) ==
             ApplyEffects(ApplyEffect(ApplyEffect(rows, effects[0]), effects[1]), [effects[1]][1..]);
    }
  }

  /**
   The effects carry everything: after writing them, the row is the machine's next record in every
   field, except that the event-log reference is cleared by each state change.
   */
  lemma EffectsPersistState(rows: Rows, e: RolloutEvent)
    requires Keyed(rows)
    ensures Target(e) in rows ==>
              var r := rows[Target(e)];
              var next := Advance(r, e);
              Processed(rows, e) ==
                rows[Target(e) := next.(lastTransitionSeq :=
                  if next.state == r.state then r.lastTransitionSeq else None)]
    ensures Target(e) !in rows ==> Processed(rows, e) == rows
  {
    if Target(e) in rows {
      var r := rows[Target(e)];
      assert rows[Target(e) := r] == rows;
      match Step(r, e)
      case Rejected(_) =>
      case Stepped(next, effects) =>
        StepWrites(r, e);
        StepEffectsShort(r, e);
        ApplyUpToTwo(rows, effects);
        WritesPersist(rows, Target(e), next, effects);
    }
  }

  /** The effects of a step, by what changed: nothing, the state, the cursor, or both in that order. */
  predicate Writes(r: RolloutRecord, next: RolloutRecord, effects: seq<RolloutEffect>) {
    if |effects| == 0 then next == r
    else if |effects| == 1 && effects[0].UpdateCurrentWave? then
      effects[0].rolloutId == r.rolloutId && effects[0].wave > r.currentWave
      && next == r.(currentWave := effects[0].wave)
    else
      && |effects| <= 2 && effects[0].RecordRolloutTransition? && effects[0].rolloutId == r.rolloutId
      && effects[0].to != r.state
      && var moved := MoveTo(r, effects[0].to, effects[0].at).next;
         if |effects| == 1 then next == moved
         else
           && effects[1].UpdateCurrentWave? && effects[1].rolloutId == r.rolloutId
           && effects[1].wave > r.currentWave && next == moved.(currentWave := effects[1].wave)
  }

  lemma StepWrites(r: RolloutRecord, e: RolloutEvent)
    requires Step(r, e).Stepped?
    ensures Writes(r, Step(r, e).next, Step(r, e).effects)
  {}

  lemma WritesPersist(rows: Rows, id: string, next: RolloutRecord, effects: seq<RolloutEffect>)
    requires Keyed(rows) && id in rows && Writes(rows[id], next, effects)
    ensures var once := if |effects| == 0 then rows else ApplyEffect(rows, effects[0]);
            (if |effects| <= 1 then once else ApplyEffect(once, effects[1]))
            == rows[id := next.(lastTransitionSeq :=
                 if next.state == rows[id].state then rows[id].lastTransitionSeq else None)]
  {
    assert rows[id := rows[id]] == rows;
  }

  lemma StepEffectsShort(r: RolloutRecord, e: RolloutEvent)
    ensures Step(r, e).Stepped? ==> |Step(r, e).effects| <= 2
  {
  }

  // ----- Opening a rollout supersedes its predecessors

  predicate IsLive(r: RolloutRecord) {
    !r.state.Superseded? && !r.state.Pruned?
  }

  predicate IsPredecessor(r: RolloutRecord, id: string, channel: string) {
    IsLive(r) && r.channel == channel && r.rolloutId != id
  }

  function SupersededRow(r: RolloutRecord, at: Stamp): RolloutRecord {
    r.(state := Superseded, supersededAt := Some(at), lastTransitionSeq := None)
  }

  /** Insert the new row, then send every live rollout of the channel its successor. */
  function OpenedOver(rows: Rows, id: string, channel: string, targetRef: string, at: Stamp): Rows {
    map k | k in Opened(rows, id, channel, targetRef, at, None) ::
      if k in rows && IsPredecessor(rows[k], id, channel) then SupersededRow(rows[k], at)
      else Opened(rows, id, channel, targetRef, at, None)[k]
  }

  predicate Rivals(a: RolloutRecord, b: RolloutRecord) {
    IsLive(a) && IsLive(b) && a.channel == b.channel
  }

  /** At most one live rollout for each channel. */
  predicate OneLive(rows: Rows) {
    forall i, j :: i in rows && j in rows && Rivals(rows[i], rows[j]) ==> i == j
  }

  predicate TableOk(rows: Rows) {
    Keyed(rows) && OneLive(rows) && forall id :: id in rows ==> Stamped(rows[id])
  }

  /**
   Opening, row by row: the new row is open at wave 0 with the time of opening, every other rollout of the
   channel that was not superseded or pruned is superseded at that time, and nothing else changes.
   */
  lemma OpenedByRow(rows: Rows, id: string, channel: string, targetRef: string, at: Stamp)
    requires Keyed(rows)
    ensures var after := OpenedOver(rows, id, channel, targetRef, at);
            && after.Keys == rows.Keys + {id}
            && (id !in rows ==>
                  after[id] == RolloutRecord(id, channel, targetRef, Opening, 0, None, None, at, None, None))
            && (id in rows ==> after[id] == rows[id])
            && forall k :: k in rows && k != id ==>
                 if rows[k].channel == channel && !rows[k].state.Superseded? && !rows[k].state.Pruned?
                 then after[k] == rows[k].(state := Superseded, supersededAt := Some(at), lastTransitionSeq := None)
                 else after[k] == rows[k]
  {}

  /** The single-row statements, field by field. */
  lemma StatementsByField(rows: Rows, id: string, to: RolloutState, at: Stamp, wave: u32, seqNo: Option<int>)
    requires id in rows
    ensures var r, t := rows[id], Transitioned(rows, id, to, at, seqNo);
            && t.Keys == rows.Keys && (forall k :: k in rows && k != id ==> t[k] == rows[k])
            && t[id] == if r.state == to then r
                        else r.(state := to, lastTransitionSeq := seqNo,
                                terminalAt := if to.Terminal? then Some(at) else r.terminalAt,
                                supersededAt := if to.Superseded? then Some(at) else r.supersededAt)
    ensures var r, w := rows[id], Waved(rows, id, wave, seqNo);
            && w.Keys == rows.Keys && (forall k :: k in rows && k != id ==> w[k] == rows[k])
            && w[id] == if wave <= r.currentWave then r
                        else r.(currentWave := wave,
                                lastTransitionSeq := if seqNo.None? then r.lastTransitionSeq else seqNo)
  {}

  // ----- Operations and runs

  datatype Op =
    | OpenOp(id: string, channel: string, targetRef: string, at: Stamp)
    | EventOp(event: RolloutEvent)
    | WaveOp(id: string, wave: u32)
    | PruneOp(cutoff: Stamp)

  function Apply(rows: Rows, op: Op): Rows {
    match op
    case OpenOp(id, channel, targetRef, at) => OpenedOver(rows, id, channel, targetRef, at)
    case EventOp(e) => Processed(rows, e)
    case WaveOp(id, wave) => Waved(rows, id, wave, None)
    case PruneOp(cutoff) => PrunedRows(rows, cutoff)
  }

  function ApplyAll(rows: Rows, ops: seq<Op>): Rows
    decreases |ops|
  {
    if ops == [] then rows else ApplyAll(Apply(rows, ops[0]), ops[1..])
  }

  /** While a row exists its cursor and level never go back, and it stays the same rollout. */
  predicate Forward(rows: Rows, after: Rows) {
    forall id :: id in rows && id in after ==>
      && after[id].channel == rows[id].channel && after[id].targetRef == rows[id].targetRef
      && rows[id].currentWave <= after[id].currentWave
      && Level(rows[id].state) <= Level(after[id].state)
  }

  /** Rewriting one row with a later record of the same rollout. */
  lemma RewriteKeeps(rows: Rows, id: string, next: RolloutRecord)
    requires TableOk(rows) && id in rows
    requires next.rolloutId == id && next.channel == rows[id].channel && next.targetRef == rows[id].targetRef
    requires Stamped(next) && rows[id].currentWave <= next.currentWave && Level(rows[id].state) <= Level(next.state)
    ensures TableOk(rows[id := next]) && Forward(rows, rows[id := next])
  {}

  lemma EventKeeps(rows: Rows, e: RolloutEvent)
    requires TableOk(rows)
    ensures TableOk(Processed(rows, e)) && Forward(rows, Processed(rows, e))
  {
    EffectsPersistState(rows, e);
    if Target(e) in rows {
      StepProgress(rows[Target(e)], e);
      RewriteKeeps(rows, Target(e), Processed(rows, e)[Target(e)]);
    }
  }

  lemma OpenKeeps(rows: Rows, id: string, channel: string, targetRef: string, at: Stamp)
    requires TableOk(rows)
    ensures TableOk(OpenedOver(rows, id, channel, targetRef, at))
    ensures Forward(rows, OpenedOver(rows, id, channel, targetRef, at))
  {
    var after := OpenedOver(rows, id, channel, targetRef, at);
    forall k | k in after
      ensures after[k].rolloutId == k && Stamped(after[k])
      ensures IsLive(after[k]) && after[k].channel == channel ==> k == id
      ensures k != id ==> k in rows && after[k].channel == rows[k].channel && (IsLive(after[k]) ==> IsLive(rows[k]))
      ensures k in rows && k == id ==> after[k] == rows[k]
    {
      OpenedRow(rows, id, channel, targetRef, at, k);
    }
    forall k | k in rows && k in after
      ensures after[k].targetRef == rows[k].targetRef && rows[k].currentWave == after[k].currentWave
      ensures Level(rows[k].state) <= Level(after[k].state)
    {
      OpenedRow(rows, id, channel, targetRef, at, k);
    }
  }

  /** One row after opening a rollout. */
  lemma OpenedRow(rows: Rows, id: string, channel: string, targetRef: string, at: Stamp, k: string)
    requires Keyed(rows) && k in OpenedOver(rows, id, channel, targetRef, at)
    requires forall j :: j in rows ==> Stamped(rows[j])
    ensures var row := OpenedOver(rows, id, channel, targetRef, at)[k];
            && row.rolloutId == k && Stamped(row)
            && (IsLive(row) && row.channel == channel ==> k == id)
            && (k != id ==> k in rows)
            && (k in rows ==>
                  && row.channel == rows[k].channel && row.targetRef == rows[k].targetRef
                  && row.currentWave == rows[k].currentWave && Level(rows[k].state) <= Level(row.state)
                  && (k == id ==> row == rows[k])
                  && (IsLive(row) ==> IsLive(rows[k])))
  {
  }

  lemma RemovalKeeps(rows: Rows, gone: set<string>)
    requires TableOk(rows)
    ensures TableOk(rows - gone) && Forward(rows, rows - gone)
  {}

  lemma ApplyKeeps(rows: Rows, op: Op)
    requires TableOk(rows)
    ensures TableOk(Apply(rows, op)) && Forward(rows, Apply(rows, op))
  {
    match op
    case OpenOp(id, channel, targetRef, at) => OpenKeeps(rows, id, channel, targetRef, at);
    case EventOp(e) => EventKeeps(rows, e);
    case WaveOp(id, wave) =>
      if id in rows && rows[id].currentWave < wave { RewriteKeeps(rows, id, Waved(rows, id, wave, None)[id]); }
    case PruneOp(cutoff) => RemovalKeeps(rows, ExpiredIds(rows, cutoff));
  }

  /** Every reachable table: one live rollout per channel, and stamps that tell its history. */
  lemma {:induction false} RunKeepsTable(rows: Rows, ops: seq<Op>)
    requires TableOk(rows)
    ensures TableOk(ApplyAll(rows, ops))
    decreases |ops|
  {
    if ops != [] {
      ApplyKeeps(rows, ops[0]);
      RunKeepsTable(Apply(rows, ops[0]), ops[1..]);
    }
  }

  /** The row of `id` is never deleted along the run. */
  predicate Survives(rows: Rows, ops: seq<Op>, id: string)
    decreases |ops|
  {
    id in rows && (ops == [] || Survives(Apply(rows, ops[0]), ops[1..], id))
  }

  /** While a row exists, its wave cursor never decreases over any run. */
  lemma {:induction false} WaveNeverDecreases(rows: Rows, ops: seq<Op>, id: string)
    requires TableOk(rows) && Survives(rows, ops, id)
    ensures id in ApplyAll(rows, ops)
    ensures rows[id].currentWave <= ApplyAll(rows, ops)[id].currentWave
    ensures Level(rows[id].state) <= Level(ApplyAll(rows, ops)[id].state)
    decreases |ops|
  {
    if ops != [] {
      ApplyKeeps(rows, ops[0]);
      WaveNeverDecreases(Apply(rows, ops[0]), ops[1..], id);
    }
  }

  // ----- Pruning

  /** A failed or reverted rollout carries no stamp, so no cutoff ever deletes it, although the query names it. */
  lemma BrokenNeverExpires(rows: Rows, id: string, cutoff: Stamp)
    requires TableOk(rows) && id in rows
    ensures Expired(rows[id], cutoff) ==> rows[id].state.Superseded? || rows[id].state.Terminal?
    ensures rows[id].state.Terminal? || rows[id].state.Superseded? ==>
              (Expired(rows[id], cutoff) <==>
                 || (rows[id].supersededAt.Some? && T.InstantOf(rows[id].supersededAt.value) < T.InstantOf(cutoff))
                 || (rows[id].terminalAt.Some? && T.InstantOf(rows[id].terminalAt.value) < T.InstantOf(cutoff)))
  {
    if rows[id].supersededAt.Some? { T.TextOrderIsTimeOrder(rows[id].supersededAt.value, cutoff); }
    if rows[id].terminalAt.Some? { T.TextOrderIsTimeOrder(rows[id].terminalAt.value, cutoff); }
  }

  /**
   Pruning deletes exactly the host records of the rollouts it deletes, keeps every other row as it is,
   and a second prune with the same cutoff finds nothing.
   */
  lemma PruneIsExact(rows: Rows, records: HostRecords, cutoff: Stamp)
    ensures forall key :: key in records ==>
              (key !in PrunedRecords(records, rows, cutoff) <==>
                 key.0 in rows && key.0 !in PrunedRows(rows, cutoff))
    ensures forall id :: id in PrunedRows(rows, cutoff) ==> PrunedRows(rows, cutoff)[id] == rows[id]
    ensures ExpiredIds(PrunedRows(rows, cutoff), cutoff) == {}
    ensures PrunedRecords(PrunedRecords(records, rows, cutoff), PrunedRows(rows, cutoff), cutoff)
            == PrunedRecords(records, rows, cutoff)
  {
  }

  // ----- Listings

  /** `ORDER BY opened_at DESC, rollout_id`. */
  predicate Precedes(a: RolloutRecord, b: RolloutRecord) {
    var x, y := T.Rfc3339(a.openedAt), T.Rfc3339(b.openedAt);
    Text.Less(y, x) || (x == y && Text.Less(a.rolloutId, b.rolloutId))
  }

  /** Newest first by the instant of opening, and by id where two were opened at one instant. */
  predicate NewerFirst(a: RolloutRecord, b: RolloutRecord) {
    || T.InstantOf(b.openedAt) < T.InstantOf(a.openedAt)
    || (T.InstantOf(b.openedAt) == T.InstantOf(a.openedAt) && Text.Less(a.rolloutId, b.rolloutId))
  }

  lemma PrecedesIsNewer(a: RolloutRecord, b: RolloutRecord)
    ensures Precedes(a, b) <==> NewerFirst(a, b)
  {
    T.TextOrderIsTimeOrder(a.openedAt, b.openedAt);
    T.TextOrderIsTimeOrder(b.openedAt, a.openedAt);
    var x, y := T.Rfc3339(a.openedAt), T.Rfc3339(b.openedAt);
    Text.LessTotal(x, y);
    Text.LessIrreflexive(x);
  }

  predicate Shown(r: RolloutRecord, excludeTerminal: bool) {
    IsLive(r) && !(excludeTerminal && r.state.Terminal?)
  }

  /** `ids` are the shown rows, each once, in listing order. */
  ghost predicate IsListing(rows: Rows, excludeTerminal: bool, ids: seq<string>) {
    && (forall i :: 0 <= i < |ids| ==> ids[i] in rows && Shown(rows[ids[i]], excludeTerminal))
    && (forall id :: id in rows && Shown(rows[id], excludeTerminal) ==> id in ids)
    && (forall i, j :: 0 <= i < j < |ids| ==> Precedes(rows[ids[i]], rows[ids[j]]))
  }

  lemma PrecedesTotal(a: RolloutRecord, b: RolloutRecord)
    ensures Precedes(a, b) || Precedes(b, a) || a.rolloutId == b.rolloutId
    ensures !(Precedes(a, b) && Precedes(b, a)) && !Precedes(a, a)
  {
    var x, y := T.Rfc3339(a.openedAt), T.Rfc3339(b.openedAt);
    Text.LessTotal(x, y);
    Text.LessTotal(a.rolloutId, b.rolloutId);
    Text.LessIrreflexive(x);
    Text.LessIrreflexive(a.rolloutId);
    if Text.Less(x, y) && Text.Less(y, x) { Text.LessTransitive(x, y, x); }
    if Text.Less(a.rolloutId, b.rolloutId) && Text.Less(b.rolloutId, a.rolloutId) {
      Text.LessTransitive(a.rolloutId, b.rolloutId, a.rolloutId);
    }
  }

  lemma PrecedesTransitive(a: RolloutRecord, b: RolloutRecord, c: RolloutRecord)
    requires Precedes(a, b) && Precedes(b, c)
    ensures Precedes(a, c)
  {
    var x, y, z := T.Rfc3339(a.openedAt), T.Rfc3339(b.openedAt), T.Rfc3339(c.openedAt);
    if Text.Less(y, x) && Text.Less(z, y) { Text.LessTransitive(z, y, x); }
    if Text.Less(a.rolloutId, b.rolloutId) && Text.Less(b.rolloutId, c.rolloutId) {
      Text.LessTransitive(a.rolloutId, b.rolloutId, c.rolloutId);
    }
  }

  /** The table has one listing only. */
  lemma {:induction false} ListingIsUnique(rows: Rows, excludeTerminal: bool, a: seq<string>, b: seq<string>)
    requires Keyed(rows)
    requires IsListing(rows, excludeTerminal, a) && IsListing(rows, excludeTerminal, b)
    ensures a == b
  {
    StrictSequencesAgree(rows, a, b);
  }

  lemma {:induction false} StrictSequencesAgree(rows: Rows, a: seq<string>, b: seq<string>)
    requires Keyed(rows)
    requires forall i :: 0 <= i < |a| ==> a[i] in rows
    requires forall i :: 0 <= i < |b| ==> b[i] in rows
    requires forall i, j :: 0 <= i < j < |a| ==> Precedes(rows[a[i]], rows[a[j]])
    requires forall i, j :: 0 <= i < j < |b| ==> Precedes(rows[b[i]], rows[b[j]])
    requires forall id :: id in a <==> id in b
    ensures a == b
  {
    assert b != [] ==> b[0] in a;
    if a != [] {
      assert a[0] in b;
      assert b[0] in a;
      PrecedesTotal(rows[a[0]], rows[b[0]]);
      assert a[0] == b[0];
      forall id | id in a[1..] ensures id in b[1..] {
        PrecedesTotal(rows[a[0]], rows[id]);
        assert id in a && id in b;
      }
      forall id | id in b[1..] ensures id in a[1..] {
        PrecedesTotal(rows[b[0]], rows[id]);
        assert id in b && id in a;
      }
      StrictSequencesAgree(rows, a[1..], b[1..]);
      assert a == [a[0]] + a[1..] && b == [b[0]] + b[1..];
    }
  }

  /** The ids whose rows carry no terminal stamp, in order: what `into_ui` keeps. */
  function Unstamped(rows: Rows, ids: seq<string>): seq<string>
    requires forall i :: 0 <= i < |ids| ==> ids[i] in rows
  {
    if ids == [] then []
    else (if rows[ids[0]].terminalAt.None? then [ids[0]] else []) + Unstamped(rows, ids[1..])
  }

  lemma {:induction false} UnstampedFilters(rows: Rows, ids: seq<string>)
    requires forall i :: 0 <= i < |ids| ==> ids[i] in rows
    requires forall i, j :: 0 <= i < j < |ids| ==> Precedes(rows[ids[i]], rows[ids[j]])
    ensures forall id :: id in Unstamped(rows, ids) <==> id in ids && rows[id].terminalAt.None?
    ensures forall i :: 0 <= i < |Unstamped(rows, ids)| ==> Unstamped(rows, ids)[i] in rows
    ensures forall i, j :: 0 <= i < j < |Unstamped(rows, ids)| ==>
              Precedes(rows[Unstamped(rows, ids)[i]], rows[Unstamped(rows, ids)[j]])
  {
    if ids != [] {
      UnstampedFilters(rows, ids[1..]);
      var rest := Unstamped(rows, ids[1..]);
      forall k | 0 <= k < |rest| ensures rest[k] in rows && Precedes(rows[ids[0]], rows[rest[k]]) {
        assert rest[k] in ids[1..];
      }
      forall id | id in ids ensures id == ids[0] || id in ids[1..] {
      }
    }
  }

  /** Each live row is stamped terminal exactly when it is terminal. */
  predicate StampsAgree(rows: Rows) {
    forall id :: id in rows && IsLive(rows[id]) ==> (rows[id].terminalAt.Some? <==> rows[id].state.Terminal?)
  }

  /** Demoting the gate listing gives the UI listing, in the same order, exactly when the stamps agree. */
  lemma IntoUiIsInFlightIff(rows: Rows, active: seq<string>, inFlight: seq<string>)
    requires Keyed(rows) && IsListing(rows, false, active) && IsListing(rows, true, inFlight)
    ensures Unstamped(rows, active) == inFlight <==> StampsAgree(rows)
  {
    UnstampedFilters(rows, active);
    if StampsAgree(rows) {
      forall id | id in Unstamped(rows, active) ensures id in inFlight {
        var i :| 0 <= i < |active| && active[i] == id;
      }
      forall id | id in inFlight ensures id in Unstamped(rows, active) {
        var i :| 0 <= i < |inFlight| && inFlight[i] == id;
        assert id in active;
      }
      StrictSequencesAgree(rows, Unstamped(rows, active), inFlight);
    }
    if Unstamped(rows, active) == inFlight {
      forall id | id in rows && IsLive(rows[id])
        ensures rows[id].terminalAt.Some? <==> rows[id].state.Terminal?
      {
        assert Shown(rows[id], false) && id in active;
        assert id in inFlight <==> Shown(rows[id], true) by {
          if id in inFlight {
            var i :| 0 <= i < |inFlight| && inFlight[i] == id;
          }
        }
      }
    }
  }

  /** Every reachable table has agreeing stamps, so the two listings never drift apart. */
  lemma ReachableStampsAgree(ops: seq<Op>)
    ensures StampsAgree(ApplyAll(map[], ops)) && Keyed(ApplyAll(map[], ops))
  {
    RunKeepsTable(map[], ops);
  }

  // ----- The table object

  lemma {:induction false} FirstExists(rows: Rows, ids: set<string>) returns (first: string)
    requires Keyed(rows) && ids != {} && ids <= rows.Keys
    ensures first in ids && forall id :: id in ids && id != first ==> Precedes(rows[first], rows[id])
    decreases |ids|
  {
    first :| first in ids;
    if ids != {first} {
      var other := FirstExists(rows, ids - {first});
      PrecedesTotal(rows[first], rows[other]);
      if Precedes(rows[other], rows[first]) {
        first := other;
      } else {
        forall id | id in ids && id != first && id != other ensures Precedes(rows[first], rows[id]) {
          PrecedesTransitive(rows[first], rows[other], rows[id]);
        }
      }
    }
  }

  /** `start` with the rows of `done` superseded. */
  function SupersedeAll(start: Rows, done: set<string>, at: Stamp): Rows {
    map k | k in start :: if k in done then SupersededRow(start[k], at) else start[k]
  }

  lemma SupersedeOne(rows: Rows, k: string, id: string, at: Stamp)
    requires Keyed(rows) && k in rows && IsLive(rows[k])
    ensures Processed(rows, SuccessorOpened(k, id, at)) == rows[k := SupersededRow(rows[k], at)]
  {
    EffectsPersistState(rows, SuccessorOpened(k, id, at));
  }

  lemma SupersedeStep(start: Rows, done: set<string>, k: string, id: string, at: Stamp)
    requires Keyed(start) && k in start && k !in done && IsLive(start[k])
    ensures Processed(SupersedeAll(start, done, at), SuccessorOpened(k, id, at)) == SupersedeAll(start, done + {k}, at)
  {
    SupersedeOne(SupersedeAll(start, done, at), k, id, at);
  }

  lemma MapMinusSize<K, V>(m: map<K, V>, gone: set<K>)
    requires gone <= m.Keys
    ensures |m - gone| + |gone| == |m|
  {
    assert (m - gone).Keys == m.Keys - gone;
    assert |m - gone| == |(m - gone).Keys| && |m| == |m.Keys|;
  }

  function WithoutRollouts(records: HostRecords, gone: set<string>): HostRecords {
    map key | key in records && key.0 !in gone :: records[key]
  }

  lemma RemovedSize(records: HostRecords, gone: set<string>, doomed: set<(string, string)>)
    requires doomed == set key | key in records && key.0 in gone
    ensures records - doomed == WithoutRollouts(records, gone)
    ensures |doomed| + |records - doomed| == |records|
  {
    MapMinusSize(records, doomed);
  }

  /** `ids` name rows in listing order, and everything in `rest` comes after them. */
  ghost predicate OrderedBefore(rows: Rows, ids: seq<string>, rest: set<string>) {
    && rest <= rows.Keys
    && (forall i :: 0 <= i < |ids| ==> ids[i] in rows)
    && (forall i, j :: 0 <= i < j < |ids| ==> Precedes(rows[ids[i]], rows[ids[j]]))
    && (forall i, id :: 0 <= i < |ids| && id in rest ==> Precedes(rows[ids[i]], rows[id]))
  }

  lemma OrderedAppend(rows: Rows, ids: seq<string>, rest: set<string>, first: string)
    requires OrderedBefore(rows, ids, rest) && first in rest
    requires forall id :: id in rest && id != first ==> Precedes(rows[first], rows[id])
    ensures OrderedBefore(rows, ids + [first], rest - {first})
  {
    var longer := ids + [first];
    forall i, j | 0 <= i < j < |longer| ensures Precedes(rows[longer[i]], rows[longer[j]]) {
      assert longer[i] == ids[i] && longer[j] == if j < |ids| then ids[j] else first;
    }
  }

  class Rollouts {
    var rows: Rows
    var hostRecords: HostRecords

    constructor ()
      ensures rows == map[] && hostRecords == map[]
    {
      rows, hostRecords := map[], map[];
    }

    method RecordRolloutOpened(id: string, channel: string, targetRef: string, at: Stamp, seqNo: Option<int>)
      modifies this`rows
      ensures rows == Opened(old(rows), id, channel, targetRef, at, seqNo)
    {
      if id !in rows {
        rows := rows[id := RolloutRecord(id, channel, targetRef, Opening, 0, seqNo, seqNo, at, None, None)];
      }
    }

    method RecordRolloutTransition(id: string, to: RolloutState, at: Stamp, seqNo: Option<int>) returns (n: nat)
      modifies this`rows
      ensures rows == Transitioned(old(rows), id, to, at, seqNo)
      ensures n == if id in old(rows) && old(rows)[id].state != to then 1 else 0
    {
      n := 0;
      if id in rows && rows[id].state != to {
        var row := rows[id].(state := to, lastTransitionSeq := seqNo);
        if to.Terminal? { row := row.(terminalAt := Some(at)); }
        if to.Superseded? { row := row.(supersededAt := Some(at)); }
        rows := rows[id := row];
        n := 1;
      }
    }

    method SetCurrentWave(id: string, wave: u32, seqNo: Option<int>) returns (n: nat)
      modifies this`rows
      ensures rows == Waved(old(rows), id, wave, seqNo)
      ensures n == if id in old(rows) && old(rows)[id].currentWave < wave then 1 else 0
    {
      n := 0;
      if id in rows && rows[id].currentWave < wave {
        var last := if seqNo.Some? then seqNo else rows[id].lastTransitionSeq;
        rows := rows[id := rows[id].(currentWave := wave, lastTransitionSeq := last)];
        n := 1;
      }
    }

    method ProcessRolloutEvent(e: RolloutEvent)
      modifies this`rows
      ensures rows == Processed(old(rows), e)
    {
      if Target(e) !in rows { return; }
      var out := Step(rows[Target(e)], e);
      if out.Rejected? { return; }
      ghost var start := rows;
      var k := 0;
      while k < |out.effects|
        invariant 0 <= k <= |out.effects|
        invariant ApplyEffects(rows, out.effects[k..]) == ApplyEffects(start, out.effects)
      {
        assert out.effects[k..][1..] == out.effects[k + 1..];
        match out.effects[k] {
          case RecordRolloutTransition(id, _, to, at) => var _ := RecordRolloutTransition(id, to, at, None);
          case UpdateCurrentWave(id, wave) => var _ := SetCurrentWave(id, wave, None);
        }
        k := k + 1;
      }
    }

    /**
     Open a rollout: snapshot the channel's live rollouts, insert the row, then route `SuccessorOpened`
     to each predecessor, in whatever order the listing gives them.
     */
    method OpenRollout(id: string, channel: string, targetRef: string, at: Stamp)
      requires Keyed(rows)
      modifies this`rows
      ensures rows == OpenedOver(old(rows), id, channel, targetRef, at)
      ensures id in rows && (id !in old(rows) ==> rows[id].openedAt == at)
    {
      var predecessors := set k | k in rows && IsPredecessor(rows[k], id, channel);
      RecordRolloutOpened(id, channel, targetRef, at, None);
      ghost var start := rows;
      var rest := predecessors;
      assert SupersedeAll(start, predecessors - rest, at) == start;
      while rest != {}
        invariant rest <= predecessors
        invariant rows == SupersedeAll(start, predecessors - rest, at)
        decreases rest
      {
        var k :| k in rest;
        SupersedeStep(start, predecessors - rest, k, id, at);
        assert (predecessors - rest) + {k} == predecessors - (rest - {k});
        ProcessRolloutEvent(SuccessorOpened(k, id, at));
        rest := rest - {k};
      }
      assert predecessors - rest == predecessors;
      assert SupersedeAll(start, predecessors, at) == OpenedOver(old(rows), id, channel, targetRef, at);
    }

    method PruneFinishedRollouts(cutoff: Stamp) returns (recordsPruned: nat, rolloutsPruned: nat)
      modifies this
      ensures rows == PrunedRows(old(rows), cutoff)
      ensures hostRecords == PrunedRecords(old(hostRecords), old(rows), cutoff)
      ensures recordsPruned + |hostRecords| == |old(hostRecords)|
      ensures rolloutsPruned + |rows| == |old(rows)|
    {
      var expired := ExpiredIds(rows, cutoff);
      var doomed := set key | key in hostRecords && key.0 in expired;
      recordsPruned, rolloutsPruned := |doomed|, |expired|;
      RemovedSize(hostRecords, expired, doomed);
      MapMinusSize(rows, expired);
      hostRecords := hostRecords - doomed;
      rows := rows - expired;
    }

    /** The rows a listing shows, in its order. */
    method ListFiltered(excludeTerminal: bool) returns (ids: seq<string>)
      requires Keyed(rows)
      ensures IsListing(rows, excludeTerminal, ids)
      ensures forall id :: id in ids <==>
                && id in rows && !rows[id].state.Superseded? && !rows[id].state.Pruned?
                && (excludeTerminal ==> !rows[id].state.Terminal?)
      ensures forall i, j :: 0 <= i < j < |ids| ==> ids[i] in rows && ids[j] in rows && NewerFirst(rows[ids[i]], rows[ids[j]])
    {
      ids := [];
      var rest := set id | id in rows && Shown(rows[id], excludeTerminal);
      while rest != {}
        invariant OrderedBefore(rows, ids, rest)
        invariant forall id :: id in ids || id in rest <==> id in rows && Shown(rows[id], excludeTerminal)
        decreases rest
      {
        ghost var top := FirstExists(rows, rest);
        var first :| first in rest && forall id :: id in rest && id != first ==> Precedes(rows[first], rows[id]);
        OrderedAppend(rows, ids, rest, first);
        ids := ids + [first];
        rest := rest - {first};
      }
      assert forall i :: 0 <= i < |ids| ==> ids[i] in ids;
      forall i, j | 0 <= i < j < |ids| ensures ids[i] in rows && ids[j] in rows && NewerFirst(rows[ids[i]], rows[ids[j]]) {
        PrecedesIsNewer(rows[ids[i]], rows[ids[j]]);
      }
    }

    /** `into_ui`: keep what carries no terminal stamp, in order. */
    method IntoUi(active: seq<string>) returns (ids: seq<string>)
      requires forall i :: 0 <= i < |active| ==> active[i] in rows
      ensures ids == Unstamped(rows, active)
    {
      ids := [];
      var k := 0;
      while k < |active|
        invariant 0 <= k <= |active|
        invariant ids + Unstamped(rows, active[k..]) == Unstamped(rows, active)
      {
        assert active[k..][1..] == active[k + 1..];
        if rows[active[k]].terminalAt.None? { ids := ids + [active[k]]; }
        k := k + 1;
      }
    }

    /** On a table whose stamps agree, `list_active().into_ui()` is the in-flight listing. */
    method ListActiveIntoUi() returns (ids: seq<string>)
      requires Keyed(rows) && StampsAgree(rows)
      ensures IsListing(rows, true, ids)
    {
      var active := ListFiltered(false);
      ids := IntoUi(active);
      var inFlight := ListFiltered(true);
      IntoUiIsInFlightIff(rows, active, inFlight);
    }
  }
}
