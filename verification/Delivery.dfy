/**
 The crash-prone queue and the mirror together: whatever crashes, failed posts and failed deletes there are,
 the control plane hears a rollout's reports in order, some of them more than once, so it ends in step.
 */
module Delivery {
  import opened Wrappers
  import opened EventFiles
  import opened Drain
  import opened HostMachine
  import opened HostRuns
  import opened Mirror
  import opened Pipeline
  import Q = QueueCrash

  // ----- The names of an agent's reports

  datatype AgentRun = AgentRun(start: HostRolloutState, inputs: seq<Input>)

  /** The event carries a report of its rollout's run. */
  predicate QueuedBy(e: QueuedEvent, runs: map<string, AgentRun>) {
    && WellFormed(e) && e.seqNo == e.payload.seqNo && e.rolloutId in runs && AllLocal(runs[e.rolloutId].inputs)
    && e.payload in RunReports(runs[e.rolloutId].start, runs[e.rolloutId].inputs)
  }

  ghost predicate EachOnce(events: set<QueuedEvent>) {
    forall e, f :: e in events && f in events && e.rolloutId == f.rolloutId && e.payload == f.payload ==> e == f
  }

  ghost predicate RolloutsToldApart(events: set<QueuedEvent>) {
    forall e, f :: e in events && f in events && Sanitize(e.rolloutId) == Sanitize(f.rolloutId) ==>
      e.rolloutId == f.rolloutId
  }

  /** Within a run a number belongs to one report. */
  lemma NumberDeterminesReport(run: AgentRun, a: OutboundAgentEvent, b: OutboundAgentEvent)
    requires AllLocal(run.inputs) && a.seqNo == b.seqNo
    requires a in RunReports(run.start, run.inputs) && b in RunReports(run.start, run.inputs)
    ensures a == b
  {
    var reports := RunReports(run.start, run.inputs);
    ReportsAscend(run.start, run.inputs);
    var i :| 0 <= i < |reports| && reports[i] == a;
    var j :| 0 <= j < |reports| && reports[j] == b;
  }

  lemma NameDeterminesReport(e: QueuedEvent, f: QueuedEvent, runs: map<string, AgentRun>)
    requires QueuedBy(e, runs) && QueuedBy(f, runs) && e.hostname == f.hostname && FileName(e) == FileName(f)
    ensures Sanitize(e.rolloutId) == Sanitize(f.rolloutId)
    ensures e.rolloutId == f.rolloutId ==> e.payload == f.payload
  {
    KindIsClean(e.payload);
    KindIsClean(f.payload);
    NameCollisionIff(e, f);
    if e.rolloutId == f.rolloutId { NumberDeterminesReport(runs[e.rolloutId], e.payload, f.payload); }
  }

  /** One host queueing only the reports of its runs, each once, loses nothing, whatever crashes. */
  lemma ReportsLoseNothing(c: Q.Codec, events: set<QueuedEvent>, runs: map<string, AgentRun>, host: string)
    requires Q.Lawful(c) && EachOnce(events) && RolloutsToldApart(events)
    requires forall e :: e in events ==> QueuedBy(e, runs) && e.hostname == host
    ensures Q.LosesNothing(c, events)
  {
    forall e, f | e in events && f in events && FileName(e) == FileName(f) ensures e == f {
      NameDeterminesReport(e, f, runs);
    }
    Q.LosesNothingIff(c, events);
  }

  // ----- The events of one rollout

  function Only(events: seq<QueuedEvent>, id: string): (r: seq<QueuedEvent>)
    ensures forall e :: e in r <==> e in events && e.rolloutId == id
  {
    if events == [] then [] else (if events[0].rolloutId == id then [events[0]] else []) + Only(events[1..], id)
  }

  lemma {:induction false} OnlyAppend(events: seq<QueuedEvent>, e: QueuedEvent, id: string)
    ensures Only(events + [e], id) == Only(events, id) + if e.rolloutId == id then [e] else []
  {
    if events == [] {
      assert events + [e] == [e];
    } else {
      ConcatHead(events, [e]);
      OnlyAppend(events[1..], e, id);
    }
  }

  function PayloadsOf(events: seq<QueuedEvent>): (r: seq<OutboundAgentEvent>)
    ensures |r| == |events| && forall i :: 0 <= i < |r| ==> r[i] == events[i].payload
  {
    seq(|events|, i requires 0 <= i < |events| => events[i].payload)
  }

  lemma {:induction false} ReceivedIsOnly(events: seq<QueuedEvent>, id: string)
    ensures Received(events, id) == PayloadsOf(Only(events, id))
  {
    if events != [] { ReceivedIsOnly(events[1..], id); }
  }

  // ----- In order with repeats, one more item at a time

  lemma {:induction false} NextItem<T>(items: seq<T>, from: nat, k: nat, delivery: seq<T>)
    requires from <= k < |items| && InOrderWithRepeats(items[..k], from, delivery)
    requires forall i, j :: 0 <= i < j < |items| ==> items[i] != items[j]
    ensures InOrderWithRepeats(items[..k + 1], from, delivery + [items[k]])
    decreases |delivery|
  {
    var longer, more := items[..k + 1], delivery + [items[k]];
    if delivery == [] {
      assert from == k && more[0] == longer[from] && more[1..] == [];
    } else {
      ConcatHead(delivery, [items[k]]);
      assert items[..k][..from] == longer[..from];
      if from < k && delivery[0] == items[from] {
        NextItem(items, from + 1, k, delivery[1..]);
      } else {
        assert delivery[0] in items[..k][..from];
        NextItem(items, from, k, delivery[1..]);
      }
    }
  }

  lemma {:induction false} RepeatedItem<T>(items: seq<T>, from: nat, delivery: seq<T>, again: T)
    requires from <= |items| && InOrderWithRepeats(items, from, delivery) && again in items
    ensures InOrderWithRepeats(items, from, delivery + [again])
    decreases |delivery|
  {
    if delivery == [] {
      assert [again][1..] == [] && delivery + [again] == [again];
      assert items[..from] == items;
    } else {
      ConcatHead(delivery, [again]);
      if from < |items| && delivery[0] == items[from] {
        RepeatedItem(items, from + 1, delivery[1..], again);
      } else {
        RepeatedItem(items, from, delivery[1..], again);
      }
    }
  }

  // ----- The invariant, on the parts of a world

  /** All but the first `count` of the events written for the rollout are on disk, and no others of it. */
  ghost predicate Kept(stored: map<string, QueuedEvent>, written: seq<QueuedEvent>, id: string, count: nat) {
    && count <= |written| && Ascending(written)
    && (forall e :: e in stored.Values && e.rolloutId == id ==> e in written)
    && forall e :: e in written[count..] ==> FileName(e) in stored && stored[FileName(e)] == e
  }

  /** A batch has no gaps: an unposted event comes before every later one of its rollout. */
  ghost predicate NoGaps(batch: seq<QueuedEvent>, posted: bool, written: seq<QueuedEvent>, id: string, count: nat) {
    && count <= |written| && Ascending(batch)
    && (forall e :: e in batch && e.rolloutId == id ==> e in written)
    && (forall e, f :: e in batch && e.rolloutId == id && f in written[count..] && f.seqNo < e.seqNo ==> f in batch)
    && (posted ==> batch != [] && (batch[0].rolloutId == id ==> batch[0] in written[..count]))
  }

  ghost predicate Replayed(written: seq<QueuedEvent>, delivered: seq<QueuedEvent>, count: nat) {
    count <= |written| && InOrderWithRepeats(written[..count], 0, delivered)
  }

  lemma AscendingApart(items: seq<QueuedEvent>, count: nat)
    requires Ascending(items) && count <= |items|
    ensures forall i, j :: 0 <= i < j < |items| ==> items[i] != items[j]
    ensures forall e :: e in items <==> e in items[..count] || e in items[count..]
    ensures forall e, f :: e in items[..count] && f in items[count..] ==> e.seqNo < f.seqNo
  {
    assert items == items[..count] + items[count..];
  }

  lemma ScannedItself(pending: set<QueuedEvent>, batch: seq<QueuedEvent>, e: QueuedEvent, f: QueuedEvent)
    requires IsScan(pending, batch) && Unshared(pending)
    requires e in pending && f in pending && f.rolloutId == e.rolloutId && f.seqNo < e.seqNo
    ensures f in batch
  {
    assert Class(pending, f.seqNo) == {f};
    var g :| g in batch && g.seqNo == f.seqNo;
    assert g in Elements(batch) && g in Class(pending, f.seqNo);
  }

  lemma ScannedHasNoGaps(stored: map<string, QueuedEvent>, written: seq<QueuedEvent>, id: string, count: nat,
                         batch: seq<QueuedEvent>)
    requires Kept(stored, written, id, count) && IsScan(stored.Values, batch) && Unshared(stored.Values)
    requires forall e :: e in written ==> e.rolloutId == id
    ensures NoGaps(batch, false, written, id, count)
  {
    assert forall e :: e in batch ==> e in Elements(batch);
    forall e, f | e in batch && e.rolloutId == id && f in written[count..] && f.seqNo < e.seqNo ensures f in batch {
      assert stored[FileName(f)] == f;
      assert f in written;
      ScannedItself(stored.Values, batch, e, f);
    }
  }

  lemma FirstUnposted(batch: seq<QueuedEvent>, written: seq<QueuedEvent>, id: string, count: nat)
    requires NoGaps(batch, false, written, id, count) && Ascending(written)
    requires batch != [] && batch[0].rolloutId == id && batch[0] !in written[..count]
    ensures count < |written| && batch[0] == written[count]
  {
    AscendingApart(written, count);
    assert batch[0] in batch;
    var first := written[count];
    assert written[count..][0] == first;
    assert batch[0].seqNo <= first.seqNo || first in batch;
  }

  lemma PostedHasNoGaps(batch: seq<QueuedEvent>, written: seq<QueuedEvent>, id: string, count: nat, next: nat)
    requires NoGaps(batch, false, written, id, count) && batch != [] && count <= next <= |written|
    requires batch[0].rolloutId == id ==> batch[0] in written[..next]
    ensures NoGaps(batch, true, written, id, next)
  {
    assert written[next..] == written[count..][next - count..];
  }

  lemma PostReplays(batch: seq<QueuedEvent>, written: seq<QueuedEvent>, id: string, count: nat,
                    delivered: seq<QueuedEvent>)
    returns (next: nat)
    requires NoGaps(batch, false, written, id, count) && Ascending(written) && batch != []
    requires Replayed(written, delivered, count)
    ensures count <= next && NoGaps(batch, true, written, id, next)
    ensures Replayed(written, if batch[0].rolloutId == id then delivered + [batch[0]] else delivered, next)
  {
    next := count;
    if batch[0].rolloutId == id {
      if batch[0] in written[..count] {
        RepeatedItem(written[..count], 0, delivered, batch[0]);
      } else {
        FirstUnposted(batch, written, id, count);
        AscendingApart(written, count);
        NextItem(written, 0, count, delivered);
        next := count + 1;
        assert written[..next][count] == batch[0];
      }
    }
    PostedHasNoGaps(batch, written, id, count, next);
  }

  lemma KeptLonger(stored: map<string, QueuedEvent>, written: seq<QueuedEvent>, id: string, count: nat, next: nat)
    requires Kept(stored, written, id, count) && count <= next <= |written|
    ensures Kept(stored, written, id, next)
  {
    assert written[next..] == written[count..][next - count..];
  }

  lemma TailHasNoGaps(batch: seq<QueuedEvent>, written: seq<QueuedEvent>, id: string, count: nat)
    requires NoGaps(batch, true, written, id, count) && Ascending(written)
    requires forall e :: e in written ==> e.rolloutId == id
    ensures NoGaps(batch[1..], false, written, id, count)
  {
    AscendingApart(written, count);
    assert batch == [batch[0]] + batch[1..];
    forall e, f | e in batch[1..] && e.rolloutId == id && f in written[count..] && f.seqNo < e.seqNo
      ensures f in batch[1..]
    {
      assert e in batch && f in written && f in batch;
    }
  }

  /** What the names of a rollout's events must avoid for a delete or a rename to leave them alone. */
  ghost predicate NamedApart(written: seq<QueuedEvent>, e: QueuedEvent) {
    forall f :: f in written && FileName(f) == FileName(e) ==> f == e
  }

  lemma DeleteKeeps(stored: map<string, QueuedEvent>, written: seq<QueuedEvent>, id: string, count: nat, e: QueuedEvent)
    requires Kept(stored, written, id, count) && NamedApart(written, e) && e !in written[count..]
    ensures Kept(stored - {FileName(e)}, written, id, count)
  {
    AscendingApart(written, count);
  }

  lemma OtherRenameKeeps(stored: map<string, QueuedEvent>, written: seq<QueuedEvent>, id: string, count: nat,
                         e: QueuedEvent)
    requires Kept(stored, written, id, count) && NamedApart(written, e) && e.rolloutId != id
    ensures Kept(stored[FileName(e) := e], written, id, count)
  {
    AscendingApart(written, count);
  }

  lemma OwnRenameKeeps(stored: map<string, QueuedEvent>, written: seq<QueuedEvent>, id: string, count: nat, e: QueuedEvent)
    requires Kept(stored, written, id, count) && NamedApart(written, e) && Ascending(written + [e])
    ensures Kept(stored[FileName(e) := e], written + [e], id, count)
  {
    var after := stored[FileName(e) := e];
    assert (written + [e])[count..] == written[count..] + [e];
    forall f | f in written[count..] ensures FileName(f) in after && after[FileName(f)] == f {
      assert f in written;
    }
  }

  lemma LongerHasNoGaps(batch: seq<QueuedEvent>, posted: bool, written: seq<QueuedEvent>, id: string, count: nat,
                        e: QueuedEvent)
    requires NoGaps(batch, posted, written, id, count) && Ascending(written + [e])
    ensures NoGaps(batch, posted, written + [e], id, count)
  {
    var longer := written + [e];
    assert longer[count..] == written[count..] + [e] && longer[..count] == written[..count];
    AscendingApart(longer, |written|);
    assert longer[..|written|] == written && longer[|written|..] == [e];
  }

  // ----- Every step keeps it

  ghost predicate Delivering(c: Q.Codec, w: Q.World, id: string, count: nat) {
    var written := Only(w.renamed, id);
    && (forall e :: e in written ==> e in w.started)
    && Kept(Q.Abstract(c, w), written, id, count)
    && NoGaps(w.batch, w.posted, written, id, count)
    && Replayed(written, Only(w.delivered, id), count)
  }

  /** The scan sees every file, and no event that another of its rollout must follow shares its number. */
  ghost predicate CleanScan(c: Q.Codec, w: Q.World, action: Q.Action, w': Q.World) {
    action.Scan? ==> IsScan(Q.Abstract(c, w).Values, w'.batch) && Unshared(Q.Abstract(c, w).Values)
  }

  lemma PostDelivers(c: Q.Codec, w: Q.World, w': Q.World, id: string, count: nat) returns (next: nat)
    requires Q.Next(c, w, Q.Post, w') && Delivering(c, w, id, count)
    ensures Delivering(c, w', id, next)
  {
    var written := Only(w.renamed, id);
    OnlyAppend(w.delivered, w.batch[0], id);
    assert Only(w.delivered, id) + [] == Only(w.delivered, id);
    next := PostReplays(w.batch, written, id, count, Only(w.delivered, id));
    KeptLonger(Q.Abstract(c, w), written, id, count, next);
  }

  lemma StartedNamedApart(c: Q.Codec, w: Q.World, id: string, count: nat, e: QueuedEvent)
    requires Delivering(c, w, id, count) && Q.NamesUnique(w) && e in w.started
    ensures NamedApart(Only(w.renamed, id), e)
  {
  }

  lemma DoneDelivers(c: Q.Codec, w: Q.World, action: Q.Action, w': Q.World, id: string, count: nat)
    requires Q.Lawful(c) && Q.Intact(c, w) && Q.Next(c, w, action, w') && Q.NamesUnique(w)
    requires Delivering(c, w, id, count) && (action.MarkSent? || action.MarkSentFails?)
    ensures Delivering(c, w', id, count)
  {
    var written, e := Only(w.renamed, id), w.batch[0];
    Q.StepsAreAtomic(c, w, action, w');
    TailHasNoGaps(w.batch, written, id, count);
    StartedNamedApart(c, w, id, count, e);
    AscendingApart(written, count);
    if action.MarkSent? { DeleteKeeps(Q.Abstract(c, w), written, id, count, e); }
  }

  lemma RenameDelivers(c: Q.Codec, w: Q.World, w': Q.World, id: string, count: nat)
    requires Q.Lawful(c) && Q.Intact(c, w) && Q.Next(c, w, Q.Rename, w') && Q.NamesUnique(w)
    requires Delivering(c, w, id, count) && Ascending(Only(w'.renamed, id))
    ensures Delivering(c, w', id, count)
  {
    var written, e := Only(w.renamed, id), w.writer.event;
    OnlyAppend(w.renamed, e, id);
    Q.StepsAreAtomic(c, w, Q.Rename, w');
    StartedNamedApart(c, w, id, count, e);
    if e.rolloutId == id {
      OwnRenameKeeps(Q.Abstract(c, w), written, id, count, e);
      LongerHasNoGaps(w.batch, w.posted, written, id, count, e);
      assert (written + [e])[..count] == written[..count];
    } else {
      OtherRenameKeeps(Q.Abstract(c, w), written, id, count, e);
      assert written + [] == written;
    }
  }

  lemma StepDelivers(c: Q.Codec, w: Q.World, action: Q.Action, w': Q.World, id: string, count: nat) returns (next: nat)
    requires Q.Lawful(c) && Q.Intact(c, w) && Q.Next(c, w, action, w') && Q.NamesUnique(w)
    requires Delivering(c, w, id, count) && Ascending(Only(w'.renamed, id)) && CleanScan(c, w, action, w')
    ensures Delivering(c, w', id, next)
  {
    next := count;
    Q.StepsAreAtomic(c, w, action, w');
    match action
    case Scan => ScannedHasNoGaps(Q.Abstract(c, w), Only(w.renamed, id), id, count, w'.batch);
    case Post => next := PostDelivers(c, w, w', id, count);
    case MarkSent => DoneDelivers(c, w, action, w', id, count);
    case MarkSentFails => DoneDelivers(c, w, action, w', id, count);
    case Rename => RenameDelivers(c, w, w', id, count);
    case _ =>
  }

  ghost predicate CleanScans(c: Q.Codec, ws: seq<Q.World>, actions: seq<Q.Action>)
    requires |ws| == |actions| + 1
  {
    forall i :: 0 <= i < |actions| ==> CleanScan(c, ws[i], actions[i], ws[i + 1])
  }

  lemma EarlierAscends(w: Q.World, w': Q.World, id: string)
    requires w'.renamed == w.renamed || exists e :: w'.renamed == w.renamed + [e]
    requires Ascending(Only(w'.renamed, id))
    ensures Ascending(Only(w.renamed, id))
  {
    if w'.renamed != w.renamed {
      var e :| w'.renamed == w.renamed + [e];
      OnlyAppend(w.renamed, e, id);
      var longer := Only(w'.renamed, id);
      assert forall i :: 0 <= i < |Only(w.renamed, id)| ==> Only(w.renamed, id)[i] == longer[i];
    }
  }

  lemma NothingDeliveredYet(c: Q.Codec, id: string)
    ensures Delivering(c, Q.EMPTY, id, 0)
  {
  }

  /** A clean run up to its last step, and that step. */
  lemma LastStep(c: Q.Codec, ws: seq<Q.World>, actions: seq<Q.Action>, id: string, n: nat)
    requires Q.Lawful(c) && Q.Run(c, ws, actions) && CleanScans(c, ws, actions) && |actions| == n + 1
    requires Q.NamesUnique(ws[n + 1]) && Ascending(Only(ws[n + 1].renamed, id))
    ensures Q.Run(c, ws[..n + 1], actions[..n]) && CleanScans(c, ws[..n + 1], actions[..n])
    ensures ws[..n + 1][n] == ws[n] && Q.NamesUnique(ws[n]) && Ascending(Only(ws[n].renamed, id))
    ensures Q.Intact(c, ws[n]) && Q.Next(c, ws[n], actions[n], ws[n + 1]) && CleanScan(c, ws[n], actions[n], ws[n + 1])
  {
    Q.RunIsIntact(c, ws, actions);
    assert Q.Next(c, ws[n], actions[n], ws[n + 1]);
    assert ws[n].started <= ws[n + 1].started;
    EarlierAscends(ws[n], ws[n + 1], id);
  }

  lemma {:induction false} RunDelivers(c: Q.Codec, ws: seq<Q.World>, actions: seq<Q.Action>, id: string)
    returns (count: nat)
    requires Q.Lawful(c) && Q.Run(c, ws, actions) && CleanScans(c, ws, actions)
    requires Q.NamesUnique(ws[|actions|]) && Ascending(Only(ws[|actions|].renamed, id))
    ensures Delivering(c, ws[|actions|], id, count)
    decreases |actions|
  {
    if actions == [] {
      count := 0;
      NothingDeliveredYet(c, id);
    } else {
      var n := |actions| - 1;
      LastStep(c, ws, actions, id, n);
      var before := RunDelivers(c, ws[..n + 1], actions[..n], id);
      count := StepDelivers(c, ws[n], actions[n], ws[n + 1], id, before);
    }
  }

  // ----- What the mirror makes of it

  lemma {:induction false} PayloadsReplay(events: seq<QueuedEvent>, from: nat, delivery: seq<QueuedEvent>)
    requires from <= |events| && InOrderWithRepeats(events, from, delivery)
    requires forall i, j :: 0 <= i < j < |events| ==> events[i].payload != events[j].payload
    ensures InOrderWithRepeats(PayloadsOf(events), from, PayloadsOf(delivery))
    decreases |delivery|
  {
    if delivery != [] {
      var e := delivery[0];
      assert PayloadsOf(delivery)[0] == e.payload && PayloadsOf(delivery)[1..] == PayloadsOf(delivery[1..]);
      if from < |events| && e == events[from] {
        PayloadsReplay(events, from + 1, delivery[1..]);
      } else {
        var i :| 0 <= i < from && events[i] == e;
        assert PayloadsOf(events)[i] == e.payload && PayloadsOf(events)[..from][i] == e.payload;
        PayloadsReplay(events, from, delivery[1..]);
      }
    }
  }

  /** Each written event of the rollout carries its report's number. */
  predicate Numbered(events: seq<QueuedEvent>, id: string) {
    forall e :: e in events && e.rolloutId == id ==> e.seqNo == e.payload.seqNo
  }

  lemma WrittenAscends(events: seq<QueuedEvent>, id: string, floor: u64)
    requires Numbered(events, id) && NumberedAbove(Received(events, id), floor)
    ensures Ascending(Only(events, id))
    ensures var only := Only(events, id); forall i, j :: 0 <= i < j < |only| ==> only[i].payload != only[j].payload
  {
    var only := Only(events, id);
    ReceivedIsOnly(events, id);
    forall i, j | 0 <= i < j < |only| ensures only[i].seqNo < only[j].seqNo {
      assert only[i] in only && only[j] in only;
      assert Received(events, id)[i].seqNo < Received(events, id)[j].seqNo;
    }
  }

  ghost predicate StillStored(c: Q.Codec, w: Q.World, id: string, report: OutboundAgentEvent) {
    exists e :: e in w.renamed && e.rolloutId == id && e.payload == report && Q.OnDisk(c, w, e)
  }

  lemma UnsentIsStored(c: Q.Codec, w: Q.World, id: string, count: nat, k: nat)
    requires Delivering(c, w, id, count) && count <= k < |Received(w.renamed, id)|
    ensures StillStored(c, w, id, Received(w.renamed, id)[k])
  {
    var only := Only(w.renamed, id);
    ReceivedIsOnly(w.renamed, id);
    var e := only[k];
    assert only[count..][k - count] == e && e in only;
    assert Q.OnDisk(c, w, e);
  }

  lemma SentIsReplayed(written: seq<QueuedEvent>, count: nat, delivered: seq<QueuedEvent>)
    requires Replayed(written, delivered, count)
    requires forall i, j :: 0 <= i < j < |written| ==> written[i].payload != written[j].payload
    ensures InOrderWithRepeats(PayloadsOf(written)[..count], 0, PayloadsOf(delivered))
  {
    assert PayloadsOf(written[..count]) == PayloadsOf(written)[..count];
    PayloadsReplay(written[..count], 0, delivered);
  }

  /**
   At any moment of a run with any crashes, failed writes, failed posts and failed deletes: the control
   plane has heard the first reports of the rollout in order, with repeats, and every later one that was
   written is still on disk.
   */
  lemma HeardInOrder(c: Q.Codec, ws: seq<Q.World>, actions: seq<Q.Action>, id: string, floor: u64)
    returns (count: nat)
    requires Q.Lawful(c) && Q.Run(c, ws, actions) && CleanScans(c, ws, actions) && Q.NamesUnique(ws[|actions|])
    requires Numbered(ws[|actions|].renamed, id) && NumberedAbove(Received(ws[|actions|].renamed, id), floor)
    ensures var w := ws[|actions|];
            var reports := Received(w.renamed, id);
            && count <= |reports|
            && InOrderWithRepeats(reports[..count], 0, Received(w.delivered, id))
            && forall k :: count <= k < |reports| ==> StillStored(c, w, id, reports[k])
  {
    var w := ws[|actions|];
    WrittenAscends(w.renamed, id, floor);
    count := RunDelivers(c, ws, actions, id);
    ReceivedIsOnly(w.renamed, id);
    ReceivedIsOnly(w.delivered, id);
    SentIsReplayed(Only(w.renamed, id), count, Only(w.delivered, id));
    forall k | count <= k < |Received(w.renamed, id)| ensures StillStored(c, w, id, Received(w.renamed, id)[k]) {
      UnsentIsStored(c, w, id, count, k);
    }
  }

  lemma NothingStored(c: Q.Codec, w: Q.World, id: string)
    requires forall e :: e in Q.Abstract(c, w).Values ==> e.rolloutId != id
    ensures forall r :: !StillStored(c, w, id, r)
  {
  }

  /** Once nothing of the rollout is on disk, all of its reports have been heard in order. */
  lemma AllHeardInOrder(c: Q.Codec, ws: seq<Q.World>, actions: seq<Q.Action>, id: string, floor: u64)
    requires Q.Lawful(c) && Q.Run(c, ws, actions) && CleanScans(c, ws, actions) && Q.NamesUnique(ws[|actions|])
    requires Numbered(ws[|actions|].renamed, id) && NumberedAbove(Received(ws[|actions|].renamed, id), floor)
    requires forall e :: e in Q.Abstract(c, ws[|actions|]).Values ==> e.rolloutId != id
    ensures InOrderWithRepeats(Received(ws[|actions|].renamed, id), 0, Received(ws[|actions|].delivered, id))
  {
    var w := ws[|actions|];
    var count := HeardInOrder(c, ws, actions, id, floor);
    var reports := Received(w.renamed, id);
    assert count == |reports| || StillStored(c, w, id, reports[count]);
    NothingStored(c, w, id);
    assert reports[..|reports|] == reports;
  }

  /**
   The whole path with crashes: if all reports of an agent's run were written in order and none is left on
   disk, the mirror has accepted every report on first hearing, and is in the agent's state exactly when the
   policies agreed at each failed activation.
   */
  lemma CrashesAreHarmless(c: Q.Codec, ws: seq<Q.World>, actions: seq<Q.Action>,
                           agent: HostRolloutState, cp: HostRolloutState, inputs: seq<Input>, heard: seq<Heard>)
    requires Q.Lawful(c) && Q.Run(c, ws, actions) && CleanScans(c, ws, actions) && Q.NamesUnique(ws[|actions|])
    requires MirrorOf(agent, cp) && AllLocal(inputs)
    requires var w := ws[|actions|];
             && Numbered(w.renamed, agent.rolloutId)
             && Received(w.renamed, agent.rolloutId) == RunReports(agent, inputs)
             && Received(w.delivered, agent.rolloutId) == Payloads(heard)
             && forall e :: e in Q.Abstract(c, w).Values ==> e.rolloutId != agent.rolloutId
    ensures InOrderWithRepeats(RunReports(agent, inputs), 0, Payloads(heard))
    ensures var first := FirstHearings(RunReports(agent, inputs), 0, heard);
            && AllHeard(cp, first) && Hear(cp, heard) == Hear(cp, first)
            && (MirrorOf(RunState(agent, inputs), Hear(cp, heard)) <==> PoliciesAgree(agent, inputs, first))
  {
    ReportsAscend(agent, inputs);
    AllHeardInOrder(c, ws, actions, agent.rolloutId, agent.lastEventSeq);
    RepeatsAreHarmless(agent, cp, inputs, heard);
  }
}
