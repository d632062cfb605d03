/**
 The durable outbound queue as a state machine over its smallest steps. An enqueue is
 open-and-truncate, write, fsync, rename, return; a drain is scan, then post and delete one event at
 a time. The process may crash between any two steps, and any file operation or post may fail.
 One task enqueues and one task drains; their steps interleave freely.
 */
module QueueCrash {
  import opened Wrappers
  import opened EventFiles

  newtype byte = b: int | 0 <= b < 256

  /** JSON, as far as the queue cares: what was written can be read back. */
  datatype Codec = Codec(encode: QueuedEvent -> seq<byte>, decode: seq<byte> -> Option<QueuedEvent>)

  ghost predicate Lawful(c: Codec) {
    forall e: QueuedEvent :: c.decode(c.encode(e)) == Some(e)
  }

  /** Program counter of the enqueueing task. */
  datatype Writer =
    | Idle
    | Writing(event: QueuedEvent, done: nat)
    | Synced(event: QueuedEvent)
    | Renamed(event: QueuedEvent)

  /**
   `files` is the directory. The last four fields are history: events whose enqueue was started, those
   whose enqueue returned Ok, those renamed into place and those posted, the last two in order.
   */
  datatype World = World(
    files: map<string, seq<byte>>,
    writer: Writer,
    batch: seq<QueuedEvent>,
    posted: bool,
    started: set<QueuedEvent>,
    acked: set<QueuedEvent>,
    renamed: seq<QueuedEvent>,
    delivered: seq<QueuedEvent>)

  const EMPTY := World(map[], Idle, [], false, {}, {}, [], [])

  datatype Action =
    | Open(event: QueuedEvent) | Write(upTo: nat) | Sync | Rename | ReturnOk | EnqueueFails
    | Scan | Post | PostFails | MarkSent | MarkSentFails | Crash

  function Bytes(c: Codec, e: QueuedEvent): seq<byte> {
    c.encode(e)
  }

  /** The pending file names and what each decodes to; unreadable entries are skipped. */
  ghost function Pending(c: Codec, files: map<string, seq<byte>>): map<string, QueuedEvent> {
    map name | name in files && IsPendingName(name) && c.decode(files[name]).Some? ::
      c.decode(files[name]).value
  }

  /** A scan returns pending events in ascending sequence order. */
  ghost predicate ScanResult(c: Codec, files: map<string, seq<byte>>, out: seq<QueuedEvent>) {
    && (forall i :: 0 <= i < |out| ==> out[i] in Pending(c, files).Values)
    && (forall i, j :: 0 <= i < j < |out| ==> out[i].seqNo < out[j].seqNo)
  }

  ghost predicate Next(c: Codec, w: World, action: Action, w': World) {
    match action
    case Open(e) =>
      w.writer.Idle? && w' == w.(files := w.files[TmpName(e) := []], writer := Writing(e, 0),
                                 started := w.started + {e})
    case Write(n) =>
      && w.writer.Writing? && w.writer.done <= n <= |Bytes(c, w.writer.event)|
      && w' == w.(files := w.files[TmpName(w.writer.event) := Bytes(c, w.writer.event)[..n]],
                  writer := Writing(w.writer.event, n))
    case Sync =>
      && w.writer.Writing? && w.writer.done == |Bytes(c, w.writer.event)|
      && w' == w.(writer := Synced(w.writer.event))
    case Rename =>
      && w.writer.Synced? && TmpName(w.writer.event) in w.files
      && w' == w.(files := (w.files - {TmpName(w.writer.event)})
                             [FileName(w.writer.event) := w.files[TmpName(w.writer.event)]],
                  writer := Renamed(w.writer.event), renamed := w.renamed + [w.writer.event])
    case ReturnOk =>
      w.writer.Renamed? && w' == w.(writer := Idle, acked := w.acked + {w.writer.event})
    case EnqueueFails =>
      !w.writer.Idle? && w' == w.(writer := Idle)
    case Scan =>
      w.batch == [] && !w.posted && ScanResult(c, w.files, w'.batch) && w' == w.(batch := w'.batch)
    case Post =>
      w.batch != [] && !w.posted && w' == w.(posted := true, delivered := w.delivered + [w.batch[0]])
    case PostFails =>
      w.batch != [] && !w.posted && w' == w.(batch := [])
    case MarkSent =>
      && w.batch != [] && w.posted
      && w' == w.(files := w.files - {FileName(w.batch[0])}, batch := w.batch[1..], posted := false)
    case MarkSentFails =>
      w.batch != [] && w.posted && w' == w.(batch := w.batch[1..], posted := false)
    case Crash =>
      w' == w.(writer := Idle, batch := [], posted := false)
  }

  /** A finite piece of a run. */
  ghost predicate Fragment(c: Codec, ws: seq<World>, actions: seq<Action>) {
    && |ws| == |actions| + 1
    && forall i :: 0 <= i < |actions| ==> Next(c, ws[i], actions[i], ws[i + 1])
  }

  /** A finite run from the empty directory. */
  ghost predicate Run(c: Codec, ws: seq<World>, actions: seq<Action>) {
    Fragment(c, ws, actions) && ws[0] == EMPTY
  }

  // ----- No partial event is ever visible

  /** Every visible file is one complete started event under its own name; temporaries match the writer. */
  ghost predicate Intact(c: Codec, w: World) {
    && (forall name :: name in w.files && IsPendingName(name) ==>
          exists e :: e in w.started && name == FileName(e) && w.files[name] == c.encode(e))
    && (!w.writer.Idle? ==> w.writer.event in w.started)
    && (w.writer.Writing? ==>
          && TmpName(w.writer.event) in w.files && w.writer.done <= |c.encode(w.writer.event)|
          && w.files[TmpName(w.writer.event)] == c.encode(w.writer.event)[..w.writer.done])
    && (w.writer.Synced? ==>
          TmpName(w.writer.event) in w.files && w.files[TmpName(w.writer.event)] == c.encode(w.writer.event))
    && (forall e :: e in w.batch ==> e in w.started)
    && (forall e :: e in w.delivered ==> e in w.started)
    && w.acked <= w.started
    && (w.posted ==> w.batch != [] && w.batch[0] in w.delivered)
  }

  lemma IntactIsInductive(c: Codec, w: World, action: Action, w': World)
    requires Lawful(c) && Intact(c, w) && Next(c, w, action, w')
    ensures Intact(c, w')
  {
    match action
    case Open(e) =>
      NamesAreFiltered(e, e);
    case Write(_) =>
      NamesAreFiltered(w.writer.event, w.writer.event);
    case Sync =>
      assert c.encode(w.writer.event)[..w.writer.done] == c.encode(w.writer.event);
    case Rename =>
      NamesAreFiltered(w.writer.event, w.writer.event);
    case Scan =>
      forall e | e in w'.batch ensures e in w'.started {
        assert e in Pending(c, w.files).Values;
        var name :| name in Pending(c, w.files) && Pending(c, w.files)[name] == e;
      }
    case MarkSent =>
      NamesAreFiltered(w.batch[0], w.batch[0]);
      if w.writer.Writing? || w.writer.Synced? { NamesAreFiltered(w.writer.event, w.batch[0]); }
    case _ =>
  }

  lemma {:induction false} RunIsIntact(c: Codec, ws: seq<World>, actions: seq<Action>)
    requires Lawful(c) && Run(c, ws, actions)
    ensures forall i :: 0 <= i < |ws| ==> Intact(c, ws[i])
    decreases |actions|
  {
    if actions != [] {
      var n := |actions| - 1;
      RunIsIntact(c, ws[..n + 1], actions[..n]);
      assert ws[..n + 1][n] == ws[n];
      IntactIsInductive(c, ws[n], actions[n], ws[n + 1]);
      forall i | 0 <= i < |ws| ensures Intact(c, ws[i]) {
        if i <= n { assert ws[..n + 1][i] == ws[i]; }
      }
    }
  }

  // ----- The directory refines an atomic map

  /** The atomic queue: a map from file name to event. */
  ghost function Abstract(c: Codec, w: World): map<string, QueuedEvent> {
    Pending(c, w.files)
  }

  /** Touching a temporary file is invisible to the scan. */
  lemma TmpIsInvisible(c: Codec, files: map<string, seq<byte>>, e: QueuedEvent, bytes: seq<byte>)
    ensures Pending(c, files[TmpName(e) := bytes]) == Pending(c, files)
    ensures Pending(c, files - {TmpName(e)}) == Pending(c, files)
  {
    NamesAreFiltered(e, e);
  }

  lemma RenameInserts(c: Codec, files: map<string, seq<byte>>, e: QueuedEvent)
    requires Lawful(c)
    ensures Pending(c, files[FileName(e) := c.encode(e)]) == Pending(c, files)[FileName(e) := e]
  {
    NamesAreFiltered(e, e);
  }

  lemma DeleteRemoves(c: Codec, files: map<string, seq<byte>>, name: string)
    ensures Pending(c, files - {name}) == Pending(c, files) - {name}
  {
  }

  /**
   Seen through the scan, only the rename inserts and only a delete removes; every other step, a crash
   or a failed write included, changes nothing at all.
   */
  lemma StepsAreAtomic(c: Codec, w: World, action: Action, w': World)
    requires Lawful(c) && Intact(c, w) && Next(c, w, action, w')
    ensures Abstract(c, w') ==
              match action
              case Rename => Abstract(c, w)[FileName(w.writer.event) := w.writer.event]
              case MarkSent => Abstract(c, w) - {FileName(w.batch[0])}
              case _ => Abstract(c, w)
  {
    match action
    case Open(e) => TmpIsInvisible(c, w.files, e, []);
    case Write(n) => TmpIsInvisible(c, w.files, w.writer.event, Bytes(c, w.writer.event)[..n]);
    case Rename =>
      TmpIsInvisible(c, w.files, w.writer.event, []);
      RenameInserts(c, w.files - {TmpName(w.writer.event)}, w.writer.event);
    case MarkSent => DeleteRemoves(c, w.files, FileName(w.batch[0]));
    case _ =>
  }

  // ----- At-least-once delivery

  /** No two different started events share a file name. */
  ghost predicate NamesUnique(w: World) {
    forall e, f :: e in w.started && f in w.started && FileName(e) == FileName(f) ==> e == f
  }

  ghost predicate OnDisk(c: Codec, w: World, e: QueuedEvent) {
    FileName(e) in Abstract(c, w) && Abstract(c, w)[FileName(e)] == e
  }

  /** An event that is on disk is there byte for byte. */
  lemma OnDiskMeansComplete(c: Codec, w: World, e: QueuedEvent)
    requires Lawful(c) && Intact(c, w)
    ensures OnDisk(c, w, e) ==> FileName(e) in w.files && w.files[FileName(e)] == c.encode(e)
  {
    if OnDisk(c, w, e) {
      var f :| f in w.started && FileName(e) == FileName(f) && w.files[FileName(e)] == c.encode(f);
    }
  }

  /** An event whose enqueue returned Ok is on disk or was posted. */
  ghost predicate NothingLost(c: Codec, w: World) {
    && (forall e :: e in w.acked ==> OnDisk(c, w, e) || e in w.delivered)
    && (w.writer.Renamed? ==> OnDisk(c, w, w.writer.event) || w.writer.event in w.delivered)
  }

  /** One event stays covered over one step. */
  lemma EventStaysCovered(c: Codec, w: World, action: Action, w': World, e: QueuedEvent)
    requires Lawful(c) && Intact(c, w) && Next(c, w, action, w')
    requires NamesUnique(w') && e in w.started
    requires OnDisk(c, w, e) || e in w.delivered
    ensures OnDisk(c, w', e) || e in w'.delivered
  {
    StepsAreAtomic(c, w, action, w');
    if action.MarkSent? {
      assert w.batch[0] in w.started && w.batch[0] in w.delivered;
    }
  }

  lemma NothingLostIsInductive(c: Codec, w: World, action: Action, w': World)
    requires Lawful(c) && Intact(c, w) && Next(c, w, action, w')
    requires NamesUnique(w') && NothingLost(c, w)
    ensures NothingLost(c, w')
  {
    forall e | e in w.acked ensures OnDisk(c, w', e) || e in w'.delivered {
      EventStaysCovered(c, w, action, w', e);
    }
    if w.writer.Renamed? {
      EventStaysCovered(c, w, action, w', w.writer.event);
    } else if action.Rename? {
      StepsAreAtomic(c, w, action, w');
      assert w'.acked == w.acked && w'.delivered == w.delivered;
    } else {
      assert w'.acked == w.acked && !w'.writer.Renamed?;
    }
  }

  /**
   At-least-once delivery: in every run, with crashes anywhere, an acknowledged event is still on disk
   or has been posted, as long as no file name is used for two different events.
   */
  lemma {:induction false} AtLeastOnce(c: Codec, ws: seq<World>, actions: seq<Action>)
    requires Lawful(c) && Run(c, ws, actions)
    requires NamesUnique(ws[|actions|])
    ensures NothingLost(c, ws[|actions|])
    decreases |actions|
  {
    if actions != [] {
      var n := |actions| - 1;
      RunIsIntact(c, ws, actions);
      assert Next(c, ws[n], actions[n], ws[n + 1]);
      assert ws[n].started <= ws[n + 1].started;
      assert ws[..n + 1][n] == ws[n];
      AtLeastOnce(c, ws[..n + 1], actions[..n]);
      NothingLostIsInductive(c, ws[n], actions[n], ws[n + 1]);
    }
  }

  // ----- The name condition is needed

  /** One undisturbed enqueue, from its first step to its return. */
  function EnqueueActions(c: Codec, e: QueuedEvent): seq<Action> {
    [Open(e), Write(|c.encode(e)|), Sync, Rename, ReturnOk]
  }

  function AfterEnqueue(c: Codec, w: World, e: QueuedEvent): World {
    w.(files := (w.files - {TmpName(e)})[FileName(e) := c.encode(e)], writer := Idle,
       started := w.started + {e}, acked := w.acked + {e}, renamed := w.renamed + [e])
  }

  /** The worlds an undisturbed enqueue passes through. */
  function EnqueueWorlds(c: Codec, w: World, e: QueuedEvent): seq<World> {
    var started0 := w.(files := w.files[TmpName(e) := []], writer := Writing(e, 0), started := w.started + {e});
    var written := started0.(files := started0.files[TmpName(e) := c.encode(e)], writer := Writing(e, |c.encode(e)|));
    var synced := written.(writer := Synced(e));
    var renamed := synced.(files := (written.files - {TmpName(e)})[FileName(e) := c.encode(e)], writer := Renamed(e),
                           renamed := w.renamed + [e]);
    [started0, written, synced, renamed, AfterEnqueue(c, w, e)]
  }

  lemma EnqueueRuns(c: Codec, w: World, e: QueuedEvent)
    requires w.writer.Idle?
    ensures Fragment(c, [w] + EnqueueWorlds(c, w, e), EnqueueActions(c, e))
  {
    var ws, actions := [w] + EnqueueWorlds(c, w, e), EnqueueActions(c, e);
    var bytes := c.encode(e);
    assert bytes[..|bytes|] == bytes;
    assert ws[2].files - {TmpName(e)} == w.files - {TmpName(e)};
    assert Next(c, ws[0], actions[0], ws[1]) && Next(c, ws[1], actions[1], ws[2]);
    assert Next(c, ws[2], actions[2], ws[3]) && Next(c, ws[3], actions[3], ws[4]);
    assert Next(c, ws[4], actions[4], ws[5]);
  }

  lemma FragmentsChain(c: Codec, ws: seq<World>, xs: seq<Action>, vs: seq<World>, ys: seq<Action>)
    requires Fragment(c, ws, xs) && Fragment(c, vs, ys) && ws[|xs|] == vs[0]
    ensures Fragment(c, ws + vs[1..], xs + ys)
  {
    var all, actions := ws + vs[1..], xs + ys;
    forall i | 0 <= i < |actions| ensures Next(c, all[i], actions[i], all[i + 1]) {
      if i < |xs| {
        assert all[i] == ws[i] && all[i + 1] == ws[i + 1];
      } else {
        assert all[i + 1] == vs[i + 1 - |xs|] && all[i] == vs[i - |xs|];
      }
    }
  }

  /** Scanning and posting one pending event. */
  lemma ScanThenPost(c: Codec, w: World, e: QueuedEvent)
    requires w.batch == [] && !w.posted && e in Abstract(c, w).Values
    ensures var scanned := w.(batch := [e]);
            Fragment(c, [w, scanned, scanned.(posted := true, delivered := w.delivered + [e])], [Scan, Post])
  {
    assert ScanResult(c, w.files, [e]);
  }

  /** One event acknowledged, scanned and posted, but not yet deleted. */
  lemma PostedRun(c: Codec, e: QueuedEvent) returns (ws: seq<World>, actions: seq<Action>)
    requires Lawful(c)
    ensures Run(c, ws, actions)
    ensures var w := ws[|actions|]; w.writer.Idle? && w.batch == [e] && w.posted && w.delivered == [e] && w.started == {e}
  {
    EnqueueRuns(c, EMPTY, e);
    var w := AfterEnqueue(c, EMPTY, e);
    ws, actions := [EMPTY] + EnqueueWorlds(c, EMPTY, e), EnqueueActions(c, e);
    assert ws[|actions|] == w;
    assert Abstract(c, w)[FileName(e)] == e by { NamesAreFiltered(e, e); }
    ScanThenPost(c, w, e);
    var scanned := w.(batch := [e]);
    var tail := [w, scanned, scanned.(posted := true, delivered := w.delivered + [e])];
    FragmentsChain(c, ws, actions, tail, [Scan, Post]);
    assert w.delivered + [e] == [e];
    ws, actions := ws + tail[1..], actions + [Scan, Post];
  }

  /**
   When a second event takes over a name between the post of the first and its delete, the delete
   removes the second event, which was acknowledged and never posted.
   */
  lemma OverwriteCanLose(c: Codec, first: QueuedEvent, second: QueuedEvent)
    returns (ws: seq<World>, actions: seq<Action>)
    requires Lawful(c) && first != second && FileName(first) == FileName(second)
    ensures Run(c, ws, actions)
    ensures second in ws[|actions|].acked && !OnDisk(c, ws[|actions|], second)
    ensures second !in ws[|actions|].delivered && ws[|actions|].started <= {first, second}
  {
    ws, actions := PostedRun(c, first);
    var w := ws[|actions|];
    EnqueueRuns(c, w, second);
    FragmentsChain(c, ws, actions, [w] + EnqueueWorlds(c, w, second), EnqueueActions(c, second));
    ws, actions := ws + ([w] + EnqueueWorlds(c, w, second))[1..], actions + EnqueueActions(c, second);
    var v := AfterEnqueue(c, w, second);
    assert ws[|actions|] == v;
    var end := v.(files := v.files - {FileName(first)}, batch := v.batch[1..], posted := false);
    FragmentsChain(c, ws, actions, [v, end], [MarkSent]);
    ws, actions := ws + [v, end][1..], actions + [MarkSent];
    assert ws[|actions|] == end;
  }

  ghost predicate LosesNothing(c: Codec, events: set<QueuedEvent>) {
    forall ws: seq<World>, actions: seq<Action> ::
      Run(c, ws, actions) && ws[|actions|].started <= events ==> NothingLost(c, ws[|actions|])
  }

  /** Over all runs that enqueue only the given events: nothing is ever lost exactly if their names differ. */
  lemma LosesNothingIff(c: Codec, events: set<QueuedEvent>)
    requires Lawful(c)
    ensures LosesNothing(c, events) <==>
            forall e, f :: e in events && f in events && FileName(e) == FileName(f) ==> e == f
  {
    if e, f :| e in events && f in events && FileName(e) == FileName(f) && e != f {
      var ws, actions := OverwriteCanLose(c, e, f);
      assert !NothingLost(c, ws[|actions|]);
    } else {
      forall ws: seq<World>, actions: seq<Action> | Run(c, ws, actions) && ws[|actions|].started <= events
        ensures NothingLost(c, ws[|actions|])
      {
        AtLeastOnce(c, ws, actions);
      }
    }
  }
}
