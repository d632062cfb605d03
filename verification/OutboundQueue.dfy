/** The outbound queue and its drainer, over a directory held as a mutable map from name to bytes. */
module OutboundQueue {
  import opened Wrappers
  import opened EventFiles
  import opened Drain
  import QueueCrash

  type Bytes = seq<QueueCrash.byte>

  /** Where an enqueue may be interrupted by a failing file operation. */
  datatype Fault = NoFault | OnOpen | OnWrite(written: nat) | OnSync | OnRename

  /** The decoded events of a directory. */
  ghost function Events(c: QueueCrash.Codec, files: map<string, Bytes>): set<QueuedEvent> {
    QueueCrash.Pending(c, files).Values
  }

  /** Every decodable file lies under its own event's name. */
  ghost predicate NamesMatch(c: QueueCrash.Codec, files: map<string, Bytes>) {
    forall name :: name in QueueCrash.Pending(c, files) ==> FileName(QueueCrash.Pending(c, files)[name]) == name
  }

  /** Crash-run directories have this shape, so the drainer's precondition is met after any crash. */
  lemma IntactNamesMatch(c: QueueCrash.Codec, w: QueueCrash.World)
    requires QueueCrash.Lawful(c) && QueueCrash.Intact(c, w)
    ensures NamesMatch(c, w.files)
  {
    var pending := QueueCrash.Pending(c, w.files);
    forall name | name in pending ensures FileName(pending[name]) == name {
      var e :| e in w.started && name == FileName(e) && w.files[name] == c.encode(e);
    }
  }

  lemma ValuesWithout<K, V>(m: map<K, V>, k: K)
    requires k in m && forall j :: j in m && m[j] == m[k] ==> j == k
    ensures (m - {k}).Values == m.Values - {m[k]}
  {
    forall v | v in m.Values - {m[k]} ensures v in (m - {k}).Values {
      var j :| j in m && m[j] == v;
      assert j in m - {k};
    }
  }

  lemma DeleteRemovesEvent(c: QueueCrash.Codec, files: map<string, Bytes>, e: QueuedEvent)
    requires NamesMatch(c, files) && e in Events(c, files)
    ensures NamesMatch(c, files - {FileName(e)})
    ensures Events(c, files - {FileName(e)}) == Events(c, files) - {e}
  {
    var pending := QueueCrash.Pending(c, files);
    QueueCrash.DeleteRemoves(c, files, FileName(e));
    var name :| name in pending && pending[name] == e;
    ValuesWithout(pending, name);
  }

  method SmallestKey(keys: set<u64>) returns (k: u64)
    requires keys != {}
    ensures k in keys && forall j :: j in keys ==> k <= j
  {
    var first :| first in keys;
    k := first;
    var rest := keys - {first};
    while rest != {}
      invariant rest <= keys && k in keys
      invariant forall j :: j in keys ==> k <= j || j in rest
      decreases rest
    {
      var next :| next in rest;
      if next < k { k := next; }
      rest := rest - {next};
    }
  }

  /** The values of an ordered map, in key order. */
  method IntoValues(bySeq: map<u64, QueuedEvent>) returns (out: seq<QueuedEvent>)
    requires forall n :: n in bySeq ==> bySeq[n].seqNo == n
    ensures Ascending(out) && Elements(out) == bySeq.Values
  {
    out := [];
    var rest := bySeq.Keys;
    while rest != {}
      invariant rest <= bySeq.Keys
      invariant Ascending(out)
      invariant forall i, n :: 0 <= i < |out| && n in rest ==> out[i].seqNo < n
      invariant forall e :: e in out <==> e.seqNo in bySeq.Keys - rest && bySeq[e.seqNo] == e
      decreases rest
    {
      var n := SmallestKey(rest);
      out := out + [bySeq[n]];
      rest := rest - {n};
    }
    assert forall e :: e in bySeq.Values ==> e.seqNo in bySeq && bySeq[e.seqNo] == e;
  }

  /** `bySeq` holds, for every sequence number among `events`, one of the events that have it. */
  ghost predicate Indexes(bySeq: map<u64, QueuedEvent>, events: set<QueuedEvent>) {
    && (forall n :: n in bySeq ==> bySeq[n].seqNo == n && bySeq[n] in events)
    && (forall e :: e in events ==> e.seqNo in bySeq)
  }

  lemma IndexIsScan(bySeq: map<u64, QueuedEvent>, events: set<QueuedEvent>, out: seq<QueuedEvent>)
    requires Indexes(bySeq, events) && Ascending(out) && Elements(out) == bySeq.Values
    ensures IsScan(events, out)
  {
    forall e | e in events ensures Represented(out, e.seqNo) {
      assert bySeq[e.seqNo] in bySeq.Values;
      assert bySeq[e.seqNo] in Elements(out);
    }
  }

  lemma ValuesOfUnion(m: map<string, QueuedEvent>, n: map<string, QueuedEvent>)
    requires m.Keys !! n.Keys
    ensures (m + n).Values == m.Values + n.Values
  {
    var sum := m + n;
    forall e | e in m.Values + n.Values ensures e in sum.Values {
      if e in m.Values {
        var k :| k in m && m[k] == e;
        assert sum[k] == e;
      } else {
        var k :| k in n && n[k] == e;
        assert sum[k] == e;
      }
    }
  }

  /** What one directory entry contributes to a scan. */
  ghost function Entry(c: QueueCrash.Codec, files: map<string, Bytes>, name: string): map<string, QueuedEvent>
    requires name in files
  {
    var parsed := c.decode(files[name]);
    if IsPendingName(name) && parsed.Some? then map[name := parsed.value] else map[]
  }

  lemma PendingOneMore(c: QueueCrash.Codec, files: map<string, Bytes>, hidden: set<string>, name: string)
    requires name in files && name in hidden
    ensures QueueCrash.Pending(c, files - (hidden - {name})) ==
              QueueCrash.Pending(c, files - hidden) + Entry(c, files, name)
  {
  }

  /** Reading one more file adds its event, if it has a pending name and parses. */
  lemma ReadOneMore(c: QueueCrash.Codec, files: map<string, Bytes>, hidden: set<string>, name: string)
    requires name in files && name in hidden
    ensures Events(c, files - (hidden - {name})) == Events(c, files - hidden) + Entry(c, files, name).Values
  {
    PendingOneMore(c, files, hidden, name);
    ValuesOfUnion(QueueCrash.Pending(c, files - hidden), Entry(c, files, name));
  }

  lemma EmptyScan(pending: set<QueuedEvent>)
    requires IsScan(pending, [])
    ensures pending == {}
  {
    assert forall e :: e in pending ==> Represented([], e.seqNo);
  }

  lemma ScanTakesNext(out: seq<QueuedEvent>, k: nat)
    requires Ascending(out) && k < |out|
    ensures out[k] !in Elements(out[..k])
    ensures Elements(out[..k + 1]) == Elements(out[..k]) + {out[k]}
  {
    assert out[..k + 1] == out[..k] + [out[k]];
  }

  /** What is off the disk once these posts were accepted; a file that cannot be deleted stays. */
  function Removed(sent: seq<QueuedEvent>, removable: nat -> bool): set<QueuedEvent> {
    set i | 0 <= i < |sent| && removable(i) :: sent[i]
  }

  lemma RemovedNext(scanned: seq<QueuedEvent>, removable: nat -> bool, k: nat)
    requires Ascending(scanned) && k < |scanned|
    ensures scanned[k] !in Removed(scanned[..k], removable)
    ensures Removed(scanned[..k + 1], removable)
            == Removed(scanned[..k], removable) + if removable(k) then {scanned[k]} else {}
  {
    var now, next := Removed(scanned[..k], removable), Removed(scanned[..k + 1], removable);
    forall e | e in next ensures e in now + if removable(k) then {scanned[k]} else {} {
      var i :| 0 <= i < k + 1 && removable(i) && scanned[i] == e;
      if i < k { assert scanned[..k][i] == e; }
    }
    forall e | e in now ensures e in next {
      var i :| 0 <= i < k && removable(i) && scanned[..k][i] == e;
      assert scanned[..k + 1][i] == e;
    }
    if removable(k) { assert scanned[..k + 1][k] == scanned[k]; }
  }

  lemma RemovedAll(sent: seq<QueuedEvent>)
    ensures Removed(sent, _ => true) == Elements(sent)
  {
    forall e | e in sent ensures e in Removed(sent, _ => true) {
      var i :| 0 <= i < |sent| && sent[i] == e;
    }
  }

  /** After `k` posts of a pass that began with `start` pending. */
  ghost predicate PostedTo(c: QueueCrash.Codec, files: map<string, Bytes>, start: set<QueuedEvent>,
                           scanned: seq<QueuedEvent>, removable: nat -> bool, k: nat)
    requires k <= |scanned|
  {
    NamesMatch(c, files) && Events(c, files) == start - Removed(scanned[..k], removable)
  }

  /** The file the next delete leaves behind, or does not. */
  function Deleted(files: map<string, Bytes>, e: QueuedEvent, removable: bool): map<string, Bytes> {
    if removable then files - {FileName(e)} else files
  }

  /** Deleting the next scanned event takes exactly it out of what is pending. */
  lemma DeleteNext(c: QueueCrash.Codec, files: map<string, Bytes>, start: set<QueuedEvent>,
                   scanned: seq<QueuedEvent>, removable: nat -> bool, k: nat)
    requires IsScan(start, scanned) && k < |scanned| && PostedTo(c, files, start, scanned, removable, k)
    ensures PostedTo(c, Deleted(files, scanned[k], removable(k)), start, scanned, removable, k + 1)
  {
    RemovedNext(scanned, removable, k);
    assert scanned[k] in Elements(scanned);
    if removable(k) { DeleteRemovesEvent(c, files, scanned[k]); }
  }

  class OutboundQueue {
    const codec: QueueCrash.Codec
    var files: map<string, Bytes>

    constructor (codec: QueueCrash.Codec)
      ensures this.codec == codec && files == map[]
    {
      this.codec := codec;
      files := map[];
    }

    ghost function Pending(): map<string, QueuedEvent>
      reads this
    {
      QueueCrash.Pending(codec, files)
    }

    /**
     Persist an event: temporary file, fsync, rename. A fault anywhere leaves what the scan sees as it
     was; success adds exactly this event, replacing whatever had its name.
     */
    method Enqueue(e: QueuedEvent, fault: Fault) returns (ok: bool)
      requires QueueCrash.Lawful(codec)
      modifies this
      ensures ok <==> fault.NoFault?
      ensures Pending() == if ok then old(Pending())[FileName(e) := e] else old(Pending())
      ensures ok ==> files == (old(files) - {TmpName(e)})[FileName(e) := codec.encode(e)]
      ensures !ok ==> files - {TmpName(e)} == old(files) - {TmpName(e)}
    {
      var tmp, bytes := TmpName(e), codec.encode(e);
      if fault.OnOpen? { return false; }
      QueueCrash.TmpIsInvisible(codec, files, e, []);
      files := files[tmp := []];
      if fault.OnWrite? {
        var part := if fault.written <= |bytes| then bytes[..fault.written] else bytes;
        QueueCrash.TmpIsInvisible(codec, files, e, part);
        files := files[tmp := part];
        return false;
      }
      QueueCrash.TmpIsInvisible(codec, files, e, bytes);
      files := files[tmp := bytes];
      if fault.OnSync? || fault.OnRename? { return false; }
      QueueCrash.TmpIsInvisible(codec, files, e, bytes);
      QueueCrash.RenameInserts(codec, files - {tmp}, e);
      files := (files - {tmp})[FileName(e) := files[tmp]];
      assert files == (old(files) - {tmp})[FileName(e) := bytes];
      ok := true;
    }

    /**
     All pending events by sequence number, in whatever order the directory lists them; files that
     cannot be read or parsed are skipped.
     */
    method ScanPending(unreadable: set<string>) returns (out: seq<QueuedEvent>)
      ensures IsScan(Events(codec, files - unreadable), out)
    {
      var bySeq: map<u64, QueuedEvent> := map[];
      var entries := files.Keys;
      assert files - (unreadable + entries) == map[];
      while entries != {}
        invariant entries <= files.Keys
        invariant Indexes(bySeq, Events(codec, files - (unreadable + entries)))
        decreases entries
      {
        var name :| name in entries;
        ghost var hidden := unreadable + entries;
        entries := entries - {name};
        if name in unreadable {
          assert unreadable + entries == hidden;
        } else {
          assert unreadable + entries == hidden - {name};
          ReadOneMore(codec, files, hidden, name);
          if IsPendingName(name) {
            var parsed := codec.decode(files[name]);
            if parsed.Some? { bySeq := bySeq[parsed.value.seqNo := parsed.value]; }
          }
        }
      }
      assert unreadable + entries == unreadable;
      out := IntoValues(bySeq);
      IndexIsScan(bySeq, Events(codec, files - unreadable), out);
    }

    /** Delete the event's file. A file that is already gone is fine; any other error leaves it there. */
    method MarkSent(e: QueuedEvent, removable: bool) returns (ok: bool)
      modifies this
      ensures ok <==> removable || FileName(e) !in old(files)
      ensures files == Deleted(old(files), e, removable)
    {
      if FileName(e) !in files {
        assert files - {FileName(e)} == files;
        return true;
      }
      if removable { files := files - {FileName(e)}; }
      ok := removable;
    }

    /**
     One drain pass: scan, then post in order and delete what was accepted, stopping at the first failed
     post. A failed delete does not stop it. `reply(i)` and `removable(i)` are the outcomes of the i-th post
     and of its delete.
     */
    method DrainOnce(reply: nat -> bool, removable: nat -> bool)
      returns (scanned: seq<QueuedEvent>, sent: seq<QueuedEvent>)
      requires NamesMatch(codec, files)
      modifies this
      ensures IsScan(old(Events(codec, files)), scanned)
      ensures sent <= scanned
      ensures forall i :: 0 <= i < |sent| ==> reply(i)
      ensures |sent| < |scanned| ==> !reply(|sent|)
      ensures NamesMatch(codec, files)
      ensures Events(codec, files) == old(Events(codec, files)) - Removed(sent, removable)
    {
      ghost var start := Events(codec, files);
      scanned := ScanPending({});
      assert files - {} == files;
      assert start - Removed(scanned[..0], removable) == start;
      var k := 0;
      while k < |scanned| && reply(k)
        invariant 0 <= k <= |scanned|
        invariant forall i :: 0 <= i < k ==> reply(i)
        invariant PostedTo(codec, files, start, scanned, removable, k)
      {
        DeleteNext(codec, files, start, scanned, removable, k);
        var _ := MarkSent(scanned[k], removable(k));
        k := k + 1;
      }
      sent := scanned[..k];
    }

    /**
     Drain passes against a control plane that accepts everything. They end with nothing pending, after
     as many passes as the largest group of events sharing a sequence number, each event delivered once.
     */
    method DrainAll() returns (rounds: seq<seq<QueuedEvent>>)
      requires NamesMatch(codec, files)
      modifies this
      ensures Events(codec, files) == {}
      ensures IsDrain(old(Events(codec, files)), rounds)
      ensures LargestClass(old(Events(codec, files)), |rounds|)
      ensures multiset(Flatten(rounds)) == multiset(old(Events(codec, files)))
    {
      rounds := [];
      ghost var start := Events(codec, files);
      var idle := false;
      while !idle
        invariant NamesMatch(codec, files)
        invariant DrainedTo(start, rounds, Events(codec, files))
        invariant idle ==> Events(codec, files) == {}
        decreases !idle, Events(codec, files)
      {
        ghost var before := Events(codec, files);
        var scanned, sent := DrainOnce(_ => true, _ => true);
        assert sent == scanned;
        RemovedAll(sent);
        if scanned == [] {
          idle := true;
          EmptyScan(before);
        } else {
          assert scanned[0] in Elements(scanned);
          DrainedStep(start, rounds, before, scanned);
          rounds := rounds + [scanned];
        }
      }
      DrainedIsDrain(start, rounds);
      DrainRounds(start, rounds);
      DrainDeliversOnce(start, rounds);
    }
  }

  /** After `rounds` of non-empty scans, `rest` is what is left. */
  ghost predicate DrainedTo(pending: set<QueuedEvent>, rounds: seq<seq<QueuedEvent>>, rest: set<QueuedEvent>)
    decreases |rounds|
  {
    if rounds == [] then rest == pending
    else pending != {} && IsScan(pending, rounds[0]) && DrainedTo(pending - Elements(rounds[0]), rounds[1..], rest)
  }

  lemma {:induction false} DrainedStep(pending: set<QueuedEvent>, rounds: seq<seq<QueuedEvent>>,
                                       rest: set<QueuedEvent>, out: seq<QueuedEvent>)
    requires DrainedTo(pending, rounds, rest) && rest != {} && IsScan(rest, out)
    ensures DrainedTo(pending, rounds + [out], rest - Elements(out))
    decreases |rounds|
  {
    if rounds != [] {
      DrainedStep(pending - Elements(rounds[0]), rounds[1..], rest, out);
      assert (rounds + [out])[1..] == rounds[1..] + [out];
    }
  }

  lemma {:induction false} DrainedIsDrain(pending: set<QueuedEvent>, rounds: seq<seq<QueuedEvent>>)
    requires DrainedTo(pending, rounds, {})
    ensures IsDrain(pending, rounds)
    decreases |rounds|
  {
    if rounds != [] { DrainedIsDrain(pending - Elements(rounds[0]), rounds[1..]); }
  }
}
