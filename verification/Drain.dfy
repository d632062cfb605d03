/**
 Draining the outbound queue when several pending files share a sequence number.

 A scan keeps one event per sequence number, whichever the directory listing gave last; the others wait
 for the next scan. `pending` is the set of decoded pending events.
 */
module Drain {
  import opened Wrappers
  import opened EventFiles

  /** The pending events with sequence number `n`. */
  ghost function Class(pending: set<QueuedEvent>, n: u64): set<QueuedEvent> {
    set e | e in pending && e.seqNo == n
  }

  ghost function Elements(s: seq<QueuedEvent>): set<QueuedEvent> {
    set e | e in s
  }

  ghost predicate Ascending(out: seq<QueuedEvent>) {
    forall i, j :: 0 <= i < j < |out| ==> out[i].seqNo < out[j].seqNo
  }

  ghost predicate Represented(out: seq<QueuedEvent>, n: u64) {
    exists f :: f in out && f.seqNo == n
  }

  /** What one scan may return: one pending event for each pending sequence number, in ascending order. */
  ghost predicate IsScan(pending: set<QueuedEvent>, out: seq<QueuedEvent>) {
    && Elements(out) <= pending
    && Ascending(out)
    && (forall e :: e in pending ==> Represented(out, e.seqNo))
  }

  /** Scans repeated until nothing is pending, every returned event deleted after each scan. */
  ghost predicate IsDrain(pending: set<QueuedEvent>, rounds: seq<seq<QueuedEvent>>)
    decreases |rounds|
  {
    if rounds == [] then pending == {}
    else pending != {} && IsScan(pending, rounds[0]) && IsDrain(pending - Elements(rounds[0]), rounds[1..])
  }

  ghost function Flatten(rounds: seq<seq<QueuedEvent>>): seq<QueuedEvent>
    decreases |rounds|
  {
    if rounds == [] then [] else rounds[0] + Flatten(rounds[1..])
  }

  // ----- How many rounds

  /** `m` is the size of the largest class, 0 when nothing is pending. */
  ghost predicate LargestClass(pending: set<QueuedEvent>, m: nat) {
    && (forall e :: e in pending ==> |Class(pending, e.seqNo)| <= m)
    && (m == 0 <==> pending == {})
    && (m > 0 ==> exists e :: e in pending && |Class(pending, e.seqNo)| == m)
  }

  lemma AscendingIsInjective(out: seq<QueuedEvent>, e: QueuedEvent, f: QueuedEvent)
    requires Ascending(out) && e in out && f in out && e.seqNo == f.seqNo
    ensures e == f
  {
    var i :| 0 <= i < |out| && out[i] == e;
    var j :| 0 <= j < |out| && out[j] == f;
  }

  /** One scan takes exactly one event out of every class. */
  lemma ScanShrinksClass(pending: set<QueuedEvent>, out: seq<QueuedEvent>, e: QueuedEvent)
    requires IsScan(pending, out) && e in pending
    ensures |Class(pending - Elements(out), e.seqNo)| == |Class(pending, e.seqNo)| - 1
  {
    assert Represented(out, e.seqNo);
    var f :| f in out && f.seqNo == e.seqNo;
    assert f in Elements(out);
    forall g | g in Class(pending, e.seqNo) && g in out ensures g == f {
      AscendingIsInjective(out, g, f);
    }
    assert Class(pending - Elements(out), e.seqNo) == Class(pending, e.seqNo) - {f};
  }

  /** An event's class is bounded by the largest class of whatever is left of it. */
  lemma ClassBound(rest: set<QueuedEvent>, n: u64, m: nat)
    requires LargestClass(rest, m)
    ensures |Class(rest, n)| <= m
  {
    if Class(rest, n) != {} {
      var f :| f in Class(rest, n);
      assert f in rest && f.seqNo == n;
    }
  }

  lemma ScanShrinksLargest(pending: set<QueuedEvent>, out: seq<QueuedEvent>, m: nat)
    requires IsScan(pending, out) && pending != {}
    requires LargestClass(pending - Elements(out), m)
    ensures LargestClass(pending, m + 1)
  {
    var rest := pending - Elements(out);
    forall e | e in pending ensures |Class(pending, e.seqNo)| <= m + 1 {
      ScanShrinksClass(pending, out, e);
      ClassBound(rest, e.seqNo, m);
    }
    var e :| e in pending && (m > 0 ==> e in rest && |Class(rest, e.seqNo)| == m);
    ScanShrinksClass(pending, out, e);
    ClassBound(rest, e.seqNo, m);
    assert |Class(pending, e.seqNo)| == m + 1;
  }

  /** Every drain, whatever each scan happened to keep, takes as many rounds as the largest class has events. */
  lemma {:induction false} DrainRounds(pending: set<QueuedEvent>, rounds: seq<seq<QueuedEvent>>)
    requires IsDrain(pending, rounds)
    ensures LargestClass(pending, |rounds|)
    decreases |rounds|
  {
    if rounds != [] {
      DrainRounds(pending - Elements(rounds[0]), rounds[1..]);
      ScanShrinksLargest(pending, rounds[0], |rounds| - 1);
    }
  }

  // ----- Each event exactly once

  lemma {:induction false} AscendingHasNoDuplicates(out: seq<QueuedEvent>)
    requires Ascending(out)
    ensures multiset(out) == multiset(Elements(out))
  {
    if out == [] {
      assert Elements(out) == {};
    } else {
      var n := |out| - 1;
      assert out == out[..n] + [out[n]];
      AscendingHasNoDuplicates(out[..n]);
      assert out[n] !in out[..n];
      assert Elements(out) == Elements(out[..n]) + {out[n]};
    }
  }

  lemma SplitMultiset(pending: set<QueuedEvent>, part: set<QueuedEvent>)
    requires part <= pending
    ensures multiset(part) + multiset(pending - part) == multiset(pending)
  {
  }

  /** Every drain delivers every pending event exactly once. */
  lemma {:induction false} DrainDeliversOnce(pending: set<QueuedEvent>, rounds: seq<seq<QueuedEvent>>)
    requires IsDrain(pending, rounds)
    ensures multiset(Flatten(rounds)) == multiset(pending)
    decreases |rounds|
  {
    if rounds != [] {
      var out := rounds[0];
      DrainDeliversOnce(pending - Elements(out), rounds[1..]);
      AscendingHasNoDuplicates(out);
      SplitMultiset(pending, Elements(out));
    }
  }

  /** With pairwise different sequence numbers one scan delivers everything, in ascending order. */
  lemma DistinctDrainsInOneRound(pending: set<QueuedEvent>, rounds: seq<seq<QueuedEvent>>)
    requires IsDrain(pending, rounds) && pending != {}
    requires forall e, f :: e in pending && f in pending && e.seqNo == f.seqNo ==> e == f
    ensures |rounds| == 1 && Ascending(Flatten(rounds))
  {
    DrainRounds(pending, rounds);
    var e :| e in pending && |Class(pending, e.seqNo)| == |rounds|;
    assert Class(pending, e.seqNo) == {e};
    assert Flatten(rounds) == rounds[0] + Flatten(rounds[1..]) && rounds[1..] == [];
  }

  // ----- When every rollout's events arrive in order

  /** Within each rollout, sequence numbers strictly ascend along the delivery. */
  ghost predicate InOrder(delivery: seq<QueuedEvent>) {
    forall i, j :: 0 <= i < j < |delivery| && delivery[i].rolloutId == delivery[j].rolloutId ==>
      delivery[i].seqNo < delivery[j].seqNo
  }

  /**
   No event that another event of its rollout must follow shares its sequence number with anything
   pending. A caller can check this on the directory before draining.
   */
  ghost predicate Unshared(pending: set<QueuedEvent>) {
    forall a, b :: a in pending && b in pending && a != b && a.rolloutId == b.rolloutId && a.seqNo <= b.seqNo ==>
      Class(pending, a.seqNo) == {a}
  }

  lemma UnsharedSubset(pending: set<QueuedEvent>, rest: set<QueuedEvent>)
    requires Unshared(pending) && rest <= pending
    ensures Unshared(rest)
  {
    forall a, b | a in rest && b in rest && a != b && a.rolloutId == b.rolloutId && a.seqNo <= b.seqNo
      ensures Class(rest, a.seqNo) == {a}
    {
      assert Class(rest, a.seqNo) <= Class(pending, a.seqNo) == {a};
    }
  }

  /** An event left behind by a scan comes after every event of its rollout that the scan returned. */
  lemma LeftBehindIsLater(pending: set<QueuedEvent>, out: seq<QueuedEvent>, a: QueuedEvent, b: QueuedEvent)
    requires Unshared(pending) && IsScan(pending, out)
    requires a in out && b in pending - Elements(out) && a.rolloutId == b.rolloutId
    ensures a.seqNo < b.seqNo
  {
    assert a in Elements(out);
    assert Represented(out, b.seqNo);
    var f :| f in out && f.seqNo == b.seqNo;
    assert f in Elements(out) && f in Class(pending, b.seqNo);
  }

  lemma InOrderAppend(out: seq<QueuedEvent>, tail: seq<QueuedEvent>)
    requires Ascending(out) && InOrder(tail)
    requires forall a, b :: a in out && b in tail && a.rolloutId == b.rolloutId ==> a.seqNo < b.seqNo
    ensures InOrder(out + tail)
  {
    var all := out + tail;
    forall i, j | 0 <= i < j < |all| && all[i].rolloutId == all[j].rolloutId
      ensures all[i].seqNo < all[j].seqNo
    {
      if i < |out| <= j {
        assert all[i] in out && all[j] in tail;
      }
    }
  }

  lemma {:induction false} UnsharedDrainsInOrder(pending: set<QueuedEvent>, rounds: seq<seq<QueuedEvent>>)
    requires IsDrain(pending, rounds) && Unshared(pending)
    ensures InOrder(Flatten(rounds))
    decreases |rounds|
  {
    if rounds != [] {
      var out, tail := rounds[0], Flatten(rounds[1..]);
      var rest := pending - Elements(out);
      UnsharedSubset(pending, rest);
      UnsharedDrainsInOrder(rest, rounds[1..]);
      DrainDeliversOnce(rest, rounds[1..]);
      forall a, b | a in out && b in tail && a.rolloutId == b.rolloutId ensures a.seqNo < b.seqNo {
        assert b in multiset(tail);
        LeftBehindIsLater(pending, out, a, b);
      }
      InOrderAppend(out, tail);
    }
  }

  lemma {:induction false} LargestSeqExists(pending: set<QueuedEvent>) returns (top: QueuedEvent)
    requires pending != {}
    ensures top in pending && forall e :: e in pending ==> e.seqNo <= top.seqNo
    decreases |pending|
  {
    top :| top in pending;
    if pending != {top} {
      var other := LargestSeqExists(pending - {top});
      if top.seqNo < other.seqNo { top := other; }
    }
  }

  /** Extends a scan of everything below the top class by one event of that class. */
  lemma ScanExtend(pending: set<QueuedEvent>, front: seq<QueuedEvent>, top: QueuedEvent)
    requires top in pending && forall e :: e in pending ==> e.seqNo <= top.seqNo
    requires IsScan(pending - Class(pending, top.seqNo), front)
    ensures IsScan(pending, front + [top])
    ensures Elements(front + [top]) == Elements(front) + {top}
  {
    var out := front + [top];
    forall i | 0 <= i < |front| ensures front[i].seqNo < top.seqNo {
      assert front[i] in Elements(front);
    }
    forall e | e in pending ensures Represented(out, e.seqNo) {
      if e.seqNo == top.seqNo {
        assert out[|front|] == top;
      } else {
        assert Represented(front, e.seqNo);
        var f :| f in front && f.seqNo == e.seqNo;
        assert f in out;
      }
    }
  }

  ghost predicate DistinctSeqs(chosen: set<QueuedEvent>) {
    forall e, f :: e in chosen && f in chosen && e.seqNo == f.seqNo ==> e == f
  }

  /** A scan may keep any chosen events that have different sequence numbers. */
  lemma {:induction false} ScanKeeping(pending: set<QueuedEvent>, chosen: set<QueuedEvent>)
    returns (out: seq<QueuedEvent>)
    requires chosen <= pending && DistinctSeqs(chosen)
    ensures IsScan(pending, out) && chosen <= Elements(out)
    decreases |pending|
  {
    if pending == {} {
      out := [];
    } else {
      var top := LargestSeqExists(pending);
      if e :| e in chosen && e.seqNo == top.seqNo { top := e; }
      var peers := Class(pending, top.seqNo);
      assert top in peers;
      var front := ScanKeeping(pending - peers, chosen - peers);
      ScanExtend(pending, front, top);
      out := front + [top];
    }
  }

  lemma {:induction false} DrainExists(pending: set<QueuedEvent>) returns (rounds: seq<seq<QueuedEvent>>)
    ensures IsDrain(pending, rounds)
    decreases |pending|
  {
    if pending == {} {
      rounds := [];
    } else {
      var out := ScanKeeping(pending, {});
      var e :| e in pending;
      assert Represented(out, e.seqNo);
      var f :| f in out && f.seqNo == e.seqNo;
      assert f in Elements(out) && f in pending;
      assert pending - Elements(out) < pending;
      var rest := DrainExists(pending - Elements(out));
      rounds := [out] + rest;
    }
  }

  lemma SwappedIsDisorder(first: seq<QueuedEvent>, rest: seq<QueuedEvent>, a: QueuedEvent, b: QueuedEvent)
    requires b in first && a in rest && a != b && a.rolloutId == b.rolloutId && a.seqNo <= b.seqNo
    ensures !InOrder(first + rest)
  {
    var i :| 0 <= i < |first| && first[i] == b;
    var j :| 0 <= j < |rest| && rest[j] == a;
    var all := first + rest;
    assert all[i] == b && all[|first| + j] == a;
  }

  /** A drain whose first round returns `b` but not `a` delivers `b` before `a`. */
  lemma LateEventDrain(pending: set<QueuedEvent>, out: seq<QueuedEvent>, a: QueuedEvent, b: QueuedEvent)
    returns (rounds: seq<seq<QueuedEvent>>)
    requires IsScan(pending, out) && a in pending && a !in out && b in out
    requires a.rolloutId == b.rolloutId && a.seqNo <= b.seqNo
    ensures IsDrain(pending, rounds) && !InOrder(Flatten(rounds))
  {
    var rest := pending - Elements(out);
    var tail := DrainExists(rest);
    rounds := [out] + tail;
    DrainDeliversOnce(rest, tail);
    assert a in multiset(Flatten(tail));
    SwappedIsDisorder(out, Flatten(tail), a, b);
  }

  /** A shared number lets a scan hide an event behind a later one of the same rollout. */
  lemma SharedCanDisorder(pending: set<QueuedEvent>) returns (rounds: seq<seq<QueuedEvent>>)
    requires !Unshared(pending)
    ensures IsDrain(pending, rounds) && !InOrder(Flatten(rounds))
  {
    var a, b :| a in pending && b in pending && a != b && a.rolloutId == b.rolloutId && a.seqNo <= b.seqNo
                && Class(pending, a.seqNo) != {a};
    assert a in Class(pending, a.seqNo);
    var c: QueuedEvent;
    if a.seqNo == b.seqNo {
      c := b;
    } else {
      c :| c in Class(pending, a.seqNo) && c != a;
    }
    var out := ScanKeeping(pending, {b, c});
    assert b in Elements(out) && c in Elements(out);
    if a in out { AscendingIsInjective(out, a, c); }
    rounds := LateEventDrain(pending, out, a, b);
  }

  /** Exactly when draining preserves each rollout's order, for every choice the scans may make. */
  lemma InOrderIff(pending: set<QueuedEvent>)
    ensures (forall rounds :: IsDrain(pending, rounds) ==> InOrder(Flatten(rounds))) <==> Unshared(pending)
  {
    if Unshared(pending) {
      forall rounds | IsDrain(pending, rounds) ensures InOrder(Flatten(rounds)) {
        UnsharedDrainsInOrder(pending, rounds);
      }
    } else {
      var rounds := SharedCanDisorder(pending);
    }
  }
}
