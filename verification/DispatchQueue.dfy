/** Dispatches waiting for an agent's long-poll: one row for each (host, rollout), taken oldest first. */
module DispatchQueue {
  import opened Wrappers
  import RM = RolloutMachine
  import T = Timestamps
  import Text

  type Stamp = RM.Stamp
  type Key = (string, string)

  datatype QueuedDispatch = QueuedDispatch(
    hostname: string, rolloutId: string, targetClosure: string, soakDueAt: Stamp, enqueuedAt: Stamp)

  type Rows = map<Key, QueuedDispatch>

  function KeyOf(q: QueuedDispatch): Key {
    (q.hostname, q.rolloutId)
  }

  ghost predicate Keyed(rows: Rows) {
    forall key :: key in rows ==> KeyOf(rows[key]) == key
  }

  /** `ORDER BY enqueued_at ASC`, on the stored text. */
  predicate NotAfter(a: QueuedDispatch, b: QueuedDispatch) {
    !Text.Less(T.Rfc3339(b.enqueuedAt), T.Rfc3339(a.enqueuedAt))
  }

  predicate NoLater(a: QueuedDispatch, b: QueuedDispatch) {
    T.InstantOf(a.enqueuedAt) <= T.InstantOf(b.enqueuedAt)
  }

  lemma NotAfterIsTimeOrder(a: QueuedDispatch, b: QueuedDispatch)
    ensures NotAfter(a, b) <==> NoLater(a, b)
  {
    T.TextOrderIsTimeOrder(b.enqueuedAt, a.enqueuedAt);
  }

  function ForHost(rows: Rows, host: string): set<Key> {
    set key | key in rows && key.0 == host
  }

  /** What a take may return: nothing exactly when the host has no row, otherwise one of its oldest. */
  ghost predicate TakeResult(rows: Rows, host: string, r: Option<QueuedDispatch>) {
    match r
    case None => ForHost(rows, host) == {}
    case Some(q) =>
      && q.hostname == host && KeyOf(q) in rows && rows[KeyOf(q)] == q
      && forall key :: key in ForHost(rows, host) ==> NoLater(q, rows[key])
  }

  function AfterTake(rows: Rows, r: Option<QueuedDispatch>): Rows {
    if r.Some? then rows - {KeyOf(r.value)} else rows
  }

  lemma {:induction false} OldestExists(rows: Rows, keys: set<Key>) returns (oldest: Key)
    requires keys != {} && keys <= rows.Keys
    ensures oldest in keys && forall key :: key in keys ==> NoLater(rows[oldest], rows[key])
    decreases |keys|
  {
    oldest :| oldest in keys;
    if keys != {oldest} {
      var other := OldestExists(rows, keys - {oldest});
      if NoLater(rows[other], rows[oldest]) { oldest := other; }
    }
  }

  /** A row the select may return: none of the host's rows sorts before it as text. */
  predicate SelectedFirst(rows: Rows, keys: set<Key>, k: Key)
    requires keys <= rows.Keys
  {
    k in keys && forall key :: key in keys ==> NotAfter(rows[k], rows[key])
  }

  lemma TextOldestIsOldest(rows: Rows, keys: set<Key>, k: Key)
    requires keys <= rows.Keys && k in keys
    ensures SelectedFirst(rows, keys, k) <==> forall key :: key in keys ==> NoLater(rows[k], rows[key])
  {
    forall key | key in keys ensures NotAfter(rows[k], rows[key]) <==> NoLater(rows[k], rows[key]) {
      NotAfterIsTimeOrder(rows[k], rows[key]);
    }
  }

  lemma SelectionExists(rows: Rows, keys: set<Key>)
    requires keys != {} && keys <= rows.Keys
    ensures exists k :: SelectedFirst(rows, keys, k)
  {
    var oldest := OldestExists(rows, keys);
    TextOldestIsOldest(rows, keys, oldest);
  }

  lemma SelectionIsTake(rows: Rows, host: string, k: Key)
    requires Keyed(rows) && SelectedFirst(rows, ForHost(rows, host), k)
    ensures TakeResult(rows, host, Some(rows[k])) && KeyOf(rows[k]) == k
  {
    TextOldestIsOldest(rows, ForHost(rows, host), k);
  }

  class DispatchQueue {
    var rows: Rows

    constructor ()
      ensures rows == map[]
    {
      rows := map[];
    }

    /** The last upsert of a pair wins. */
    method Upsert(q: QueuedDispatch)
      modifies this
      ensures rows == old(rows)[(q.hostname, q.rolloutId) := q]
    {
      rows := rows[KeyOf(q) := q];
    }

    /** Select by the stored text, delete the row found. */
    method TakeForHost(host: string) returns (r: Option<QueuedDispatch>)
      requires Keyed(rows)
      modifies this
      ensures TakeResult(old(rows), host, r)
      ensures rows == AfterTake(old(rows), r)
    {
      var keys := ForHost(rows, host);
      if keys == {} { return None; }
      SelectionExists(rows, keys);
      var key :| SelectedFirst(rows, keys, key);
      SelectionIsTake(rows, host, key);
      r := Some(rows[key]);
      rows := rows - {key};
    }

    method PeekForHost(host: string) returns (pending: bool)
      ensures pending <==> exists key :: key in ForHost(rows, host)
    {
      pending := |ForHost(rows, host)| > 0;
    }
  }

  // ----- Conservation over runs

  datatype Op = UpsertOp(q: QueuedDispatch) | TakeOp(host: string, result: Option<QueuedDispatch>)

  /** The rows, and everything that went in, came out, or was replaced. */
  datatype Ledger = Ledger(
    rows: Rows, upserted: multiset<QueuedDispatch>, taken: multiset<QueuedDispatch>,
    overwritten: multiset<QueuedDispatch>)

  ghost function Record(l: Ledger, op: Op): Ledger {
    match op
    case UpsertOp(q) =>
      Ledger(l.rows[KeyOf(q) := q], l.upserted + multiset{q}, l.taken,
             l.overwritten + if KeyOf(q) in l.rows then multiset{l.rows[KeyOf(q)]} else multiset{})
    case TakeOp(_, r) =>
      Ledger(AfterTake(l.rows, r), l.upserted,
             l.taken + (if r.Some? then multiset{r.value} else multiset{}), l.overwritten)
  }

  ghost predicate Legal(rows: Rows, op: Op) {
    op.TakeOp? ==> TakeResult(rows, op.host, op.result)
  }

  ghost predicate Run(l: Ledger, ops: seq<Op>, end: Ledger)
    decreases |ops|
  {
    if ops == [] then l == end else Legal(l.rows, ops[0]) && Run(Record(l, ops[0]), ops[1..], end)
  }

  ghost predicate Balanced(l: Ledger) {
    Keyed(l.rows) && l.upserted == l.taken + l.overwritten + multiset(l.rows.Values)
  }

  lemma ValuesAfterRemove(rows: Rows, key: Key)
    requires Keyed(rows) && key in rows
    ensures Keyed(rows - {key})
    ensures multiset(rows.Values) == multiset((rows - {key}).Values) + multiset{rows[key]}
  {
    var rest := rows - {key};
    forall q | q in rows.Values ensures q == rows[key] || q in rest.Values {
      var k :| k in rows && rows[k] == q;
      if k != key { assert rest[k] == q; }
    }
    assert rows.Values == rest.Values + {rows[key]} && rows[key] !in rest.Values;
  }

  lemma ValuesAfterInsert(rows: Rows, q: QueuedDispatch)
    requires Keyed(rows) && KeyOf(q) !in rows
    ensures Keyed(rows[KeyOf(q) := q])
    ensures multiset(rows[KeyOf(q) := q].Values) == multiset(rows.Values) + multiset{q}
  {
    var more := rows[KeyOf(q) := q];
    ValuesAfterRemove(more, KeyOf(q));
    assert more - {KeyOf(q)} == rows;
  }

  lemma ValuesAfterReplace(rows: Rows, q: QueuedDispatch)
    requires Keyed(rows) && KeyOf(q) in rows
    ensures Keyed(rows[KeyOf(q) := q])
    ensures multiset(rows[KeyOf(q) := q].Values) + multiset{rows[KeyOf(q)]} == multiset(rows.Values) + multiset{q}
  {
    var without := rows - {KeyOf(q)};
    ValuesAfterRemove(rows, KeyOf(q));
    ValuesAfterInsert(without, q);
    assert without[KeyOf(q) := q] == rows[KeyOf(q) := q];
  }

  lemma UpsertKeepsBalance(l: Ledger, q: QueuedDispatch)
    requires Balanced(l)
    ensures Balanced(Record(l, UpsertOp(q)))
  {
    var before, next := multiset(l.rows.Values), Record(l, UpsertOp(q));
    if KeyOf(q) in l.rows {
      ValuesAfterReplace(l.rows, q);
      var gone := multiset{l.rows[KeyOf(q)]};
      var after := multiset(next.rows.Values);
      assert l.taken + (l.overwritten + gone) + after == l.taken + l.overwritten + (after + gone);
      assert l.upserted + multiset{q} == l.taken + l.overwritten + (before + multiset{q});
    } else {
      ValuesAfterInsert(l.rows, q);
    }
  }

  lemma TakeKeepsBalance(l: Ledger, op: Op)
    requires op.TakeOp? && Balanced(l) && Legal(l.rows, op)
    ensures Balanced(Record(l, op))
  {
    if op.result.Some? { ValuesAfterRemove(l.rows, KeyOf(op.result.value)); }
  }

  /** An upsert replaces a row exactly when one is queued for the same host and rollout. */
  lemma OverwritesIff(l: Ledger, q: QueuedDispatch)
    requires Keyed(l.rows)
    ensures Record(l, UpsertOp(q)).overwritten ==
              l.overwritten + if (q.hostname, q.rolloutId) in l.rows then multiset{l.rows[(q.hostname, q.rolloutId)]}
                              else multiset{}
    ensures (q.hostname, q.rolloutId) in l.rows <==>
              exists other :: other in l.rows.Values && other.hostname == q.hostname && other.rolloutId == q.rolloutId
  {
    if (q.hostname, q.rolloutId) in l.rows { assert l.rows[(q.hostname, q.rolloutId)] in l.rows.Values; }
  }

  /**
   Conservation: over every run of upserts and takes, what was upserted is, payload for payload, what
   was taken, what a later upsert of the same pair replaced, and what is still queued.
   */
  lemma {:induction false} NothingLostOrDoubled(l: Ledger, ops: seq<Op>, end: Ledger)
    requires Balanced(l) && Run(l, ops, end)
    ensures Balanced(end)
    decreases |ops|
  {
    if ops != [] {
      match ops[0] {
        case UpsertOp(q) => UpsertKeepsBalance(l, q);
        case TakeOp(_, _) => TakeKeepsBalance(l, ops[0]);
      }
      NothingLostOrDoubled(Record(l, ops[0]), ops[1..], end);
    }
  }

  // ----- Draining a host

  /** Takes for one host until nothing is left. */
  ghost predicate IsDrain(rows: Rows, host: string, taken: seq<QueuedDispatch>, end: Rows)
    decreases |taken|
  {
    if taken == [] then TakeResult(rows, host, None) && end == rows
    else
      && TakeResult(rows, host, Some(taken[0]))
      && IsDrain(AfterTake(rows, Some(taken[0])), host, taken[1..], end)
  }

  ghost predicate ByTime(taken: seq<QueuedDispatch>) {
    forall i, j :: 0 <= i < j < |taken| ==> NoLater(taken[i], taken[j])
  }

  /** Every row of the host is taken exactly once, and nothing else is. */
  ghost predicate TakesExactly(rows: Rows, host: string, taken: seq<QueuedDispatch>) {
    && (forall i, j :: 0 <= i < j < |taken| ==> KeyOf(taken[i]) != KeyOf(taken[j]))
    && (forall i :: 0 <= i < |taken| ==>
          KeyOf(taken[i]) in ForHost(rows, host) && rows[KeyOf(taken[i])] == taken[i])
    && forall key :: key in ForHost(rows, host) ==> exists i :: 0 <= i < |taken| && taken[i] == rows[key]
  }

  lemma DrainStepCovers(rows: Rows, host: string, taken: seq<QueuedDispatch>)
    requires Keyed(rows) && taken != [] && TakeResult(rows, host, Some(taken[0]))
    requires TakesExactly(rows - {KeyOf(taken[0])}, host, taken[1..])
    ensures forall key :: key in ForHost(rows, host) ==> exists i :: 0 <= i < |taken| && taken[i] == rows[key]
  {
    var rest := rows - {KeyOf(taken[0])};
    forall key | key in ForHost(rows, host) ensures exists i :: 0 <= i < |taken| && taken[i] == rows[key] {
      if key == KeyOf(taken[0]) {
        assert taken[0] == rows[key];
      } else {
        assert key in ForHost(rest, host);
        var i :| 0 <= i < |taken[1..]| && taken[1..][i] == rest[key];
        assert taken[i + 1] == rows[key];
      }
    }
  }

  lemma DrainStepExact(rows: Rows, host: string, taken: seq<QueuedDispatch>)
    requires Keyed(rows) && taken != [] && TakeResult(rows, host, Some(taken[0]))
    requires TakesExactly(rows - {KeyOf(taken[0])}, host, taken[1..])
    ensures TakesExactly(rows, host, taken)
  {
    var rest := rows - {KeyOf(taken[0])};
    DrainStepCovers(rows, host, taken);
    forall i | 0 < i < |taken|
      ensures KeyOf(taken[i]) in ForHost(rest, host) && rest[KeyOf(taken[i])] == taken[i]
    {
      assert taken[i] == taken[1..][i - 1];
    }
    forall i, j | 0 <= i < j < |taken| ensures KeyOf(taken[i]) != KeyOf(taken[j]) {
      if i > 0 { assert taken[i] == taken[1..][i - 1] && taken[j] == taken[1..][j - 1]; }
    }
  }

  lemma DrainStepOrdered(rows: Rows, host: string, taken: seq<QueuedDispatch>)
    requires Keyed(rows) && taken != [] && TakeResult(rows, host, Some(taken[0]))
    requires TakesExactly(rows, host, taken) && ByTime(taken[1..])
    ensures ByTime(taken)
  {
    forall i, j | 0 <= i < j < |taken| ensures NoLater(taken[i], taken[j]) {
      if i == 0 {
        assert KeyOf(taken[j]) in ForHost(rows, host);
      } else {
        assert taken[i] == taken[1..][i - 1] && taken[j] == taken[1..][j - 1];
      }
    }
  }

  /**
   First in, first out: draining a host returns each of its rows exactly once, by non-decreasing
   enqueue time, and leaves every other host's rows alone.
   */
  lemma {:induction false} DrainIsFifo(rows: Rows, host: string, taken: seq<QueuedDispatch>, end: Rows)
    requires Keyed(rows) && IsDrain(rows, host, taken, end)
    ensures end == rows - ForHost(rows, host)
    ensures TakesExactly(rows, host, taken)
    ensures ByTime(taken)
    decreases |taken|
  {
    if taken == [] {
      assert end == rows - {};
    } else {
      var rest := rows - {KeyOf(taken[0])};
      DrainIsFifo(rest, host, taken[1..], end);
      assert ForHost(rows, host) == ForHost(rest, host) + {KeyOf(taken[0])};
      DrainStepExact(rows, host, taken);
      DrainStepOrdered(rows, host, taken);
    }
  }
}
