/** Trust roots, signed sidecars and freshness: which artifacts are accepted, and when. */
module Verify {
  import opened Wrappers

  const ACCEPTED_SCHEMA_VERSION: u32 := 1
  const CLOCK_SKEW_SLACK: int := 60 * NANOS_PER_SEC
  const CLOCK_SKEW_SLACK_SECS := 60

  datatype TrustedPubkey = TrustedPubkey(algorithm: string, public: string)

  datatype KeySlot = KeySlot(
    current: Option<TrustedPubkey>, previous: Option<TrustedPubkey>, rejectBefore: Option<Instant>,
    successor: Option<TrustedPubkey>, retireAt: Option<Instant>)

  /** `verifying` holds the keys under which the signature over these bytes checks. */
  datatype Artifact =
    | Unreadable(error: VerifyError)
    | Canonical(payload: Option<Payload>, verifying: set<TrustedPubkey>)

  datatype Payload = Payload(schemaVersion: u32, signedAt: Option<Instant>)

  datatype VerifyError =
    | NoTrustRoots | Parse | Canonicalize | BadSignature | NotSigned
    | UnsupportedAlgorithm(algorithm: string)
    | SchemaVersionUnsupported(version: u32)
    | RejectedBeforeTimestamp(signedAt: Instant, rejectBefore: Instant)
    | Stale(signedAt: Instant, now: Instant, window: nat)
    | FutureDated(signedAt: Instant, now: Instant)

  // ----- Key slots

  /** Newest first: an artifact signed by either of the two is still trusted. */
  method ActiveKeys(slot: KeySlot) returns (keys: seq<TrustedPubkey>)
    ensures |keys| <= 2 && forall k :: k in keys <==> slot.current == Some(k) || slot.previous == Some(k)
    ensures slot.current.Some? ==> keys != [] && keys[0] == slot.current.value
    ensures slot.previous.Some? ==> keys != [] && keys[|keys| - 1] == slot.previous.value
  {
    keys := [];
    if slot.current.Some? { keys := keys + [slot.current.value]; }
    if slot.previous.Some? { keys := keys + [slot.previous.value]; }
  }

  ghost predicate Trusts(slot: KeySlot, now: Instant, k: TrustedPubkey) {
    || slot.current == Some(k) || slot.previous == Some(k)
    || (slot.successor == Some(k) && slot.retireAt.Some? && now < slot.retireAt.value)
  }

  /** The successor joins, last, strictly before the retirement deadline. */
  method ActiveKeysAt(slot: KeySlot, now: Instant) returns (keys: seq<TrustedPubkey>)
    ensures forall k :: k in keys <==> Trusts(slot, now, k)
    ensures slot.current.Some? ==> keys != [] && keys[0] == slot.current.value
  {
    keys := ActiveKeys(slot);
    if slot.successor.Some? && slot.retireAt.Some? && now < slot.retireAt.value {
      keys := keys + [slot.successor.value];
    }
  }

  // ----- Signatures

  predicate Supported(algorithm: string) {
    algorithm == "ed25519" || algorithm == "ecdsa-p256"
  }

  ghost predicate SignedBySome(a: Artifact, keys: seq<TrustedPubkey>) {
    a.Canonical? && exists k :: k in keys && Supported(k.algorithm) && k in a.verifying
  }

  ghost predicate AnySupported(keys: seq<TrustedPubkey>) {
    exists k :: k in keys && Supported(k.algorithm)
  }

  /** The one answer for each input: which error names which fault. */
  ghost function SignatureFault(a: Artifact, keys: seq<TrustedPubkey>): Option<VerifyError> {
    if keys == [] then Some(NoTrustRoots)
    else if a.Unreadable? then Some(a.error)
    else if SignedBySome(a, keys) then None
    else if AnySupported(keys) then Some(BadSignature)
    else Some(UnsupportedAlgorithm(keys[0].algorithm))
  }

  /** Keys in declaration order, unknown algorithms skipped, first match wins. */
  method VerifySignature(a: Artifact, keys: seq<TrustedPubkey>) returns (fault: Option<VerifyError>)
    ensures fault == SignatureFault(a, keys)
  {
    if keys == [] { return Some(NoTrustRoots); }
    if a.Unreadable? { return Some(a.error); }
    var attemptedAnySupported := false;
    for i := 0 to |keys|
      invariant attemptedAnySupported <==> exists k :: k in keys[..i] && Supported(k.algorithm)
      invariant forall k :: k in keys[..i] && Supported(k.algorithm) ==> k !in a.verifying
    {
      var key := keys[i];
      assert keys[..i + 1] == keys[..i] + [key];
      if Supported(key.algorithm) {
        attemptedAnySupported := true;
        if key in a.verifying { return None; }
      }
    }
    assert keys[..|keys|] == keys;
    if !attemptedAnySupported { return Some(UnsupportedAlgorithm(keys[0].algorithm)); }
    fault := Some(BadSignature);
  }

  // ----- Schema, kill switch and freshness

  /** Past signing times get the window and the slack, future ones the slack alone. */
  function Finish(p: Payload, now: Instant, window: nat, rejectBefore: Option<Instant>): Result<Instant, VerifyError> {
    if p.schemaVersion != ACCEPTED_SCHEMA_VERSION then Failure(SchemaVersionUnsupported(p.schemaVersion))
    else if p.signedAt.None? then Failure(NotSigned)
    else
      var signedAt := p.signedAt.value;
      if rejectBefore.Some? && signedAt < rejectBefore.value then
        Failure(RejectedBeforeTimestamp(signedAt, rejectBefore.value))
      else
        var elapsed := now - signedAt;
        if elapsed > window + CLOCK_SKEW_SLACK then Failure(Stale(signedAt, now, window))
        else if -elapsed > CLOCK_SKEW_SLACK then Failure(FutureDated(signedAt, now))
        else Success(signedAt)
  }

  ghost function Verdict(
    a: Artifact, keys: seq<TrustedPubkey>, now: Instant, window: nat, rejectBefore: Option<Instant>)
    : Result<Instant, VerifyError>
  {
    match SignatureFault(a, keys)
    case Some(e) => Failure(e)
    case None => if a.payload.None? then Failure(Parse) else Finish(a.payload.value, now, window, rejectBefore)
  }

  method VerifySidecar(
    a: Artifact, keys: seq<TrustedPubkey>, now: Instant, window: nat, rejectBefore: Option<Instant>)
    returns (r: Result<Instant, VerifyError>)
    ensures r == Verdict(a, keys, now, window, rejectBefore)
  {
    var fault := VerifySignature(a, keys);
    if fault.Some? { return Failure(fault.value); }
    if a.payload.None? { return Failure(Parse); }
    r := Finish(a.payload.value, now, window, rejectBefore);
  }

  /** What an artifact says about itself, apart from the time. */
  ghost predicate Sound(a: Artifact, rejectBefore: Option<Instant>) {
    && a.Canonical? && a.payload.Some?
    && a.payload.value.schemaVersion == ACCEPTED_SCHEMA_VERSION
    && a.payload.value.signedAt.Some?
    && (rejectBefore.Some? ==> rejectBefore.value <= a.payload.value.signedAt.value)
  }

  /** Accepted exactly when every gate passes; what is returned is the payload's own signing time. */
  lemma AcceptedIff(
    a: Artifact, keys: seq<TrustedPubkey>, now: Instant, window: nat, rejectBefore: Option<Instant>)
    ensures Verdict(a, keys, now, window, rejectBefore).Success? <==>
            && SignedBySome(a, keys) && Sound(a, rejectBefore)
            && -60 * NANOS_PER_SEC <= now - a.payload.value.signedAt.value <= window + 60 * NANOS_PER_SEC
    ensures Verdict(a, keys, now, window, rejectBefore).Success? ==>
              a.payload.value.signedAt == Some(Verdict(a, keys, now, window, rejectBefore).value)
  {
    if SignedBySome(a, keys) {
      var k :| k in keys && Supported(k.algorithm) && k in a.verifying;
      assert keys != [];
    }
  }

  /** The signing time is within the window, with one minute of slack either way, and not before the kill switch. */
  predicate InTime(at: Instant, now: Instant, window: nat, rejectBefore: Option<Instant>) {
    && (rejectBefore.Some? ==> rejectBefore.value <= at)
    && at - 60 * NANOS_PER_SEC <= now <= at + window + 60 * NANOS_PER_SEC
  }

  /** The first fault decides, and each error carries the times it compared. */
  lemma FinishIs(p: Payload, now: Instant, window: nat, rejectBefore: Option<Instant>)
    ensures var r := Finish(p, now, window, rejectBefore);
            if p.schemaVersion != 1 then r == Failure(SchemaVersionUnsupported(p.schemaVersion))
            else if p.signedAt.None? then r == Failure(NotSigned)
            else
              var at := p.signedAt.value;
              match r
              case Failure(RejectedBeforeTimestamp(t, before)) => t == at < before && rejectBefore == Some(before)
              case Failure(Stale(t, n, w)) =>
                && t == at && n == now && w == window && at + window + 60 * NANOS_PER_SEC < now
                && (rejectBefore.Some? ==> rejectBefore.value <= at)
              case Failure(FutureDated(t, n)) =>
                t == at && n == now && now + 60 * NANOS_PER_SEC < at && (rejectBefore.Some? ==> rejectBefore.value <= at)
              case Failure(_) => false
              case Success(t) => t == at && InTime(at, now, window, rejectBefore)
  {}

  ghost predicate Known(k: TrustedPubkey) {
    k.algorithm == "ed25519" || k.algorithm == "ecdsa-p256"
  }

  /** A signature counts under the two known algorithms alone; without one, each fault has its own error. */
  lemma FaultIs(a: Artifact, keys: seq<TrustedPubkey>)
    ensures var fault := SignatureFault(a, keys);
            if keys == [] then fault == Some(NoTrustRoots)
            else
              match a
              case Unreadable(e) => fault == Some(e)
              case Canonical(_, verifying) =>
                && (fault.None? <==> exists i :: 0 <= i < |keys| && keys[i] in verifying && Known(keys[i]))
                && (fault.Some? ==>
                      if forall i :: 0 <= i < |keys| ==> !Known(keys[i])
                      then fault == Some(UnsupportedAlgorithm(keys[0].algorithm)) else fault == Some(BadSignature))
  {
    if SignedBySome(a, keys) {
      var k :| k in keys && Supported(k.algorithm) && k in a.verifying;
      var i :| 0 <= i < |keys| && keys[i] == k;
      assert Known(keys[i]);
    }
    if AnySupported(keys) {
      var k :| k in keys && Supported(k.algorithm);
      var i :| 0 <= i < |keys| && keys[i] == k;
      assert Known(keys[i]);
    }
  }

  // ----- Keys of a future algorithm

  /**
   A key with an unknown algorithm, declared anywhere, changes no acceptance; and it changes no error
   either as soon as one supported key is declared.
   */
  lemma UnknownKeyIsIgnored(
    a: Artifact, front: seq<TrustedPubkey>, unknown: TrustedPubkey, back: seq<TrustedPubkey>,
    now: Instant, window: nat, rejectBefore: Option<Instant>)
    requires !Supported(unknown.algorithm)
    ensures var less := Verdict(a, front + back, now, window, rejectBefore);
            var more := Verdict(a, front + [unknown] + back, now, window, rejectBefore);
            && (less.Success? <==> more.Success?)
            && (AnySupported(front + back) ==> less == more)
  {
    var keys, wide := front + back, front + [unknown] + back;
    assert forall k :: k in wide <==> k in keys || k == unknown;
    assert AnySupported(keys) <==> AnySupported(wide);
    assert SignedBySome(a, keys) <==> SignedBySome(a, wide);
    if SignedBySome(a, keys) { assert AnySupported(keys); }
    if AnySupported(keys) {
      var k :| k in keys && Supported(k.algorithm);
    }
  }

  // ----- When an artifact is accepted under a slot

  ghost predicate SignedByKept(slot: KeySlot, a: Artifact) {
    && a.Canonical?
    && exists k :: (slot.current == Some(k) || slot.previous == Some(k)) && Supported(k.algorithm) && k in a.verifying
  }

  ghost predicate SignedBySuccessor(slot: KeySlot, a: Artifact) {
    && a.Canonical? && slot.successor.Some? && slot.retireAt.Some?
    && Supported(slot.successor.value.algorithm) && slot.successor.value in a.verifying
  }

  ghost predicate AcceptedAt(slot: KeySlot, a: Artifact, window: nat, keys: seq<TrustedPubkey>, now: Instant) {
    && (forall k :: k in keys <==> Trusts(slot, now, k))
    && Verdict(a, keys, now, window, slot.rejectBefore).Success?
  }

  /** The first and the last instant at which the artifact is accepted, the last one exclusive. */
  ghost function Opens(a: Artifact): Instant
    requires a.Canonical? && a.payload.Some? && a.payload.value.signedAt.Some?
  {
    a.payload.value.signedAt.value - CLOCK_SKEW_SLACK
  }

  ghost function Closes(slot: KeySlot, a: Artifact, window: nat): Instant
    requires a.Canonical? && a.payload.Some? && a.payload.value.signedAt.Some?
  {
    var stale := a.payload.value.signedAt.value + window + CLOCK_SKEW_SLACK + 1;
    if SignedByKept(slot, a) || slot.retireAt.None? || stale <= slot.retireAt.value then stale
    else slot.retireAt.value
  }

  /** No gaps: the accepting instants of a sound artifact are one interval, cut short only by retirement. */
  lemma AcceptingTimesAreOneInterval(slot: KeySlot, a: Artifact, window: nat, keys: seq<TrustedPubkey>, now: Instant)
    requires forall k :: k in keys <==> Trusts(slot, now, k)
    ensures AcceptedAt(slot, a, window, keys, now) <==>
            && Sound(a, slot.rejectBefore)
            && (SignedByKept(slot, a) || SignedBySuccessor(slot, a))
            && Opens(a) <= now < Closes(slot, a, window)
  {
    AcceptedIff(a, keys, now, window, slot.rejectBefore);
    if SignedBySome(a, keys) {
      var k :| k in keys && Supported(k.algorithm) && k in a.verifying;
      assert Trusts(slot, now, k);
      assert SignedByKept(slot, a) || (SignedBySuccessor(slot, a) && now < slot.retireAt.value);
    }
    if SignedByKept(slot, a) {
      var k :| (slot.current == Some(k) || slot.previous == Some(k)) && Supported(k.algorithm) && k in a.verifying;
      assert Trusts(slot, now, k);
    } else if SignedBySuccessor(slot, a) && now < slot.retireAt.value {
      assert Trusts(slot, now, slot.successor.value);
    }
  }

  // ----- Rotation

  /** What the operator's tooling does at the deadline: the successor becomes current, current previous. */
  function Promoted(slot: KeySlot): KeySlot {
    KeySlot(slot.successor, slot.current, slot.rejectBefore, None, None)
  }

  /** Promotion before the deadline drops exactly the old previous key. */
  lemma PromotionDropsOnlyPrevious(slot: KeySlot, now: Instant, k: TrustedPubkey)
    requires slot.successor.Some? && slot.retireAt.Some? && now < slot.retireAt.value
    ensures Trusts(Promoted(slot), now, k) <==>
            Trusts(slot, now, k) && (slot.current == Some(k) || slot.successor == Some(k))
  {}

  // ----- The agent's own check

  datatype FreshnessCheck = Fresh | StaleCheck(signedAt: Instant, freshnessWindowSecs: u32, ageSecs: int)

  function CheckSignedAt(signedAt: Instant, freshnessWindowSecs: u32, now: Instant): FreshnessCheck {
    var ageSecs := NumSeconds(now - signedAt);
    if ageSecs > freshnessWindowSecs + CLOCK_SKEW_SLACK_SECS then StaleCheck(signedAt, freshnessWindowSecs, ageSecs)
    else Fresh
  }

  /** Whole seconds are truncated, so the agent's check grants just under one second more. */
  lemma FreshIff(signedAt: Instant, windowSecs: u32, now: Instant)
    ensures CheckSignedAt(signedAt, windowSecs, now) == Fresh <==>
            now - signedAt < (windowSecs + 61) * NANOS_PER_SEC
    ensures CheckSignedAt(signedAt, windowSecs, now) != Fresh ==>
              CheckSignedAt(signedAt, windowSecs, now) == StaleCheck(signedAt, windowSecs, (now - signedAt) / NANOS_PER_SEC)
  {}

  /** Whatever the signature path accepts at an instant, the agent's re-check also finds fresh then. */
  lemma AcceptedIsFresh(
    a: Artifact, keys: seq<TrustedPubkey>, now: Instant, windowSecs: u32, rejectBefore: Option<Instant>)
    requires Verdict(a, keys, now, windowSecs * NANOS_PER_SEC, rejectBefore).Success?
    ensures CheckSignedAt(Verdict(a, keys, now, windowSecs * NANOS_PER_SEC, rejectBefore).value, windowSecs, now) == Fresh
  {
    AcceptedIff(a, keys, now, windowSecs * NANOS_PER_SEC, rejectBefore);
    FreshIff(a.payload.value.signedAt.value, windowSecs, now);
  }
}
