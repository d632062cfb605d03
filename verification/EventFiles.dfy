/** Queue entries and the file names they are stored under. */
module EventFiles {
  import opened Wrappers
  import opened Text
  import HM = HostMachine

  datatype QueuedEvent = QueuedEvent(
    seqNo: u64, hostname: string, rolloutId: string, eventKind: string,
    createdAt: Instant, payload: HM.OutboundAgentEvent)

  predicate SafeChar(c: char) {
    'a' <= c <= 'z' || 'A' <= c <= 'Z' || '0' <= c <= '9' || c == '-' || c == '@' || c == '.'
  }

  function Sanitize(s: string): (t: string)
    ensures |t| == |s|
    ensures forall i :: 0 <= i < |s| ==> t[i] == if SafeChar(s[i]) then s[i] else '_'
  {
    if s == "" then "" else [if SafeChar(s[0]) then s[0] else '_'] + Sanitize(s[1..])
  }

  /** Sanitising changes nothing exactly when every character is safe or already an underscore. */
  lemma SanitizeFixedIff(s: string)
    ensures Sanitize(s) == s <==> forall c :: c in s ==> SafeChar(c) || c == '_'
  {
    var t := Sanitize(s);
    if Sanitize(s) == s {
      forall c | c in s ensures SafeChar(c) || c == '_' {
        var i :| 0 <= i < |s| && s[i] == c;
        assert t[i] == s[i];
      }
    } else {
      var i :| 0 <= i < |s| && t[i] != s[i];
      assert s[i] in s;
    }
  }

  lemma WordIsClean(s: string)
    requires IsWord(s)
    ensures Sanitize(s) == s && '-' !in s
  {
    SanitizeFixedIff(s);
  }

  /** The discriminator written into the file name. */
  function OutboundEventKind(payload: HM.OutboundAgentEvent): string {
    match payload
    case DispatchAck(_, _, _) => "DispatchAck"
    case ActivationStarted(_, _, _) => "ActivationStarted"
    case ActivationCompleted(_, _, _, _) => "ActivationCompleted"
    case ActivationDeferred(_, _, _) => "ActivationDeferred"
    case ActivationFailed(_, _, _, _) => "ActivationFailed"
    case ProbeTopologyDeclared(_, _, _) => "ProbeTopologyDeclared"
    case ProbeObservedFirst(_, _, _, _) => "ProbeObservedFirst"
    case ProbeResult(_, _, _, _, _, _, _) => "ProbeResult"
    case ProbeFailureFirst(_, _, _, _) => "ProbeFailureFirst"
    case FailedReport(_, _, _, _, _) => "Failed"
    case RollbackComplete(_, _, _, _) => "RollbackComplete"
    case ConvergedReport(_, _, _) => "Converged"
  }

  predicate IsWord(s: string) {
    forall i :: 0 <= i < |s| ==> SafeChar(s[i]) && s[i] != '-'
  }

  predicate IsProbeReport(payload: HM.OutboundAgentEvent) {
    payload.ProbeTopologyDeclared? || payload.ProbeObservedFirst? || payload.ProbeResult?
    || payload.ProbeFailureFirst?
  }

  lemma ProbeKindIsWord(payload: HM.OutboundAgentEvent)
    requires IsProbeReport(payload)
    ensures IsWord(OutboundEventKind(payload))
  {
  }

  predicate IsVerdictReport(payload: HM.OutboundAgentEvent) {
    payload.FailedReport? || payload.RollbackComplete? || payload.ConvergedReport?
  }

  lemma VerdictKindIsWord(payload: HM.OutboundAgentEvent)
    requires IsVerdictReport(payload)
    ensures IsWord(OutboundEventKind(payload))
  {
  }

  lemma ActivationKindIsWord(payload: HM.OutboundAgentEvent)
    requires !IsProbeReport(payload) && !IsVerdictReport(payload)
    ensures IsWord(OutboundEventKind(payload))
  {
  }

  /** The twelve kinds survive sanitising and carry no dash, so they can be split off a name again. */
  lemma KindIsClean(payload: HM.OutboundAgentEvent)
    ensures Sanitize(OutboundEventKind(payload)) == OutboundEventKind(payload)
    ensures '-' !in OutboundEventKind(payload)
  {
    if IsProbeReport(payload) { ProbeKindIsWord(payload); }
    else if IsVerdictReport(payload) { VerdictKindIsWord(payload); }
    else { ActivationKindIsWord(payload); }
    WordIsClean(OutboundEventKind(payload));
  }

  /** Different kinds of report are written under different discriminators. */
  lemma KindsDiffer(p: HM.OutboundAgentEvent)
    ensures p.DispatchAck? <==> OutboundEventKind(p) == "DispatchAck"
    ensures p.ActivationStarted? <==> OutboundEventKind(p) == "ActivationStarted"
    ensures p.ActivationCompleted? <==> OutboundEventKind(p) == "ActivationCompleted"
    ensures p.ActivationDeferred? <==> OutboundEventKind(p) == "ActivationDeferred"
    ensures p.ActivationFailed? <==> OutboundEventKind(p) == "ActivationFailed"
    ensures p.ProbeTopologyDeclared? <==> OutboundEventKind(p) == "ProbeTopologyDeclared"
    ensures p.ProbeObservedFirst? <==> OutboundEventKind(p) == "ProbeObservedFirst"
    ensures p.ProbeResult? <==> OutboundEventKind(p) == "ProbeResult"
    ensures p.ProbeFailureFirst? <==> OutboundEventKind(p) == "ProbeFailureFirst"
    ensures p.FailedReport? <==> OutboundEventKind(p) == "Failed"
    ensures p.RollbackComplete? <==> OutboundEventKind(p) == "RollbackComplete"
    ensures p.ConvergedReport? <==> OutboundEventKind(p) == "Converged"
  {}

  function RolloutAndKind(e: QueuedEvent): string {
    Sanitize(e.rolloutId) + "-" + Sanitize(e.eventKind)
  }

  function Tail(e: QueuedEvent): string {
    ("-" + Sanitize(e.hostname) + "-") + RolloutAndKind(e) + ".json"
  }

  function FileName(e: QueuedEvent): string {
    PadLeft(Decimal(e.seqNo), 20) + Tail(e)
  }

  function TmpName(e: QueuedEvent): string {
    FileName(e) + ".tmp"
  }

  /** The filter of the directory scan. */
  predicate IsPendingName(name: string) {
    EndsWith(name, ".json") && !EndsWith(name, ".json.tmp")
  }

  /** Final names pass the scan filter, temporary names do not, and the two kinds never collide. */
  lemma NamesAreFiltered(e: QueuedEvent, f: QueuedEvent)
    ensures IsPendingName(FileName(e))
    ensures !IsPendingName(TmpName(e))
    ensures FileName(f) != TmpName(e)
  {
    assert EndsWith(Tail(e), ".json") && EndsWith(Tail(f), ".json");
    assert forall g :: EndsWith(FileName(g), ".json") && FileName(g)[|FileName(g)| - 1] == 'n' by {
      forall g ensures EndsWith(FileName(g), ".json") && FileName(g)[|FileName(g)| - 1] == 'n' {
        assert FileName(g)[|FileName(g)| - 5..] == ".json";
        SuffixDecidesLast(FileName(g), ".json");
      }
    }
    assert TmpName(e)[|TmpName(e)| - 1] == 'p';
    if EndsWith(FileName(e), ".json.tmp") { SuffixDecidesLast(FileName(e), ".json.tmp"); }
    if EndsWith(TmpName(e), ".json") { SuffixDecidesLast(TmpName(e), ".json"); }
  }

  lemma NameSplit(e: QueuedEvent)
    ensures FileName(e) == Digits(e.seqNo, 20) + Tail(e)
  {
    U64FitsTwentyDigits(e.seqNo);
    PaddedDecimal(e.seqNo, 20);
  }

  lemma PartsJoin(number: string, dash: string, host: string, rollout: string, kind: string, extension: string)
    ensures number + ((dash + host + dash) + (rollout + dash + kind) + extension)
            == number + dash + host + dash + rollout + dash + kind + extension
  {}

  /** Number, host, rollout and kind, with dashes between. */
  lemma NameParts(e: QueuedEvent)
    ensures FileName(e) == Digits(e.seqNo, 20) + "-" + Sanitize(e.hostname) + "-" + Sanitize(e.rolloutId) + "-"
                           + Sanitize(e.eventKind) + ".json"
  {
    NameSplit(e);
    PartsJoin(Digits(e.seqNo, 20), "-", Sanitize(e.hostname), Sanitize(e.rolloutId), Sanitize(e.eventKind), ".json");
  }

  /** Every stored name stays inside the queue directory. */
  lemma NameHasNoSeparator(e: QueuedEvent)
    ensures '/' !in FileName(e)
  {
    NameSplit(e);
    assert '/' !in Digits(e.seqNo, 20);
    assert '/' !in RolloutAndKind(e);
    assert '/' !in Tail(e);
  }

  /** Directory order is sequence order, for every 64-bit sequence number and whatever follows it. */
  lemma NameOrderIsSeqOrder(a: QueuedEvent, b: QueuedEvent)
    requires a.seqNo < b.seqNo
    ensures Less(FileName(a), FileName(b))
  {
    NameSplit(a);
    NameSplit(b);
    U64FitsTwentyDigits(b.seqNo);
    DigitsOrder(a.seqNo, b.seqNo, 20);
    LessExtends(Digits(a.seqNo, 20), Digits(b.seqNo, 20), Tail(a), Tail(b));
  }

  /**
   For one host, the name determines the sequence number, the sanitised rollout and the kind, and
   nothing more: rollout ids may contain dashes, and two ids collide exactly when sanitising merges them.
   */
  lemma NameCollisionIff(a: QueuedEvent, b: QueuedEvent)
    requires a.hostname == b.hostname
    requires '-' !in Sanitize(a.eventKind) && '-' !in Sanitize(b.eventKind)
    ensures FileName(a) == FileName(b) <==>
              && a.seqNo == b.seqNo
              && Sanitize(a.rolloutId) == Sanitize(b.rolloutId)
              && Sanitize(a.eventKind) == Sanitize(b.eventKind)
  {
    if FileName(a) == FileName(b) {
      if a.seqNo < b.seqNo {
        NameOrderIsSeqOrder(a, b);
        LessIrreflexive(FileName(a));
      } else if b.seqNo < a.seqNo {
        NameOrderIsSeqOrder(b, a);
        LessIrreflexive(FileName(a));
      }
      MiddleIsUnique(PadLeft(Decimal(a.seqNo), 20), Tail(a), Tail(b), "");
      MiddleIsUnique("-" + Sanitize(a.hostname) + "-", RolloutAndKind(a), RolloutAndKind(b), ".json");
      LastDashIsUnique(Sanitize(a.rolloutId), Sanitize(a.eventKind), Sanitize(b.rolloutId), Sanitize(b.eventKind));
    }
  }

  /** The queue writes each event under the kind of its own payload. */
  predicate WellFormed(e: QueuedEvent) {
    e.eventKind == OutboundEventKind(e.payload)
  }

  /** Events of one host whose rollout ids sanitising leaves alone are told apart by their names. */
  lemma NameDeterminesEvent(a: QueuedEvent, b: QueuedEvent)
    requires WellFormed(a) && WellFormed(b) && a.hostname == b.hostname
    requires Sanitize(a.rolloutId) == a.rolloutId && Sanitize(b.rolloutId) == b.rolloutId
    ensures FileName(a) == FileName(b) <==>
              a.seqNo == b.seqNo && a.rolloutId == b.rolloutId && a.eventKind == b.eventKind
  {
    KindIsClean(a.payload);
    KindIsClean(b.payload);
    NameCollisionIff(a, b);
  }
}
