/** The per-PVC status record of a Backup (api/v1alpha1 VolumeStatus), the reasons the state machine
    records in it and how they read as text, and the test the queue discipline runs on it. */
module VolumeModel {
  import opened Prelude
  import Text

  /** Unset is the empty phase; every dispatch treats it as Pending. */
  datatype VolumePhase = Unset | Pending | Snapshotting | Uploading | Completed | Skipped | Failed {
    predicate IsTerminal() { Completed? || Skipped? || Failed? }

    predicate IsWaiting() { Unset? || Pending? }

    /** The two phases that hold work in flight and that the outer bound covers. */
    predicate InFlight() { Snapshotting? || Uploading? }
  }

  datatype Deadline = PendingClock | AdvanceClock | SnapshotUntouched | SnapshotUnready | MoverNotStarted

  /** What a volume's reason says; the stored field is its text (see Render). */
  datatype Reason =
    | Blank
    | Unresolvable(cause: string)
    | RetryingAfter(cause: string)
    | StorageUnsupported
    | PrecheckRefused
    | SourceMissing
    | Overdue(deadline: Deadline, detail: string)
    | MoverSaid(text: string)
    | MoverCrashed
    | MoverJobFailed
    | Abandoned(was: string)

  /** Both clocks are absent until stamped. */
  datatype VolumeStatus = VolumeStatus(
    pvc: string,
    phase: VolumePhase,
    reason: Reason,
    firstAttemptAt: Option<int>,
    phaseEnteredAt: Option<int>,
    snapshotID: string,
    sizeBytes: int,
    addedBytes: int,
    node: string)

  function Enumerated(pvc: string): VolumeStatus {
    VolumeStatus(pvc, Pending, Blank, None, None, "", 0, 0, "")
  }

  // Durations in seconds.
  const SNAPSHOT_PROGRESS_DEADLINE := 15 * 60
  const SNAPSHOT_READY_DEADLINE := 2 * 60 * 60
  const MOVER_START_DEADLINE := 30 * 60
  const PENDING_RESOLVE_DEADLINE := 60 * 60
  const ADVANCE_RETRY_DEADLINE := 4 * 60 * 60

  /** A Pending volume whose resolution already failed; the recorded reason is the state. */
  predicate IsParked(v: VolumeStatus) {
    v.phase.IsWaiting() && v.reason.Unresolvable?
  }

  // ---- The text of a reason ----

  const UNRESOLVABLE := "ExposerUnresolvable"
  const RETRYING := "AdvanceRetrying"
  const MOVER_JOB_FAILED := "MoverJobFailed"

  const ABANDONED := "TerminatedAsAbandoned"

  const MESSAGE_CAP := 384
  const REASON_CAP := 200

  predicate HasPrefix(s: string, p: string) { |p| <= |s| && s[..|p|] == p }

  function ClampMessage(s: string): string {
    if |s| <= MESSAGE_CAP then s else s[..MESSAGE_CAP - 1] + "\U{2026}"
  }

  function ShortReason(msg: string): string {
    var m := Text.Trim(msg);
    if m == "" then MOVER_JOB_FAILED
    else if |m| > REASON_CAP then m[..REASON_CAP]
    else m
  }

  function DeadlineReason(reason: string, detail: string): string {
    if detail == "" then reason else ShortReason(reason + ": " + detail)
  }

  function Token(d: Deadline): string {
    match d
    case PendingClock => "PendingDeadlineExceeded"
    case AdvanceClock => "AdvanceDeadlineExceeded"
    case SnapshotUntouched => "SnapshotProgressDeadlineExceeded"
    case SnapshotUnready => "SnapshotReadyDeadlineExceeded"
    case MoverNotStarted => "MoverStartDeadlineExceeded"
  }

  function Render(r: Reason): string {
    match r
    case Blank => ""
    case Unresolvable(c) => ClampMessage(UNRESOLVABLE + ": " + c)
    case RetryingAfter(c) => ClampMessage(RETRYING + ": " + c)
    case StorageUnsupported => "CSISnapshotUnsupported"
    case PrecheckRefused => "SnapshotPrecheckFailed"
    case SourceMissing => "SourcePVCMissing"
    case Overdue(d, detail) => DeadlineReason(Token(d), detail)
    case MoverSaid(t) => ShortReason(t)
    case MoverCrashed => "MoverCrashed"
    case MoverJobFailed => MOVER_JOB_FAILED
    case Abandoned(was) => DeadlineReason(ABANDONED, was)
  }

  /** Short texts are kept as they are; long ones are cut to the cap, a message with an ellipsis. */
  lemma TextsAreCapped(s: string)
    ensures ClampMessage(s) == (if |s| <= 384 then s else s[..383] + ['\U{2026}'])
    ensures Text.Trim(s) == "" ==> ShortReason(s) == "MoverJobFailed"
    ensures forall reason, detail :: detail != "" && s == reason + ": " + detail ==> DeadlineReason(reason, detail) == ShortReason(s)
    ensures Text.Trim(s) != "" ==> ShortReason(s) <= Text.Trim(s) && |ShortReason(s)| == (if |Text.Trim(s)| <= 200 then |Text.Trim(s)| else 200)
  {
  }

  /** Clamping never cuts into the token a reader matches on. */
  lemma ClampKeepsToken(token: string, cause: string)
    requires |token| + 2 < MESSAGE_CAP
    ensures HasPrefix(ClampMessage(token + ": " + cause), token + ":")
  {
    var s := token + ": " + cause;
    assert s[..|token| + 1] == token + ":";
    if |s| > MESSAGE_CAP {
      assert ClampMessage(s)[..|token| + 1] == s[..|token| + 1];
    }
  }

  /** Every deadline verdict names itself: its token survives trimming and truncation. */
  lemma DeadlineReasonNamesItself(reason: string, detail: string)
    requires 0 < |reason| < REASON_CAP
    requires !Text.IsSpace(reason[0]) && !Text.IsSpace(reason[|reason| - 1])
    ensures HasPrefix(DeadlineReason(reason, detail), reason)
  {
    if detail != "" {
      var msg := reason + ": " + detail;
      var l := Text.TrimLeft(msg);
      assert msg[0] == reason[0];
      assert l == msg;
      var m := Text.TrimRight(l);
      Text.TrimRightKeeps(msg, |reason| - 1);
      assert m[..|reason|] == msg[..|reason|] == reason;
      if |m| > REASON_CAP {
        assert m[..REASON_CAP][..|reason|] == m[..|reason|];
      }
    }
  }

  lemma TokenShape(d: Deadline)
    ensures 0 < |Token(d)| < REASON_CAP && Token(d)[0] != 'E'
    ensures !Text.IsSpace(Token(d)[0]) && !Text.IsSpace(Token(d)[|Token(d)| - 1])
  {
  }

  lemma OverdueToken(d: Deadline, detail: string)
    ensures var t := DeadlineReason(Token(d), detail); t != "" && t[0] != 'E'
  {
    TokenShape(d);
    DeadlineReasonNamesItself(Token(d), detail);
    FirstChar(DeadlineReason(Token(d), detail), Token(d));
  }

  lemma RetryingToken(cause: string)
    ensures var t := ClampMessage(RETRYING + ": " + cause); t != "" && t[0] != 'E'
  {
    ClampKeepsToken(RETRYING, cause);
    FirstChar(ClampMessage(RETRYING + ": " + cause), RETRYING + ":");
  }

  lemma AbandonedToken(was: string)
    ensures var t := DeadlineReason(ABANDONED, was); HasPrefix(t, ABANDONED) && t != "" && t[0] != 'E'
  {
    DeadlineReasonNamesItself(ABANDONED, was);
    FirstChar(DeadlineReason(ABANDONED, was), ABANDONED);
  }

  lemma OtherTokens(r: Reason)
    requires !r.Blank? && !r.Unresolvable? && !r.MoverSaid?
    ensures Render(r) != "" && Render(r)[0] != 'E'
  {
    if r.RetryingAfter? { RetryingToken(r.cause); }
    if r.Overdue? { OverdueToken(r.deadline, r.detail); }
    if r.Abandoned? { AbandonedToken(r.was); }
  }

  lemma FirstChar(s: string, p: string)
    requires HasPrefix(s, p) && p != ""
    ensures s != "" && s[0] == p[0]
  {
    assert s[..|p|][0] == p[0];
  }

  /** The two tests the controller makes on the stored text are the tests on what it says: the field
      is empty only for Blank, and the parking prefix is there only for Unresolvable (a mover's own
      words aside, which only a finished volume carries). */
  lemma TextTestsAreExact(r: Reason)
    ensures Render(r) == "" <==> r.Blank?
    ensures !r.MoverSaid? ==> (HasPrefix(Render(r), UNRESOLVABLE + ":") <==> r.Unresolvable?)
  {
    if r.Unresolvable? {
      ClampKeepsToken(UNRESOLVABLE, r.cause);
    } else if !r.Blank? && !r.MoverSaid? {
      OtherTokens(r);
      if HasPrefix(Render(r), UNRESOLVABLE + ":") {
        FirstChar(Render(r), UNRESOLVABLE + ":");
      }
    }
  }
}
