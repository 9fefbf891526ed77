/** One agent turn: two timers, a stream, a diagnostic and a cleanup race for one abort claim. */
module AgentRunner {
  import opened Options

  datatype TimeoutKind = TotalDeadline | StageTimeout | EventSilence
  datatype AbortReason = Timeout(kind: TimeoutKind) | PermissionRequest

  datatype Job = Idle | Running | Done

  /** Which part of the turn is waiting for what. */
  datatype Phase =
    | Streaming                  // inside the event loop
    | Closing(threw: bool)       // the loop was left early; the iterator's return() is pending
    | AwaitingDiagnostic         // in the finally block
    | AwaitingCleanup
    | Returned

  datatype ErrorSource = BudgetExceeded | Silence | Permission | Adapter | Thrown

  datatype TurnState = TurnState(
    phase: Phase, wallArmed: bool, silenceArmed: bool,
    abortReason: Option<AbortReason>, timeoutKind: Option<TimeoutKind>,
    diagnostic: Job, cleanup: Job, aborted: bool,
    doneStatus: Option<string>, doneResult: Option<string>, text: string, error: Option<ErrorSource>,
    claims: nat, cleanupsStarted: nat)

  /** What the adapter sends; `Text` is a whole text or a delta. */
  datatype StreamEvent =
    | Init | Text(content: string) | Request | Failure
    | Finished(status: Option<string>, result: Option<string>) | Other

  datatype Event =
    | WallTimer | SilenceTimer
    | Delivered(event: StreamEvent, sinkThrows: bool)
    | StreamEnded(threw: bool)
    | IteratorClosed
    | DiagnosticDone | CleanupDone
    | Resumed

  /** The budget a wall-clock limit can come from. */
  type WallClockKind = kind: TimeoutKind | kind != EventSilence witness TotalDeadline

  /** The part of the request and configuration that the race depends on. */
  datatype Setup = Setup(wallClockKind: WallClockKind, answersRequests: bool)

  // -------------------------------------------------- the handlers, as functions

  const START := TurnState(Streaming, true, true, None, None, Idle, Idle, false, None, None, "", None, 0, 0)

  function Claim(s: TurnState, reason: AbortReason, kind: Option<TimeoutKind>): (TurnState, bool) {
    if s.abortReason.Some? then (s, false)
    else (s.(abortReason := Some(reason), timeoutKind := kind, claims := s.claims + 1), true)
  }

  function BeginCleanup(s: TurnState): TurnState {
    if s.cleanup != Idle || s.abortReason == None then s.(aborted := true)
    else s.(aborted := true, cleanup := Running, cleanupsStarted := s.cleanupsStarted + 1)
  }

  /** Abort for a reason without a timeout; a second reason only raises the signal again. */
  function StartCleanup(s: TurnState, reason: AbortReason): TurnState {
    var (t, claimed) := Claim(s, reason, None);
    if claimed then BeginCleanup(t) else t.(aborted := true)
  }

  function OnWallTimer(s: TurnState, setup: Setup): TurnState {
    var (t, claimed) := Claim(s.(wallArmed := false), Timeout(setup.wallClockKind), Some(setup.wallClockKind));
    if claimed then BeginCleanup(t.(error := Some(BudgetExceeded))) else t
  }

  function OnSilenceTimer(s: TurnState): TurnState {
    var (t, claimed) := Claim(s.(silenceArmed := false), Timeout(EventSilence), Some(EventSilence));
    if claimed then t.(diagnostic := Running) else t
  }

  function OnDiagnosticDone(s: TurnState): TurnState {
    BeginCleanup(s.(diagnostic := Done, error := Some(Silence)))
  }

  /** An adapter event re-arms the silence timer; then the sink may throw, or the event is handled. */
  function OnDelivered(s: TurnState, setup: Setup, event: StreamEvent, sinkThrows: bool): TurnState {
    var armed := s.(silenceArmed := true);
    if sinkThrows then armed.(phase := Closing(true))
    else
      match event
      case Request =>
        if setup.answersRequests then armed
        else
          StartCleanup(armed.(error := Some(Permission), doneStatus := Some("error")), PermissionRequest)
            .(phase := Closing(false))
      case Failure => if armed.abortReason == None then armed.(error := Some(Adapter)) else armed
      case Finished(status, result) =>
        armed.(doneStatus := Some(if status.Some? then status.value else "error"), doneResult := result)
      case Text(content) => armed.(text := armed.text + content)
      case _ => armed
  }

  function OnLoopLeft(s: TurnState, threw: bool): TurnState {
    var t := if threw && s.error == None then s.(error := Some(Thrown)) else s;
    t.(phase := AwaitingDiagnostic, wallArmed := false, silenceArmed := false)
  }

  function OnResumed(s: TurnState): TurnState {
    if s.phase == AwaitingDiagnostic then s.(phase := AwaitingCleanup) else s.(phase := Returned)
  }

  /** Which callbacks the runtime can make next. */
  predicate Enabled(s: TurnState, e: Event) {
    match e
    case WallTimer => s.wallArmed
    case SilenceTimer => s.silenceArmed
    case Delivered(_, _) => s.phase == Streaming
    case StreamEnded(_) => s.phase == Streaming
    case IteratorClosed => s.phase.Closing?
    case DiagnosticDone => s.diagnostic == Running
    case CleanupDone => s.cleanup == Running
    case Resumed =>
      || (s.phase == AwaitingDiagnostic && s.diagnostic != Running)
      || (s.phase == AwaitingCleanup && s.cleanup != Running)
  }

  function Handle(s: TurnState, setup: Setup, e: Event): TurnState {
    match e
    case WallTimer => OnWallTimer(s, setup)
    case SilenceTimer => OnSilenceTimer(s)
    case Delivered(event, sinkThrows) => OnDelivered(s, setup, event, sinkThrows)
    case StreamEnded(threw) => OnLoopLeft(s, threw)
    case IteratorClosed => OnLoopLeft(s, s.phase.Closing? && s.phase.threw)
    case DiagnosticDone => OnDiagnosticDone(s)
    case CleanupDone => s.(cleanup := Done)
    case Resumed => OnResumed(s)
  }

  datatype TurnResult = TurnResult(
    ok: bool, status: string, timedOut: bool, timeoutKind: Option<TimeoutKind>, finalText: string,
    error: Option<ErrorSource>)

  function ResultOf(s: TurnState): TurnResult {
    var status := if s.doneStatus.Some? then s.doneStatus.value else "error";
    TurnResult(status == "success" && s.abortReason == None, status, s.timeoutKind.Some?, s.timeoutKind,
               if s.doneResult.Some? then s.doneResult.value else s.text, s.error)
  }

  // ------------------------------------------------------------- every schedule

  /** The state after a schedule of callbacks, None when one of them could not happen. */
  function Play(s: TurnState, setup: Setup, events: seq<Event>): Option<TurnState>
    decreases |events|
  {
    if events == [] then Some(s)
    else if !Enabled(s, events[0]) then None
    else Play(Handle(s, setup, events[0]), setup, events[1..])
  }

  predicate Safe(s: TurnState) {
    // one claim, and the timeout kind is the claimed one's
    && s.claims == (if s.abortReason.Some? then 1 else 0)
    && s.timeoutKind == (match s.abortReason case Some(Timeout(kind)) => Some(kind) case _ => None)
    // one cleanup, for a claim only; the signal is raised for a claim only
    && s.cleanupsStarted == (if s.cleanup == Idle then 0 else 1)
    && (s.cleanup != Idle ==> s.abortReason.Some? && s.aborted)
    && (s.aborted ==> s.abortReason.Some?)
    // a claim without cleanup is a silence whose diagnostic is still running
    && (s.diagnostic != Idle ==> s.abortReason == Some(Timeout(EventSilence)))
    && (s.abortReason.Some? && s.cleanup == Idle ==> s.diagnostic == Running)
    && (s.cleanup != Idle ==> s.diagnostic != Running)
    // the finally block has cleared the timers and passes each wait only when it is over
    && (s.phase in {AwaitingDiagnostic, AwaitingCleanup, Returned} ==> !s.wallArmed && !s.silenceArmed)
    && (s.phase in {AwaitingCleanup, Returned} ==> s.diagnostic != Running)
    && (s.phase == Returned ==> s.cleanup != Running)
  }

  lemma DeliveriesKeepSafe(s: TurnState, setup: Setup, event: StreamEvent, sinkThrows: bool)
    requires Safe(s) && s.phase == Streaming
    ensures Safe(OnDelivered(s, setup, event, sinkThrows))
    ensures s.abortReason.Some? ==> OnDelivered(s, setup, event, sinkThrows).abortReason == s.abortReason
  {
  }

  lemma TimersKeepSafe(s: TurnState, setup: Setup)
    requires Safe(s)
    ensures s.wallArmed ==> Safe(OnWallTimer(s, setup))
    ensures s.silenceArmed ==> Safe(OnSilenceTimer(s))
    ensures s.diagnostic == Running ==> Safe(OnDiagnosticDone(s))
    ensures s.abortReason.Some? ==>
              && OnWallTimer(s, setup).abortReason == s.abortReason
              && OnSilenceTimer(s).abortReason == s.abortReason
  {
  }

  lemma HandlersKeepSafe(s: TurnState, setup: Setup, e: Event)
    requires Safe(s) && Enabled(s, e)
    ensures Safe(Handle(s, setup, e))
    ensures s.abortReason.Some? ==> Handle(s, setup, e).abortReason == s.abortReason
  {
    hide OnDelivered, OnWallTimer, OnSilenceTimer;
    match e {
      case Delivered(event, sinkThrows) => DeliveriesKeepSafe(s, setup, event, sinkThrows);
      case WallTimer => TimersKeepSafe(s, setup);
      case SilenceTimer => TimersKeepSafe(s, setup);
      case DiagnosticDone => TimersKeepSafe(s, setup);
      case _ =>
    }
  }

  lemma {:induction false} SchedulesKeepSafe(s: TurnState, setup: Setup, events: seq<Event>)
    requires Safe(s) && Play(s, setup, events).Some?
    ensures Safe(Play(s, setup, events).value)
    ensures s.abortReason.Some? ==> Play(s, setup, events).value.abortReason == s.abortReason
    decreases |events|
  {
    hide Safe, Handle, Enabled;
    if events != [] {
      HandlersKeepSafe(s, setup, events[0]);
      SchedulesKeepSafe(Handle(s, setup, events[0]), setup, events[1..]);
    }
  }

  lemma {:induction false} PlayConcat(s: TurnState, setup: Setup, a: seq<Event>, b: seq<Event>)
    ensures Play(s, setup, a + b) ==
            if Play(s, setup, a) == None then None else Play(Play(s, setup, a).value, setup, b)
    decreases |a|
  {
    hide Handle, Enabled;
    if a == [] {
      assert a + b == b;
    } else {
      assert (a + b)[1..] == a[1..] + b;
      PlayConcat(Handle(s, setup, a[0]), setup, a[1..], b);
    }
  }

  /** In every schedule the abort reason is claimed at most once and never changes afterwards. */
  lemma TheFirstClaimStands(setup: Setup, before: seq<Event>, after: seq<Event>)
    requires Play(START, setup, before + after).Some?
    ensures Play(START, setup, before).Some?
    ensures var early, late := Play(START, setup, before).value, Play(START, setup, before + after).value;
            && late.claims <= 1
            && (early.abortReason.Some? ==> late.abortReason == early.abortReason && late.timeoutKind == early.timeoutKind)
  {
    PlayConcat(START, setup, before, after);
    SchedulesKeepSafe(START, setup, before);
    SchedulesKeepSafe(Play(START, setup, before).value, setup, after);
  }

  /** What holds when runTurn returns, whatever order its callbacks came in. */
  lemma ReturnsAreClean(setup: Setup, events: seq<Event>)
    requires Play(START, setup, events).Some? && Play(START, setup, events).value.phase == Returned
    ensures var s := Play(START, setup, events).value;
            && (s.cleanupsStarted == 1 <==> s.abortReason.Some?)
            && (s.abortReason.Some? ==> s.cleanup == Done)
            && (ResultOf(s).timeoutKind.Some? <==> s.abortReason.Some? && s.abortReason.value.Timeout?)
            && (ResultOf(s).ok ==> !s.aborted && s.abortReason == None && !ResultOf(s).timedOut)
            && (forall e :: !Enabled(s, e))
  {
    SchedulesKeepSafe(START, setup, events);
  }

  // ------------------------------------------------ what a schedule makes a turn report

  /** A permission request that nobody can answer. */
  predicate IsUnanswered(setup: Setup, e: Event) {
    e == Delivered(Request, false) && !setup.answersRequests
  }

  /** The status of the last done event, an error without one or after an unanswered request. */
  function LastStatus(setup: Setup, events: seq<Event>): string {
    if events == [] then "error"
    else
      match events[|events| - 1]
      case Delivered(Finished(status, _), false) => if status.Some? then status.value else "error"
      case e => if IsUnanswered(setup, e) then "error" else LastStatus(setup, events[..|events| - 1])
  }

  /** The result of the last done event; None without one. */
  function LastResult(events: seq<Event>): Option<string> {
    if events == [] then None
    else
      match events[|events| - 1]
      case Delivered(Finished(_, result), false) => result
      case _ => LastResult(events[..|events| - 1])
  }

  /** All text of the stream. */
  function Said(events: seq<Event>): string {
    if events == [] then ""
    else
      Said(events[..|events| - 1])
      + match events[|events| - 1]
        case Delivered(Text(content), false) => content
        case _ => ""
  }

  function FinalText(events: seq<Event>): string {
    if LastResult(events).Some? then LastResult(events).value else Said(events)
  }

  /** What an event would abort the turn for. */
  function ClaimOf(setup: Setup, e: Event): Option<AbortReason> {
    if e == WallTimer then Some(Timeout(setup.wallClockKind))
    else if e == SilenceTimer then Some(Timeout(EventSilence))
    else if IsUnanswered(setup, e) then Some(PermissionRequest)
    else None
  }

  /** The first event that claims the abort gets it. */
  function FirstClaim(setup: Setup, events: seq<Event>): Option<AbortReason> {
    if events == [] then None
    else
      var earlier := FirstClaim(setup, events[..|events| - 1]);
      if earlier.Some? then earlier else ClaimOf(setup, events[|events| - 1])
  }

  function TimeoutOf(reason: Option<AbortReason>): Option<TimeoutKind> {
    match reason
    case Some(Timeout(kind)) => Some(kind)
    case _ => None
  }

  /** A timer, an unanswered request, an adapter error or an exception. */
  predicate IsTrouble(setup: Setup, e: Event) {
    ClaimOf(setup, e).Some? || e == Delivered(Failure, false) || (e.Delivered? && e.sinkThrows) || e == StreamEnded(true)
  }

  predicate GoesWrong(setup: Setup, events: seq<Event>) {
    exists e :: e in events && IsTrouble(setup, e)
  }

  /** The message that a claimed abort leaves; an unanswered request overrides a timeout's. */
  predicate ErrorFits(reason: Option<AbortReason>, error: Option<ErrorSource>) {
    match reason
    case None => error in {None, Some(Adapter), Some(Thrown)}
    case Some(PermissionRequest) => error == Some(Permission)
    case Some(Timeout(EventSilence)) => error in {None, Some(Adapter), Some(Thrown), Some(Silence), Some(Permission)}
    case Some(Timeout(_)) => error in {Some(BudgetExceeded), Some(Permission)}
  }

  /** The stream goes on until one of these. */
  predicate EndsStream(setup: Setup, e: Event) {
    e.StreamEnded? || (e.Delivered? && e.sinkThrows) || IsUnanswered(setup, e)
  }

  predicate HasEnded(setup: Setup, events: seq<Event>) {
    exists e :: e in events && EndsStream(setup, e)
  }

  /** The silence timer fired and no event has come since. */
  predicate IsSilent(events: seq<Event>) {
    events != [] &&
    match events[|events| - 1]
    case SilenceTimer => true
    case Delivered(_, _) => false
    case _ => IsSilent(events[..|events| - 1])
  }

  /** What the shared variables hold, told by the events alone: what the agent said, */
  predicate TellsWords(setup: Setup, events: seq<Event>, s: TurnState) {
    && (if s.doneStatus.Some? then s.doneStatus.value else "error") == LastStatus(setup, events)
    && s.doneResult == LastResult(events) && s.text == Said(events)
  }

  /** who claimed the abort and whether something went wrong, */
  predicate TellsTrouble(setup: Setup, events: seq<Event>, s: TurnState) {
    && s.abortReason == FirstClaim(setup, events) && s.timeoutKind == TimeoutOf(s.abortReason)
    && ErrorFits(s.abortReason, s.error) && (s.abortReason.Some? ==> GoesWrong(setup, events))
    && (GoesWrong(setup, events) <==> s.error.Some? || s.diagnostic == Running || (s.phase.Closing? && s.phase.threw))
  }

  /** and whether the stream and the timers still run. */
  predicate TellsProgress(setup: Setup, events: seq<Event>, s: TurnState) {
    && (s.phase == Streaming <==> !HasEnded(setup, events))
    && (s.phase.Streaming? || s.phase.Closing? ==>
          && (s.wallArmed <==> WallTimer !in events)
          && (s.silenceArmed <==> !IsSilent(events)))
  }

  predicate Tells(setup: Setup, events: seq<Event>, s: TurnState) {
    TellsWords(setup, events, s) && TellsTrouble(setup, events, s) && TellsProgress(setup, events, s)
  }

  lemma OneMoreEvent(setup: Setup, events: seq<Event>, e: Event)
    ensures var all := events + [e];
            && LastStatus(setup, all) ==
               (match e
                case Delivered(Finished(status, _), false) => if status.Some? then status.value else "error"
                case _ => if IsUnanswered(setup, e) then "error" else LastStatus(setup, events))
            && LastResult(all) ==
               (match e case Delivered(Finished(_, result), false) => result case _ => LastResult(events))
            && Said(all) == Said(events) + (match e case Delivered(Text(content), false) => content case _ => "")
            && FirstClaim(setup, all) ==
               (if FirstClaim(setup, events).Some? then FirstClaim(setup, events) else ClaimOf(setup, e))
            && (GoesWrong(setup, all) <==> GoesWrong(setup, events) || IsTrouble(setup, e))
            && (HasEnded(setup, all) <==> HasEnded(setup, events) || EndsStream(setup, e))
            && (IsSilent(all) <==> e == SilenceTimer || (!e.Delivered? && IsSilent(events)))
            && (WallTimer in all <==> e == WallTimer || WallTimer in events)
  {
    var all := events + [e];
    assert all[..|all| - 1] == events && all[|all| - 1] == e;
  }

  /** Starting a cleanup touches neither the words nor the phase, the timers or the diagnostic. */
  lemma CleanupKeeps(s: TurnState, reason: AbortReason)
    ensures var t, u := BeginCleanup(s), StartCleanup(s, reason);
            && t == s.(aborted := true, cleanup := t.cleanup, cleanupsStarted := t.cleanupsStarted)
            && u == s.(aborted := true, cleanup := u.cleanup, cleanupsStarted := u.cleanupsStarted, claims := u.claims,
                       abortReason := u.abortReason, timeoutKind := u.timeoutKind)
  {
  }

  lemma DeliveriesSetWords(s: TurnState, setup: Setup, event: StreamEvent, sinkThrows: bool)
    ensures var e, t := Delivered(event, sinkThrows), OnDelivered(s, setup, event, sinkThrows);
            && t.doneStatus ==
               (match e
                case Delivered(Finished(status, _), false) => Some(if status.Some? then status.value else "error")
                case _ => if IsUnanswered(setup, e) then Some("error") else s.doneStatus)
            && t.doneResult == (match e case Delivered(Finished(_, result), false) => result case _ => s.doneResult)
            && t.text == s.text + (match e case Delivered(Text(content), false) => content case _ => "")
  {
    hide StartCleanup;
    CleanupKeeps(s.(silenceArmed := true, error := Some(Permission), doneStatus := Some("error")), PermissionRequest);
    assert s.text + "" == s.text;
  }

  predicate SameWords(s: TurnState, t: TurnState) {
    t.doneStatus == s.doneStatus && t.doneResult == s.doneResult && t.text == s.text
  }

  lemma TimersKeepWords(s: TurnState, setup: Setup)
    ensures SameWords(s, OnWallTimer(s, setup)) && SameWords(s, OnSilenceTimer(s)) && SameWords(s, OnDiagnosticDone(s))
  {
    hide BeginCleanup;
    CleanupKeeps(s.(diagnostic := Done, error := Some(Silence)), PermissionRequest);
    var (t, claimed) := Claim(s.(wallArmed := false), Timeout(setup.wallClockKind), Some(setup.wallClockKind));
    CleanupKeeps(t.(error := Some(BudgetExceeded)), PermissionRequest);
  }

  lemma OthersKeepWords(s: TurnState, setup: Setup, e: Event)
    requires !e.Delivered?
    ensures SameWords(s, Handle(s, setup, e))
  {
    hide OnWallTimer, OnSilenceTimer, OnDiagnosticDone, OnDelivered;
    TimersKeepWords(s, setup);
  }

  lemma DeliveriesAreHandled(s: TurnState, setup: Setup, e: Event)
    requires e.Delivered?
    ensures Handle(s, setup, e) == OnDelivered(s, setup, e.event, e.sinkThrows)
  {
    hide OnDelivered;
  }

  lemma WordsAreTold(setup: Setup, events: seq<Event>, s: TurnState, e: Event)
    requires TellsWords(setup, events, s)
    ensures TellsWords(setup, events + [e], Handle(s, setup, e))
  {
    hide LastStatus, LastResult, Said, FirstClaim, GoesWrong, HasEnded, IsSilent, ClaimOf, IsTrouble, EndsStream, Handle, OnDelivered;
    OneMoreEvent(setup, events, e);
    if e.Delivered? {
      DeliveriesSetWords(s, setup, e.event, e.sinkThrows);
      assert Handle(s, setup, e) == OnDelivered(s, setup, e.event, e.sinkThrows) by {
        DeliveriesAreHandled(s, setup, e);
      }
    } else {
      OthersKeepWords(s, setup, e);
      assert s.text + "" == s.text && Said(events) + "" == Said(events);
    }
  }

  lemma TroubleIsTold(setup: Setup, events: seq<Event>, s: TurnState, e: Event)
    requires Safe(s) && Enabled(s, e) && TellsTrouble(setup, events, s)
    ensures TellsTrouble(setup, events + [e], Handle(s, setup, e))
  {
    hide LastStatus, LastResult, Said, FirstClaim, GoesWrong, HasEnded, IsSilent, EndsStream;
    OneMoreEvent(setup, events, e);
    match e {
      case Delivered(event, sinkThrows) => DeliveriesAreTold(setup, events, s, event, sinkThrows);
      case WallTimer =>
      case SilenceTimer =>
      case DiagnosticDone =>
      case _ =>
    }
  }

  lemma DeliveriesAreTold(setup: Setup, events: seq<Event>, s: TurnState, event: StreamEvent, sinkThrows: bool)
    requires s.phase == Streaming && TellsTrouble(setup, events, s)
    ensures TellsTrouble(setup, events + [Delivered(event, sinkThrows)], OnDelivered(s, setup, event, sinkThrows))
  {
    hide LastStatus, LastResult, Said, FirstClaim, GoesWrong, HasEnded, IsSilent, EndsStream;
    OneMoreEvent(setup, events, Delivered(event, sinkThrows));
  }

  lemma ProgressIsTold(setup: Setup, events: seq<Event>, s: TurnState, e: Event)
    requires Enabled(s, e) && TellsProgress(setup, events, s)
    ensures TellsProgress(setup, events + [e], Handle(s, setup, e))
  {
    hide LastStatus, LastResult, Said, FirstClaim, GoesWrong, HasEnded, IsSilent, ClaimOf, IsTrouble, BeginCleanup,
         StartCleanup;
    OneMoreEvent(setup, events, e);
    CleanupKeeps(s.(silenceArmed := true, error := Some(Permission), doneStatus := Some("error")), PermissionRequest);
    CleanupKeeps(s.(diagnostic := Done, error := Some(Silence)), PermissionRequest);
    var (t, claimed) := Claim(s.(wallArmed := false), Timeout(setup.wallClockKind), Some(setup.wallClockKind));
    CleanupKeeps(t.(error := Some(BudgetExceeded)), PermissionRequest);
  }

  /** Whatever the order of its callbacks, the turn's variables hold what the events tell. */
  lemma {:induction false} SchedulesTell(setup: Setup, events: seq<Event>)
    requires Play(START, setup, events).Some?
    ensures Tells(setup, events, Play(START, setup, events).value)
    decreases |events|
  {
    hide TellsWords, TellsTrouble, TellsProgress, Handle, Enabled, Safe;
    if events == [] {
      NothingTold(setup);
    } else {
      var n := |events| - 1;
      assert events == events[..n] + [events[n]];
      PlayConcat(START, setup, events[..n], [events[n]]);
      SchedulesTell(setup, events[..n]);
      StartIsSafe();
      SchedulesKeepSafe(START, setup, events[..n]);
      var s: TurnState := Play(START, setup, events[..n]).value;
      assert [events[n]][1..] == [] && Enabled(s, events[n]);
      assert Play(Handle(s, setup, events[n]), setup, []) == Some(Handle(s, setup, events[n]));
      WordsAreTold(setup, events[..n], s, events[n]);
      TroubleIsTold(setup, events[..n], s, events[n]);
      ProgressIsTold(setup, events[..n], s, events[n]);

    }
  }

  lemma NothingTold(setup: Setup)
    ensures Tells(setup, [], START)
  {
  }

  /** What a turn reports, told by its events alone. */
  lemma ResultsTellTheSchedule(setup: Setup, events: seq<Event>)
    requires Play(START, setup, events).Some? && Play(START, setup, events).value.phase == Returned
    ensures var r := ResultOf(Play(START, setup, events).value);
            && r.status == LastStatus(setup, events) && r.finalText == FinalText(events)
            && (r.ok <==> r.status == "success" && FirstClaim(setup, events) == None)
            && r.timeoutKind == TimeoutOf(FirstClaim(setup, events)) && (r.timedOut <==> r.timeoutKind.Some?)
            && (r.error.Some? <==> GoesWrong(setup, events)) && ErrorFits(FirstClaim(setup, events), r.error)
  {
    hide Play, LastStatus, LastResult, Said, FirstClaim, GoesWrong, HasEnded, IsSilent;
    SchedulesTell(setup, events);
    StartIsSafe();
    SchedulesKeepSafe(START, setup, events);
  }

  /** Bounds the callbacks still to come, stream events apart. */
  function Weight(s: TurnState): nat {
    (match s.phase
     case Streaming => 8
     case Closing(_) => 7
     case AwaitingDiagnostic => 2
     case AwaitingCleanup => 1
     case Returned => 0)
    + (if s.wallArmed then 4 else 0) + (if s.silenceArmed then 4 else 0)
    + (if s.diagnostic == Running then 2 else 0) + (if s.cleanup == Running then 1 else 0)
  }

  lemma DeliveriesCost(s: TurnState, setup: Setup, event: StreamEvent, sinkThrows: bool)
    requires s.phase == Streaming
    ensures Weight(OnDelivered(s, setup, event, sinkThrows)) < Weight(s) + 6
  {
  }

  lemma CleanupCostsOne(s: TurnState)
    ensures Weight(BeginCleanup(s)) <= Weight(s) + 1
  {
  }

  lemma TimersCost(s: TurnState, setup: Setup)
    ensures s.wallArmed ==> Weight(OnWallTimer(s, setup)) < Weight(s)
    ensures s.silenceArmed ==> Weight(OnSilenceTimer(s)) < Weight(s)
    ensures s.diagnostic == Running ==> Weight(OnDiagnosticDone(s)) < Weight(s)
  {
    hide BeginCleanup;
    var (t, claimed) := Claim(s.(wallArmed := false), Timeout(setup.wallClockKind), Some(setup.wallClockKind));
    CleanupCostsOne(t.(error := Some(BudgetExceeded)));
    CleanupCostsOne(s.(diagnostic := Done, error := Some(Silence)));
  }

  /** Every callback brings the return nearer, apart from a stream event, which sets it back by a bounded amount. */
  lemma CallbacksRunOut(s: TurnState, setup: Setup, e: Event)
    requires Enabled(s, e)
    ensures Weight(Handle(s, setup, e)) < Weight(s) + if e.Delivered? then 6 else 0
  {
    hide OnDelivered, OnWallTimer, OnSilenceTimer, OnDiagnosticDone;
    match e {
      case Delivered(event, sinkThrows) => DeliveriesCost(s, setup, event, sinkThrows);
      case WallTimer => TimersCost(s, setup);
      case SilenceTimer => TimersCost(s, setup);
      case DiagnosticDone => TimersCost(s, setup);
      case _ =>
    }
  }

  /** A turn is never stuck: until it returns something other than a stream event can happen. */
  lemma TurnsAreNeverStuck(s: TurnState)
    requires Safe(s) && s.phase != Returned
    ensures exists e :: Enabled(s, e) && !e.Delivered?
  {
    match s.phase {
      case Streaming => assert Enabled(s, StreamEnded(false));
      case Closing(_) => assert Enabled(s, IteratorClosed);
      case AwaitingDiagnostic => assert Enabled(s, DiagnosticDone) || Enabled(s, Resumed);
      case AwaitingCleanup => assert Enabled(s, CleanupDone) || Enabled(s, Resumed);
    }
  }

  /** In the finally block something is always enabled, and every callback brings the return nearer. */
  lemma FinallyFinishes(s: TurnState, setup: Setup, e: Event)
    requires Safe(s) && s.phase in {AwaitingDiagnostic, AwaitingCleanup}
    ensures Enabled(s, DiagnosticDone) || Enabled(s, CleanupDone) || Enabled(s, Resumed)
    ensures Enabled(s, e) ==> Weight(Handle(s, setup, e)) < Weight(s)
  {
    hide Handle, Weight;
    if Enabled(s, e) {
      CallbacksRunOut(s, setup, e);
    }
  }

  /** Nothing has to happen but the agent's last event for a turn to succeed with any text. */
  lemma TurnsCanSucceed(setup: Setup, text: string)
    ensures var quick := [Delivered(Finished(Some("success"), Some(text)), false), StreamEnded(false), Resumed, Resumed];
            && Play(START, setup, quick).Some?
            && var s := Play(START, setup, quick).value;
               s.phase == Returned && ResultOf(s) == TurnResult(true, "success", false, None, text, None)
  {
    var s1 := Handle(START, setup, Delivered(Finished(Some("success"), Some(text)), false));
    var s2 := Handle(s1, setup, StreamEnded(false));
    var s3 := Handle(s2, setup, Resumed);
    var s4 := Handle(s3, setup, Resumed);
    assert Play(s4, setup, []) == Some(s4);
    assert Play(s3, setup, [Resumed]) == Some(s4);
    assert Play(s2, setup, [Resumed, Resumed]) == Some(s4);
    assert Play(s1, setup, [StreamEnded(false), Resumed, Resumed]) == Some(s4);
  }

  /** A turn can report "success" and still have been aborted: its done event came before a timer. */
  lemma AbortedTurnsCanReportSuccess(setup: Setup)
    ensures var late := [Delivered(Finished(Some("success"), None), false), WallTimer, StreamEnded(false), Resumed, CleanupDone, Resumed];
            && Play(START, setup, late).Some?
            && var s := Play(START, setup, late).value;
               s.phase == Returned && ResultOf(s) == TurnResult(false, "success", true, Some(setup.wallClockKind), "", Some(BudgetExceeded))
  {
    var s1 := Handle(START, setup, Delivered(Finished(Some("success"), None), false));
    var s2 := Handle(s1, setup, WallTimer);
    var s3 := Handle(s2, setup, StreamEnded(false));
    var s4 := Handle(s3, setup, Resumed);
    var s5 := Handle(s4, setup, CleanupDone);
    var s6 := Handle(s5, setup, Resumed);
    assert Play(s6, setup, []) == Some(s6);
    assert Play(s5, setup, [Resumed]) == Some(s6);
    assert Play(s4, setup, [CleanupDone, Resumed]) == Some(s6);
    assert Play(s3, setup, [Resumed, CleanupDone, Resumed]) == Some(s6);
    assert Play(s2, setup, [StreamEnded(false), Resumed, CleanupDone, Resumed]) == Some(s6);
    assert Play(s1, setup, [WallTimer, StreamEnded(false), Resumed, CleanupDone, Resumed]) == Some(s6);
  }

  // ------------------------------------------------- the turn, as the runtime runs it

  /** The variables that the callbacks of one turn share. */
  class Turn {
    const setup: Setup
    var phase: Phase
    var wallArmed: bool
    var silenceArmed: bool
    var abortReason: Option<AbortReason>
    var timeoutKind: Option<TimeoutKind>
    var diagnostic: Job
    var cleanup: Job
    var aborted: bool
    var doneStatus: Option<string>
    var doneResult: Option<string>
    var text: string
    var error: Option<ErrorSource>
    var claims: nat
    var cleanupsStarted: nat

    function View(): TurnState
      reads this
    {
      TurnState(phase, wallArmed, silenceArmed, abortReason, timeoutKind, diagnostic, cleanup, aborted,
                doneStatus, doneResult, text, error, claims, cleanupsStarted)
    }

    constructor (setup: Setup)
      ensures View() == START && this.setup == setup
    {
      this.setup := setup;
      phase, wallArmed, silenceArmed := Streaming, true, true;
      abortReason, timeoutKind, diagnostic, cleanup, aborted := None, None, Idle, Idle, false;
      doneStatus, doneResult, text, error, claims, cleanupsStarted := None, None, "", None, 0, 0;
    }

    method ClaimAbort(reason: AbortReason, kind: Option<TimeoutKind>) returns (claimed: bool)
      modifies this
      ensures (View(), claimed) == Claim(old(View()), reason, kind)
    {
      if abortReason.Some? {
        return false;
      }
      abortReason, timeoutKind := Some(reason), kind;
      claims := claims + 1;
      return true;
    }

    method BeginAbortCleanup()
      modifies this
      ensures View() == BeginCleanup(old(View()))
    {
      if cleanup != Idle || abortReason == None {
        aborted := true;
        return;
      }
      aborted := true;
      cleanup, cleanupsStarted := Running, cleanupsStarted + 1;
    }

    method StartAbortCleanup(reason: AbortReason)
      modifies this
      ensures View() == StartCleanup(old(View()), reason)
    {
      var claimed := ClaimAbort(reason, None);
      if !claimed {
        aborted := true;
        return;
      }
      BeginAbortCleanup();
    }

    method WallTimerFires()
      modifies this
      ensures View() == OnWallTimer(old(View()), setup)
    {
      wallArmed := false;
      var claimed := ClaimAbort(Timeout(setup.wallClockKind), Some(setup.wallClockKind));
      if !claimed {
        return;
      }
      error := Some(BudgetExceeded);
      BeginAbortCleanup();
    }

    method SilenceTimerFires()
      modifies this
      ensures View() == OnSilenceTimer(old(View()))
    {
      silenceArmed := false;
      var claimed := ClaimAbort(Timeout(EventSilence), Some(EventSilence));
      if claimed {
        diagnostic := Running;
      }
    }

    method DiagnosticCompletes()
      modifies this
      ensures View() == OnDiagnosticDone(old(View()))
    {
      diagnostic, error := Done, Some(Silence);
      BeginAbortCleanup();
    }

    /** One pass of the event loop; a throwing sink or an unanswered request leaves it. */
    method EventArrives(event: StreamEvent, sinkThrows: bool)
      modifies this
      ensures View() == OnDelivered(old(View()), setup, event, sinkThrows)
    {
      hide StartCleanup;
      silenceArmed := true;
      if sinkThrows {
        phase := Closing(true);
        return;
      }
      match event {
        case Request =>
          if !setup.answersRequests {
            error, doneStatus := Some(Permission), Some("error");
            StartAbortCleanup(PermissionRequest);
            phase := Closing(false);
          }
        case Failure =>
          if abortReason == None {
            error := Some(Adapter);
          }
        case Finished(status, result) =>
          doneStatus, doneResult := Some(if status.Some? then status.value else "error"), result;
        case Text(content) =>
          text := text + content;
        case _ =>
      }
    }

    /** The catch block and the start of the finally block. */
    method LeaveLoop(threw: bool)
      modifies this
      ensures View() == OnLoopLeft(old(View()), threw)
    {
      if threw && error == None {
        error := Some(Thrown);
      }
      wallArmed, silenceArmed := false, false;
      phase := AwaitingDiagnostic;
    }

    /** Any callback the runtime can make. */
    method Step(e: Event)
      requires Enabled(View(), e)
      modifies this
      ensures View() == Handle(old(View()), setup, e)
    {
      match e {
        case WallTimer => WallTimerFires();
        case SilenceTimer => SilenceTimerFires();
        case Delivered(event, sinkThrows) => EventArrives(event, sinkThrows);
        case StreamEnded(threw) => LeaveLoop(threw);
        case IteratorClosed => LeaveLoop(phase.threw);
        case DiagnosticDone => DiagnosticCompletes();
        case CleanupDone => cleanup := Done;
        case Resumed => phase := if phase == AwaitingDiagnostic then AwaitingCleanup else Returned;
      }
    }

    /**
     * `runTurn`: callbacks in any order the runtime allows, at most `events` of them from the stream.
     * Whatever the order, the turn returns.
     */
    method RunTurn(events: nat) returns (result: TurnResult, ghost schedule: seq<Event>)
      requires View() == START
      modifies this
      ensures Play(START, setup, schedule) == Some(View()) && phase == Returned && result == ResultOf(View())
      ensures result.status == LastStatus(setup, schedule) && result.finalText == FinalText(schedule)
      ensures result.ok <==> result.status == "success" && FirstClaim(setup, schedule) == None
      ensures result.timeoutKind == TimeoutOf(FirstClaim(setup, schedule))
      ensures result.timedOut <==> result.timeoutKind.Some?
      ensures result.error.Some? <==> GoesWrong(setup, schedule)
    {
      hide Handle, Enabled, Safe, Weight;
      schedule := [];
      var left: nat := events;
      StartIsSafe();
      while phase != Returned
        invariant Safe(View()) && Play(START, setup, schedule) == Some(View())
        decreases 6 * left + Weight(View())
      {
        ghost var before := View();
        TurnsAreNeverStuck(before);
        var e: Event :| Enabled(View(), e) && (e.Delivered? ==> left > 0);
        Step(e);
        HandlersKeepSafe(before, setup, e);
        CallbacksRunOut(before, setup, e);
        PlayAppends(START, setup, schedule, e);
        schedule := schedule + [e];
        if e.Delivered? {
          left := left - 1;
        }
      }
      var status := if doneStatus.Some? then doneStatus.value else "error";
      result := TurnResult(status == "success" && abortReason == None, status, timeoutKind.Some?, timeoutKind,
                           if doneResult.Some? then doneResult.value else text, error);
      ResultsTellTheSchedule(setup, schedule);
    }
  }

  lemma StartIsSafe()
    ensures Safe(START)
  {
  }

  lemma PlayAppends(s: TurnState, setup: Setup, events: seq<Event>, e: Event)
    requires Play(s, setup, events).Some? && Enabled(Play(s, setup, events).value, e)
    ensures Play(s, setup, events + [e]) == Some(Handle(Play(s, setup, events).value, setup, e))
  {
    hide Handle, Enabled;
    PlayConcat(s, setup, events, [e]);
    var end := Play(s, setup, events).value;
    assert Play(Handle(end, setup, e), setup, []) == Some(Handle(end, setup, e));
    assert [e][1..] == [];
  }
}
