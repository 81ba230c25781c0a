/**
  The relay and one watch together: appends, failed saves, restarts, rotated and revoked tokens,
  overlapping polls answered and applied in any order, resets and re-pairings.

  The relay side is the log of EventLog behind the watch tokens its channels honour; the watch side
  is WatchModel. `NoSilentGap` says what a moved cursor can have skipped.
 */
module RelayProtocol {
  import opened Wrappers
  import opened EventLog
  import opened WatchModel
  import Text
  import L = EventLog
  import W = WatchModel

  /** What a request has come to. An answer carries, for the statements below, what was stored when
      it was computed and how many events had been accepted by then. */
  datatype Progress =
    | Asked
    | Answered(events: seq<Event>, stored: seq<Event>, known: nat)
    | Unauthorized
    | Done

  datatype Poll = Poll(token: string, since: int, progress: Progress)

  /** A delivery that may have moved the cursor, with the snapshot behind it. */
  datatype Move = Move(before: int, after: int, stored: seq<Event>, known: nat)

  /** `start`, `handed` and `moves` describe the current session: its first cursor, the events given
      to applyEvent, and the deliveries made. `adopted` holds every token a claim ever gave the watch. */
  datatype System = System(h: History, issued: map<string, string>, honoured: set<string>,
                           watch: Watch, token: Option<string>, adopted: set<string>, polls: seq<Poll>,
                           start: int, handed: set<Event>, moves: seq<Move>, removals: bool)

  datatype Action =
    | LogAction(step: L.Step)
    | Issue(token: string, channel: string)     // a claim rotates the channel's watch session
    | Revoke(channel: string)                   // the channel is removed
    | Adopt(token: string, now: Time)           // the claim's answer reaches the watch
    | Request
    | Answer(poll: nat)
    | Lose(poll: nat)
    | Deliver(poll: nat, now: Time)
    | WakeTimer(task: nat, now: Time)
    | ResetPairing(now: Time)
    | Relaunch                                  // tasks and requests die, cursor and token stay

  function Init(now: Time, storedCursor: int): System {
    System(L.Start(now), map[], {}, Launch(storedCursor), None, {}, [], storedCursor, {}, [], false)
  }

  function ChannelTokens(s: System, channel: string): set<string> {
    set t <- s.honoured | t in s.issued && s.issued[t] == channel
  }

  function AnswerTo(s: System, poll: Poll): Progress {
    if poll.token in s.honoured && poll.token in s.issued
    then Answered(Since(s.h.log.mem.events, s.issued[poll.token], poll.since), s.h.log.mem.events, |s.h.accepted|)
    else Unauthorized
  }

  /** pollCloudStatusOnce once its answer is there. */
  function Receive(s: System, poll: Poll, now: Time): System {
    if !ShouldApplyResponse(poll.token, s.token) then s
    else match poll.progress
      case Answered(events, stored, known) =>
        var w := if events == [] then EmptyPoll(s.watch, now) else ApplyAll(s.watch, events, now);
        s.(watch := w, handed := s.handed + (set e <- events),
           moves := s.moves + [Move(s.watch.cursor, w.cursor, stored, known)])
      case Unauthorized => s.(watch := ShowPending(s.watch, now), token := None)
      case _ => s
  }

  /** An answer does to this watch what it does to the app. */
  lemma ReceiveIsTheWatchs(s: System, poll: Poll, now: Time)
    requires poll.progress.Answered? || poll.progress.Unauthorized?
    ensures var s' := Receive(s, poll, now);
            var answer := if poll.progress.Answered? then Some(poll.progress.events) else None;
            (s'.watch, s'.token) == Received(s.watch, s.token, poll.token, answer, now)
  {
  }

  predicate Enabled(s: System, a: Action) {
    match a
    case Issue(token, channel) => token !in s.issued && token != "" && Text.Trimmed(token)
    case Adopt(token, now) => token in s.issued && token !in s.adopted
    case Request => s.token.Some?
    case Answer(i) => i < |s.polls| && s.polls[i].progress.Asked?
    case Lose(i) => i < |s.polls|
    case Deliver(i, now) => i < |s.polls| && (s.polls[i].progress.Answered? || s.polls[i].progress.Unauthorized?)
    case WakeTimer(task, now) => CanWake(s.watch, task, now)
    case _ => true
  }

  function Step(cfg: Config, s: System, a: Action): System {
    if !Enabled(s, a) then s
    else match a
      case LogAction(step) => s.(h := L.Next(cfg, s.h, step), removals := s.removals || step.RemoveStep?)
      case Issue(token, channel) =>
        s.(issued := s.issued[token := channel], honoured := s.honoured - ChannelTokens(s, channel) + {token})
      case Revoke(channel) => s.(honoured := s.honoured - ChannelTokens(s, channel))
      case Adopt(token, now) =>
        s.(watch := ShowPending(s.watch, now), token := Some(token), adopted := s.adopted + {token},
           start := s.watch.cursor, handed := {}, moves := [])
      case Request => s.(polls := s.polls + [Poll(s.token.value, s.watch.cursor, Asked)])
      case Answer(i) => s.(polls := s.polls[i := s.polls[i].(progress := AnswerTo(s, s.polls[i]))])
      case Lose(i) => s.(polls := s.polls[i := s.polls[i].(progress := Done)])
      case Deliver(i, now) => Receive(s, s.polls[i], now).(polls := s.polls[i := s.polls[i].(progress := Done)])
      case WakeTimer(task, now) => s.(watch := Wake(s.watch, task, now))
      case ResetPairing(now) => s.(watch := Reset(s.watch, now), token := None)
      case Relaunch => s.(watch := Launch(s.watch.cursor),
          polls := seq(|s.polls|, i requires 0 <= i < |s.polls| => s.polls[i].(progress := Done)))
  }

  function Run(cfg: Config, s: System, actions: seq<Action>): System {
    if actions == [] then s else Step(cfg, Run(cfg, s, actions[..|actions| - 1]), actions[|actions| - 1])
  }

  // ---------------------------------------------------------------- the invariant

  predicate Snapshot(h: History, stored: seq<Event>, known: nat) {
    && Ascending(stored) && known <= |h.accepted|
    && (forall e <- stored :: e in h.accepted[..known])
  }

  predicate PollOk(s: System, poll: Poll) {
    && poll.token in s.adopted && poll.token in s.issued
    && (s.token == Some(poll.token) ==> poll.since <= s.watch.cursor)
    && (poll.progress.Answered? ==>
          && Snapshot(s.h, poll.progress.stored, poll.progress.known)
          && poll.progress.events == Since(poll.progress.stored, s.issued[poll.token], poll.since))
  }

  /** The event had been accepted, and was no longer stored, when the snapshot that moved the cursor
      past it was taken. */
  predicate LeftBefore(h: History, m: Move, e: Event) {
    m.before < e.id <= m.after && m.known <= |h.accepted| && e in h.accepted[..m.known] && e !in m.stored
  }

  predicate Accounted(s: System, e: Event) {
    e in s.handed || exists m <- s.moves :: LeftBefore(s.h, m, e)
  }

  /** A session's cursor is where it started or the id of an accepted event. */
  predicate CursorOk(s: System) {
    && s.start <= s.watch.cursor
    && (s.watch.cursor == s.start || exists e <- s.h.accepted :: e.id == s.watch.cursor)
  }

  ghost predicate Inv(cfg: Config, s: System) {
    && cfg.persisted && L.Inv(cfg, s.h)
    && s.adopted <= s.issued.Keys
    && (forall t <- s.issued :: t != "" && Text.Trimmed(t))
    && (s.token.Some? ==> s.token.value in s.adopted && s.token.value in s.issued && CursorOk(s))
    && (forall poll <- s.polls :: PollOk(s, poll))
  }

  predicate InSessionRange(s: System, e: Event) {
    s.token.Some? && s.token.value in s.issued && e.channel == s.issued[s.token.value]
        && s.start < e.id <= s.watch.cursor
  }

  ghost predicate NoGap(s: System) {
    forall e <- s.h.accepted | InSessionRange(s, e) :: Accounted(s, e)
  }

  // ---------------------------------------------------------------- log steps

  lemma AcceptedGrows(cfg: Config, h: History, step: L.Step)
    requires cfg.persisted && L.Inv(cfg, h)
    ensures var h' := L.Next(cfg, h, step);
            && L.Inv(cfg, h') && h.accepted <= h'.accepted
            && (forall e <- h'.accepted, f <- h.accepted | e !in h.accepted :: f.id < e.id)
  {
    var h' := L.Next(cfg, h, step);
    StepKeepsInv(cfg, h, step);
    forall e <- h'.accepted, f <- h.accepted | e !in h.accepted ensures f.id < e.id {
      assert h'.accepted == h.accepted + h'.accepted[|h.accepted|..];
      NewerThanAccepted(h.accepted, h'.accepted, e);
    }
  }

  lemma LogActionKeeps(cfg: Config, s: System, step: L.Step)
    requires Inv(cfg, s) && NoGap(s)
    ensures var s' := Step(cfg, s, LogAction(step)); Inv(cfg, s') && NoGap(s')
  {
    var s' := Step(cfg, s, LogAction(step));
    AcceptedGrows(cfg, s.h, step);
    PrefixSlices(s.h.accepted, s'.h.accepted);
    forall poll <- s'.polls ensures PollOk(s', poll) { assert PollOk(s, poll); }
    forall e <- s'.h.accepted | InSessionRange(s', e) ensures Accounted(s', e) {
      if e in s.h.accepted {
        assert InSessionRange(s, e);
        assert Accounted(s, e);
        if m :| m in s.moves && LeftBefore(s.h, m, e) { assert LeftBefore(s'.h, m, e); }
      }
    }
  }

  lemma PrefixSlices(before: seq<Event>, later: seq<Event>)
    requires before <= later
    ensures forall k | 0 <= k <= |before| :: later[..k] == before[..k]
  {
  }

  // ---------------------------------------------------------------- deliveries

  lemma {:induction false} ApplyAllCursor(w: Watch, events: seq<Event>, now: Time)
    requires Ascending(events)
    ensures ApplyAll(w, events, now).cursor ==
              if events != [] && events[|events| - 1].id > w.cursor then events[|events| - 1].id else w.cursor
  {
    if events != [] {
      var front, last := events[..|events| - 1], events[|events| - 1];
      ApplyAllCursor(w, front, now);
      if front != [] { assert front[|front| - 1] == events[|events| - 2]; }
    }
  }

  /** Whatever an ascending history holds at or below an id of a prefix is in the prefix. */
  lemma InPrefix(accepted: seq<Event>, known: nat, last: Event, e: Event)
    requires Ascending(accepted) && known <= |accepted| && last in accepted[..known] && e in accepted && e.id <= last.id
    ensures e in accepted[..known]
  {
    var i :| 0 <= i < known && accepted[i] == last;
    var j :| 0 <= j < |accepted| && accepted[j] == e;
    assert j <= i;
    assert accepted[..known][j] == e;
  }

  /** The heart of the matter: an answer to the current session, however old, accounts for every
      event of the channel between the old cursor and the new. */
  lemma DeliveryAccounts(cfg: Config, s: System, poll: Poll, now: Time, e: Event)
    requires Inv(cfg, s) && PollOk(s, poll) && poll.progress.Answered? && s.token == Some(poll.token)
    requires ShouldApplyResponse(poll.token, s.token)
    requires e in s.h.accepted && e.channel == s.issued[poll.token]
    requires s.watch.cursor < e.id <= Receive(s, poll, now).watch.cursor
    ensures Accounted(Receive(s, poll, now), e)
  {
    var s' := Receive(s, poll, now);
    var events, stored, known := poll.progress.events, poll.progress.stored, poll.progress.known;
    SinceMeaning(stored, e.channel, poll.since);
    ApplyAllCursor(s.watch, events, now);
    var last := events[|events| - 1];
    assert last in events;
    InPrefix(s.h.accepted, known, last, e);
    Text.TrimFixpoint(e.channel);
    if e in stored {
      assert e in s'.handed;
    } else {
      var m := s'.moves[|s.moves|];
      assert m in s'.moves && LeftBefore(s'.h, m, e);
    }
  }

  /** The poll guard ignores surrounding white space and refuses blank tokens. */
  lemma GuardMatches(requested: string, current: Option<string>)
    ensures ShouldApplyResponse(requested, current) <==>
            current.Some? && Text.Trim(requested) != "" && Text.Trim(current.value) == Text.Trim(requested)
    ensures Text.Trimmed(requested) && (current.Some? ==> Text.Trimmed(current.value)) && requested != "" ==>
              (ShouldApplyResponse(requested, current) <==> current == Some(requested))
  {
    Text.TrimFixpoint(requested);
    if current.Some? { Text.TrimFixpoint(current.value); }
  }

  lemma ReceiveKeepsCursor(cfg: Config, s: System, poll: Poll, now: Time)
    requires Inv(cfg, s) && PollOk(s, poll)
    ensures var s' := Receive(s, poll, now);
            && (s'.token.Some? ==> s'.token == s.token && s.watch.cursor <= s'.watch.cursor && CursorOk(s'))
  {
    var s' := Receive(s, poll, now);
    GuardMatches(poll.token, s.token);
    if s' != s && poll.progress.Answered? {
      var events := poll.progress.events;
      SinceMeaning(poll.progress.stored, s.issued[poll.token], poll.since);
      ApplyAllCursor(s.watch, events, now);
      if s'.watch.cursor != s.watch.cursor {
        var last := events[|events| - 1];
        assert last in events;
        assert last in s.h.accepted[..poll.progress.known];
        assert last in s'.h.accepted && last.id == s'.watch.cursor;
      }
    }
  }

  lemma DeliverKeeps(cfg: Config, s: System, i: nat, now: Time)
    requires Inv(cfg, s) && NoGap(s) && Enabled(s, Deliver(i, now))
    ensures var s' := Step(cfg, s, Deliver(i, now)); Inv(cfg, s') && NoGap(s')
  {
    var s', poll := Step(cfg, s, Deliver(i, now)), s.polls[i];
    var r := Receive(s, poll, now);
    assert PollOk(s, poll);
    GuardMatches(poll.token, s.token);
    ReceiveKeepsCursor(cfg, s, poll, now);
    forall p <- s'.polls ensures PollOk(s', p) {
      assert p in s.polls || p == poll.(progress := Done);
    }
    forall e <- s'.h.accepted | InSessionRange(s', e) ensures Accounted(s', e) {
      if e.id <= s.watch.cursor {
        assert InSessionRange(s, e);
        assert Accounted(s, e);
      } else {
        DeliveryAccounts(cfg, s, poll, now, e);
        assert Accounted(r, e);
      }
    }
  }

  // ---------------------------------------------------------------- everything else

  lemma ApplyKeepsAccount(s: System, s': System)
    requires NoGap(s) && s'.h == s.h && s'.moves == s.moves && s'.handed == s.handed
    requires s'.token.Some? ==> s'.token == s.token && s'.start == s.start && s'.watch.cursor == s.watch.cursor
    requires s.token.Some? && s.token.value in s'.issued ==>
             s.token.value in s.issued && s'.issued[s.token.value] == s.issued[s.token.value]
    ensures NoGap(s')
  {
    forall e <- s'.h.accepted | InSessionRange(s', e) ensures Accounted(s', e) {
      assert InSessionRange(s, e);
      assert Accounted(s, e);
    }
  }

  lemma AnswerOk(cfg: Config, s: System, poll: Poll)
    requires Inv(cfg, s) && PollOk(s, poll)
    ensures PollOk(s, poll.(progress := AnswerTo(s, poll)))
  {
    assert s.h.accepted[..|s.h.accepted|] == s.h.accepted;
  }

  predicate IsPollAction(a: Action) {
    a.Request? || a.Answer? || a.Lose? || a.Relaunch?
  }

  lemma PollActionKeeps(cfg: Config, s: System, a: Action)
    requires Inv(cfg, s) && NoGap(s) && IsPollAction(a)
    ensures var s' := Step(cfg, s, a); Inv(cfg, s') && NoGap(s')
  {
    hide NoGap, L.Inv;
    var s' := Step(cfg, s, a);
    ApplyKeepsAccount(s, s');
    if Enabled(s, a) {
      forall p <- s'.polls | p !in s.polls ensures PollOk(s', p) {
        match a
        case Request =>
        case Answer(i) => AnswerOk(cfg, s, s.polls[i]);
        case Lose(i) => assert PollOk(s, s.polls[i]);
        case Relaunch =>
          var i :| 0 <= i < |s'.polls| && s'.polls[i] == p;
          assert PollOk(s, s.polls[i]);
      }
    }
  }

  lemma SessionActionKeeps(cfg: Config, s: System, a: Action)
    requires Inv(cfg, s) && NoGap(s) && !a.LogAction? && !a.Deliver? && !IsPollAction(a)
    ensures var s' := Step(cfg, s, a); Inv(cfg, s') && NoGap(s')
  {
    hide L.Inv, Snapshot, Accounted;
    var s' := Step(cfg, s, a);
    forall p <- s'.polls ensures PollOk(s', p) { assert PollOk(s, p); }
    if !a.Adopt? { ApplyKeepsAccount(s, s'); }
  }

  lemma StartsWithoutGap(cfg: Config, now: Time, storedCursor: int)
    requires cfg.persisted && cfg.max > 0
    ensures Inv(cfg, Init(now, storedCursor)) && NoGap(Init(now, storedCursor))
  {
  }

  lemma ActionKeeps(cfg: Config, s: System, a: Action)
    requires Inv(cfg, s) && NoGap(s)
    ensures Inv(cfg, Step(cfg, s, a)) && NoGap(Step(cfg, s, a))
  {
    hide Inv, NoGap;
    match a
    case LogAction(step) => LogActionKeeps(cfg, s, step);
    case Deliver(i, t) => if Enabled(s, Deliver(i, t)) { DeliverKeeps(cfg, s, i, t); }
    case _ => if IsPollAction(a) { PollActionKeeps(cfg, s, a); } else { SessionActionKeeps(cfg, s, a); }
  }

  /** No silent gap. On every run, with polls overlapping and answered or applied in any order, saves
      failing, the relay restarting and the watch re-pairing, each accepted event of the session's
      channel between the session's first cursor and its current cursor was handed to applyEvent or
      had left the store before the snapshot that moved the cursor past it. */
  lemma {:induction false} NoSilentGap(cfg: Config, now: Time, storedCursor: int, actions: seq<Action>)
    requires cfg.persisted && cfg.max > 0
    ensures var s := Run(cfg, Init(now, storedCursor), actions); Inv(cfg, s) && NoGap(s)
  {
    hide Inv, NoGap, Step;
    if actions == [] {
      StartsWithoutGap(cfg, now, storedCursor);
    } else {
      NoSilentGap(cfg, now, storedCursor, actions[..|actions| - 1]);
      ActionKeeps(cfg, Run(cfg, Init(now, storedCursor), actions[..|actions| - 1]), actions[|actions| - 1]);
    }
  }

  // ---------------------------------------------------------------- how much it takes to miss an event

  predicate SnapshotWindow(cfg: Config, s: System, stored: seq<Event>, known: nat) {
    known <= |s.h.accepted| && stored == TrimEvents(s.h.accepted[..known], cfg.max)
  }

  /** As long as nothing is removed, the store and every snapshot are windows on the history. */
  predicate Windows(cfg: Config, s: System) {
    !s.removals ==>
      && s.h.log.mem.events == TrimEvents(s.h.accepted, cfg.max) && DedupeSpaced(s.h.accepted, cfg.max)
      && (forall p <- s.polls :: p.progress.Answered? ==> SnapshotWindow(cfg, s, p.progress.stored, p.progress.known))
      && (forall m <- s.moves :: SnapshotWindow(cfg, s, m.stored, m.known))
  }

  /** Old snapshots stay windows when the accepted events only grow. */
  lemma SnapshotsStayWindows(cfg: Config, s: System, s': System)
    requires s.h.accepted <= s'.h.accepted && s'.polls == s.polls && s'.moves == s.moves
    requires !s.removals && Windows(cfg, s)
    ensures forall p <- s'.polls :: p.progress.Answered? ==>
            SnapshotWindow(cfg, s', p.progress.stored, p.progress.known)
    ensures forall m <- s'.moves :: SnapshotWindow(cfg, s', m.stored, m.known)
  {
    hide DedupeSpaced, TrimEvents;
    PrefixSlices(s.h.accepted, s'.h.accepted);
  }

  /** Without a removal a log step keeps the store a window. */
  lemma LogStaysWindow(cfg: Config, h: History, step: L.Step)
    requires cfg.persisted && L.Inv(cfg, h) && !step.RemoveStep?
    requires h.log.mem.events == TrimEvents(h.accepted, cfg.max) && DedupeSpaced(h.accepted, cfg.max)
    ensures var h' := L.Next(cfg, h, step);
            h'.log.mem.events == TrimEvents(h'.accepted, cfg.max) && DedupeSpaced(h'.accepted, cfg.max)
  {
    match step
    case AppendStep(_, _, _) => AppendKeepsWindow(cfg, h, step);
    case RestartStep(now) => RestartKeepsWindow(cfg, h, now);
  }

  lemma RestartKeepsWindow(cfg: Config, h: History, now: Time)
    requires cfg.persisted && L.Inv(cfg, h)
    requires h.log.mem.events == TrimEvents(h.accepted, cfg.max) && DedupeSpaced(h.accepted, cfg.max)
    ensures var h' := L.Next(cfg, h, L.RestartStep(now));
            h'.log.mem.events == TrimEvents(h'.accepted, cfg.max) && DedupeSpaced(h'.accepted, cfg.max)
  {
    hide DedupeSpaced, Reopen;
    ReopenRestores(cfg, h, now);
  }

  lemma LogActionKeepsWindows(cfg: Config, s: System, step: L.Step)
    requires Inv(cfg, s) && Windows(cfg, s)
    ensures Windows(cfg, Step(cfg, s, LogAction(step)))
  {
    hide L.Inv, L.Next, DedupeSpaced, TrimEvents, SnapshotWindow;
    var s' := Step(cfg, s, LogAction(step));
    if !s'.removals {
      AcceptedGrows(cfg, s.h, step);
      SnapshotsStayWindows(cfg, s, s');
      LogStaysWindow(cfg, s.h, step);
    }
  }

  lemma ActionKeepsWindows(cfg: Config, s: System, a: Action)
    requires Inv(cfg, s) && Windows(cfg, s) && !a.LogAction?
    ensures Windows(cfg, Step(cfg, s, a))
  {
    hide Inv, DedupeSpaced, TrimEvents, Wake, ShowPending, Reset, L.Next;
    var s' := Step(cfg, s, a);
    if !s'.removals {
      assert s.h.accepted[..|s.h.accepted|] == s.h.accepted;
      forall p <- s'.polls | p.progress.Answered?
        ensures SnapshotWindow(cfg, s', p.progress.stored, p.progress.known)
      {
        assert p in s.polls || (a.Answer? && p == s'.polls[a.poll]);
      }
    }
  }

  lemma {:induction false} RunKeepsWindows(cfg: Config, now: Time, storedCursor: int, actions: seq<Action>)
    requires cfg.persisted && cfg.max > 0
    ensures Windows(cfg, Run(cfg, Init(now, storedCursor), actions))
  {
    if actions != [] {
      var front := actions[..|actions| - 1];
      RunKeepsWindows(cfg, now, storedCursor, front);
      NoSilentGap(cfg, now, storedCursor, front);
      match actions[|actions| - 1]
      case LogAction(step) => LogActionKeepsWindows(cfg, Run(cfg, Init(now, storedCursor), front), step);
      case a => ActionKeepsWindows(cfg, Run(cfg, Init(now, storedCursor), front), a);
    }
  }

  /** Without removals only an overflow loses an event: by the snapshot that skipped it, at least
      `max` newer events had been accepted. */
  lemma MissedOnlyByOverflow(cfg: Config, now: Time, storedCursor: int, actions: seq<Action>, i: nat)
    requires cfg.persisted && cfg.max > 0
    requires var s := Run(cfg, Init(now, storedCursor), actions);
             && !s.removals && i < |s.h.accepted|
             && InSessionRange(s, s.h.accepted[i]) && s.h.accepted[i] !in s.handed
    ensures var s := Run(cfg, Init(now, storedCursor), actions);
            exists m <- s.moves :: m.before < s.h.accepted[i].id <= m.after && i + cfg.max < m.known <= |s.h.accepted|
  {
    var s := Run(cfg, Init(now, storedCursor), actions);
    var e := s.h.accepted[i];
    NoSilentGap(cfg, now, storedCursor, actions);
    RunKeepsWindows(cfg, now, storedCursor, actions);
    assert Accounted(s, e);
    var m :| m in s.moves && LeftBefore(s.h, m, e);
    var j :| 0 <= j < m.known && s.h.accepted[j] == e;
    assert i == j;
    if m.known <= i + cfg.max { StillInWindow(s.h.accepted, m.known, cfg.max, i); }
  }

  lemma StillInWindow(accepted: seq<Event>, known: nat, max: nat, i: nat)
    requires i < known <= |accepted| && known <= i + max
    ensures accepted[i] in TrimEvents(accepted[..known], max)
  {
    var stored := TrimEvents(accepted[..known], max);
    assert stored[i - (known - |stored|)] == accepted[..known][i];
  }
}
