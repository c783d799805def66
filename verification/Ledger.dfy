/** The consumption ledger: single events, whole ledgers, and what a valid ledger entails. */
module Ledger {
  import opened Wrappers
  import opened CaptureContract

  datatype State = Available | Reserved | Committed

  datatype Event = Event(
    eventId: string,
    sequence: nat,
    artifact: string,
    view: View,
    from: State,
    to: State,
    runId: string,
    reservationId: string,
    checkpoint: Option<string>,
    replayOf: Option<string>)

  datatype LedgerError =
    | CheckpointOnReservation
    | ReplayOnFirstReservation
    | ClaimOnRelease
    | CommitWithoutCheckpoint
    | ReplayOnCommit
    | RolloutReplay
    | ReplayWithoutReference
    | InvalidTransition
    | BadStart
    | SequenceGap
    | MixedArtifacts
    | ChainBroken
    | ReservationMismatch
    | ReusedReservation
    | WrongReplay

  predicate IsSha(s: string) {
    |s| == 64 && forall i :: 0 <= i < |s| ==> '0' <= s[i] <= '9' || 'a' <= s[i] <= 'f'
  }

  /** `ensure_consumption_transition`; a digest of the wrong shape is one more error. */
  function TransitionError(view: View, current: State, target: State, checkpoint: Option<string>,
                           replayOf: Option<string>)
    : Option<LedgerError>
  {
    if current.Available? && target.Reserved? then
      if checkpoint.Some? then Some(CheckpointOnReservation)
      else if replayOf.Some? then Some(ReplayOnFirstReservation)
      else None
    else if current.Reserved? && target.Available? then
      if checkpoint.Some? || replayOf.Some? then Some(ClaimOnRelease) else None
    else if current.Reserved? && target.Committed? then
      if checkpoint.None? || !IsSha(checkpoint.value) then Some(CommitWithoutCheckpoint)
      else if replayOf.Some? then Some(ReplayOnCommit)
      else None
    else if current.Committed? && target.Reserved? then
      if view.StudentRollout? then Some(RolloutReplay)
      else if replayOf.None? || !IsSha(replayOf.value) then Some(ReplayWithoutReference)
      else if checkpoint.Some? then Some(CheckpointOnReservation)
      else None
    else Some(InvalidTransition)
  }

  /** What constructing a `ConsumptionEvent` checks. */
  predicate ValidEvent(e: Event) {
    && IsArtifactId(e.eventId) && IsArtifactId(e.runId) && IsArtifactId(e.reservationId) && IsSha(e.artifact)
    && TransitionError(e.view, e.from, e.to, e.checkpoint, e.replayOf).None?
  }

  predicate AllEvents(events: seq<Event>) {
    forall i :: 0 <= i < |events| ==> ValidEvent(events[i])
  }

  // ----- validate_consumption_ledger -----

  /** The checks on event `i`. `sha` is the digest of an event's canonical JSON. */
  function EventError(sha: Event -> string, events: seq<Event>, i: nat): Option<LedgerError>
    requires i < |events|
  {
    var event := events[i];
    if event.sequence != i then Some(SequenceGap)
    else if event.artifact != events[0].artifact || event.view != events[0].view then Some(MixedArtifacts)
    else if i == 0 then None
    else
      var previous := events[i - 1];
      if event.from != previous.to then Some(ChainBroken)
      else if event.from.Reserved? && event.reservationId != previous.reservationId then Some(ReservationMismatch)
      else if event.from.Committed? && event.reservationId == previous.reservationId then Some(ReusedReservation)
      else if event.from.Committed? && event.replayOf != Some(sha(previous)) then Some(WrongReplay)
      else None
  }

  /** The first error among the first `n` events. */
  function FirstError(sha: Event -> string, events: seq<Event>, n: nat): Option<LedgerError>
    requires n <= |events|
  {
    if n == 0 then None
    else
      var earlier := FirstError(sha, events, n - 1);
      if earlier.Some? then earlier else EventError(sha, events, n - 1)
  }

  function Validate(sha: Event -> string, events: seq<Event>): Result<State, LedgerError> {
    if events == [] then Ok(Available)
    else if events[0].sequence != 0 || !events[0].from.Available? then Err(BadStart)
    else
      match FirstError(sha, events, |events|)
      case Some(error) => Err(error)
      case None => Ok(events[|events| - 1].to)
  }

  lemma {:induction false} ErrorStays(sha: Event -> string, events: seq<Event>, n: nat)
    requires n <= |events| && FirstError(sha, events, n).Some?
    ensures FirstError(sha, events, |events|) == FirstError(sha, events, n)
    decreases |events| - n
  {
    if n < |events| {
      ErrorStays(sha, events, n + 1);
    }
  }

  /** The loop of `validate_consumption_ledger`. */
  method ValidateLedger(sha: Event -> string, events: seq<Event>) returns (r: Result<State, LedgerError>)
    ensures r == Validate(sha, events)
  {
    if events == [] {
      return Ok(Available);
    }
    var first := events[0];
    if first.sequence != 0 || !first.from.Available? {
      return Err(BadStart);
    }
    var artifact, view := first.artifact, first.view;
    for index := 0 to |events|
      invariant FirstError(sha, events, index).None?
    {
      var event := events[index];
      var error := None;
      if event.sequence != index {
        error := Some(SequenceGap);
      } else if event.artifact != artifact || event.view != view {
        error := Some(MixedArtifacts);
      } else if index > 0 {
        var previous := events[index - 1];
        if event.from != previous.to {
          error := Some(ChainBroken);
        } else if event.from.Reserved? && event.reservationId != previous.reservationId {
          error := Some(ReservationMismatch);
        } else if event.from.Committed? && event.reservationId == previous.reservationId {
          error := Some(ReusedReservation);
        } else if event.from.Committed? && event.replayOf != Some(sha(previous)) {
          error := Some(WrongReplay);
        }
      }
      if error.Some? {
        ErrorStays(sha, events, index + 1);
        return Err(error.value);
      }
    }
    return Ok(events[|events| - 1].to);
  }

  // ----- step by step -----

  /** A ledger of valid events that the validator accepts. */
  ghost predicate Accepted(sha: Event -> string, events: seq<Event>) {
    AllEvents(events) && Validate(sha, events).Ok?
  }

  /** Whether a valid event may be appended to an accepted ledger: the check against its last event. */
  predicate MayFollow(sha: Event -> string, events: seq<Event>, e: Event) {
    && ValidEvent(e)
    && e.sequence == |events|
    && if events == [] then e.from.Available?
       else
         var last := events[|events| - 1];
         && e.artifact == last.artifact && e.view == last.view && e.from == last.to
         && (e.from.Reserved? ==> e.reservationId == last.reservationId)
         && (e.from.Committed? ==> e.reservationId != last.reservationId && e.replayOf == Some(sha(last)))
  }

  lemma {:induction false} ErrorsOfPrefix(sha: Event -> string, events: seq<Event>, more: seq<Event>, n: nat)
    requires n <= |events| && events <= more
    ensures FirstError(sha, events, n) == FirstError(sha, more, n)
  {
    if n > 0 {
      ErrorsOfPrefix(sha, events, more, n - 1);
    }
  }

  lemma {:induction false} NoErrorAt(sha: Event -> string, events: seq<Event>, n: nat, i: nat)
    requires i < n <= |events| && FirstError(sha, events, n).None?
    ensures EventError(sha, events, i).None?
  {
    if i < n - 1 {
      NoErrorAt(sha, events, n - 1, i);
    }
  }

  /** Validating a whole ledger is checking each event against the one before, as it is appended;
      so every prefix of an accepted ledger is accepted. */
  lemma AcceptedStepByStep(sha: Event -> string, events: seq<Event>, e: Event)
    ensures Accepted(sha, events + [e]) <==> Accepted(sha, events) && MayFollow(sha, events, e)
    ensures Accepted(sha, events + [e]) ==> Validate(sha, events + [e]) == Ok(e.to)
  {
    var more := events + [e];
    assert more[|events|] == e;
    assert AllEvents(more) <==> AllEvents(events) && ValidEvent(e) by {
      AllEventsSnoc(events, e);
    }
    ErrorsOfPrefix(sha, events, more, |events|);
    if events != [] {
      assert events[|events| - 1] == more[|events| - 1];
      if FirstError(sha, events, |events|).None? {
        NoErrorAt(sha, events, |events|, |events| - 1);
      }
    } else {
      assert FirstError(sha, more, 0).None?;
    }
  }

  lemma AllEventsSnoc(events: seq<Event>, e: Event)
    ensures AllEvents(events + [e]) <==> AllEvents(events) && ValidEvent(e)
  {
    hide ValidEvent;
    var more := events + [e];
    assert more[|events|] == e;
    if AllEvents(more) {
      forall i | 0 <= i < |events| ensures ValidEvent(events[i]) {
        assert more[i] == events[i];
      }
    }
  }

  lemma {:induction false} PrefixAccepted(sha: Event -> string, events: seq<Event>, n: nat)
    requires n <= |events| && Accepted(sha, events)
    ensures Accepted(sha, events[..n])
    decreases |events| - n
  {
    hide Accepted, MayFollow;
    if n == |events| {
      assert events[..n] == events;
    } else {
      PrefixAccepted(sha, events, n + 1);
      assert events[..n + 1] == events[..n] + [events[n]];
      AcceptedStepByStep(sha, events[..n], events[n]);
    }
  }

  // ----- what an accepted ledger entails -----

  predicate IsReservation(e: Event) { e.to.Reserved? }
  predicate IsRelease(e: Event) { e.from.Reserved? && e.to.Available? }
  predicate IsCommit(e: Event) { e.to.Committed? }
  predicate IsReplay(e: Event) { e.from.Committed? }

  function Count(p: Event -> bool, events: seq<Event>): nat {
    if events == [] then 0
    else Count(p, events[..|events| - 1]) + if p(events[|events| - 1]) then 1 else 0
  }

  function FinalState(events: seq<Event>): State {
    if events == [] then Available else events[|events| - 1].to
  }

  function Tally(b: bool): nat { if b then 1 else 0 }

  lemma CountSnoc(p: Event -> bool, events: seq<Event>)
    requires events != []
    ensures Count(p, events) == Count(p, events[..|events| - 1]) + Tally(p(events[|events| - 1]))
  {}

  /** Conservation over a whole ledger: every reservation was released or committed, but for one
      that is still active; every replay replays a commit, and only the last commit may be unreplayed. */
  lemma {:induction false} Conservation(sha: Event -> string, events: seq<Event>)
    requires Accepted(sha, events)
    ensures Count(IsReservation, events)
         == Count(IsRelease, events) + Count(IsCommit, events) + Tally(FinalState(events).Reserved?)
    ensures Count(IsReplay, events) <= Count(IsCommit, events) <= Count(IsReplay, events) + 1
    ensures Count(IsCommit, events) == Count(IsReplay, events) + Tally(Unreplayed(events))
  {
    hide Accepted;
    if events != [] {
      var init, e := events[..|events| - 1], events[|events| - 1];
      assert events == init + [e];
      AcceptedStepByStep(sha, init, e);
      Conservation(sha, init);
      CountSnoc(IsReservation, events);
      CountSnoc(IsRelease, events);
      CountSnoc(IsCommit, events);
      CountSnoc(IsReplay, events);
      StateOfPrefix(sha, init, e);
    }
  }

  /** The last commit has not been replayed: no reservation of it was ever made. */
  predicate Unreplayed(events: seq<Event>) {
    events != [] && events[|events| - 1].to.Committed?
  }

  lemma StateOfPrefix(sha: Event -> string, init: seq<Event>, e: Event)
    requires MayFollow(sha, init, e)
    ensures e.from == FinalState(init)
    ensures TransitionError(e.view, e.from, e.to, e.checkpoint, e.replayOf).None?
  {}

  /** What each event of an accepted ledger knows of the one before it. */
  lemma EventFollows(sha: Event -> string, events: seq<Event>, i: nat)
    requires Accepted(sha, events) && i < |events|
    ensures MayFollow(sha, events[..i], events[i])
    ensures i > 0 ==> events[..i][|events[..i]| - 1] == events[i - 1]
    ensures events[i].view == events[0].view
  {
    PrefixAccepted(sha, events, i + 1);
    assert events[..i + 1] == events[..i] + [events[i]];
    AcceptedStepByStep(sha, events[..i], events[i]);
    NoErrorAt(sha, events, |events|, i);
  }

  /** Single use and linking: a release or commit answers the reservation just before it, under the
      same id; a replay names the commit just before it, under another id; a rollout commit is final. */
  lemma SingleUse(sha: Event -> string, events: seq<Event>, i: nat)
    requires Accepted(sha, events) && i < |events|
    ensures IsRelease(events[i]) || IsCommit(events[i]) ==>
              i > 0 && IsReservation(events[i - 1]) && events[i].reservationId == events[i - 1].reservationId
    ensures IsReplay(events[i]) ==>
              && i > 0 && IsCommit(events[i - 1]) && IsReservation(events[i])
              && events[i].reservationId != events[i - 1].reservationId
              && events[i].replayOf == Some(sha(events[i - 1]))
    ensures IsCommit(events[i]) && events[i].view.StudentRollout? ==> i == |events| - 1
  {
    hide Accepted, IsArtifactId, IsSha;
    EventFollows(sha, events, i);
    if i + 1 < |events| {
      EventFollows(sha, events, i + 1);
    }
  }

  // ----- "replayed only through a reservation that names the commit" -----

  predicate Consumed(events: seq<Event>) {
    exists i :: 0 <= i < |events| && IsCommit(events[i])
  }

  /** The documented law: once committed, an artifact is only reserved again by a linked replay. */
  ghost predicate ReplayLaw(events: seq<Event>) {
    forall i :: 0 <= i < |events| && IsReservation(events[i]) && Consumed(events[..i]) ==> IsReplay(events[i])
  }

  /** A replay reservation that was released, with the ledger going on after it. */
  predicate ReplayDropped(events: seq<Event>, j: nat) {
    0 < j < |events| - 1 && IsReplay(events[j - 1]) && IsRelease(events[j])
  }

  lemma {:induction false} PlainReservationAfterCommit(sha: Event -> string, events: seq<Event>, i: nat)
    requires Accepted(sha, events) && i < |events|
    requires IsReservation(events[i]) && Consumed(events[..i]) && !IsReplay(events[i])
    ensures exists j: nat :: j < i && ReplayDropped(events, j)
  {
    hide Accepted, IsArtifactId, IsSha;
    EventFollows(sha, events, i);
    var c :| 0 <= c < |events[..i]| && IsCommit(events[..i][c]);
    assert events[i - 1].to == events[i].from == Available;
    EventFollows(sha, events, i - 1);
    SingleUse(sha, events, i - 1);
    EventFollows(sha, events, i - 2);
    if IsReplay(events[i - 2]) {
      assert ReplayDropped(events, i - 1);
    } else {
      assert c < i - 2;
      assert events[..i - 2][c] == events[c];
      PlainReservationAfterCommit(sha, events, i - 2);
    }
  }

  /** The law holds of an accepted ledger exactly when no released replay is followed by anything:
      releasing a replay makes the artifact available again, and the next reservation is a plain one. */
  lemma ReplayLawIff(sha: Event -> string, events: seq<Event>)
    requires Accepted(sha, events)
    ensures ReplayLaw(events) <==> forall j: nat :: !ReplayDropped(events, j)
  {
    hide Accepted, IsArtifactId, IsSha;
    if !ReplayLaw(events) {
      var i :| 0 <= i < |events| && IsReservation(events[i]) && Consumed(events[..i]) && !IsReplay(events[i]);
      PlainReservationAfterCommit(sha, events, i);
    }
    if j: nat :| ReplayDropped(events, j) {
      SingleUse(sha, events, j - 1);
      EventFollows(sha, events, j + 1);
      assert events[..j + 1][j - 2] == events[j - 2];
      assert IsReservation(events[j + 1]) && !IsReplay(events[j + 1]);
    }
  }

  // ----- a ledger that breaks it -----

  function Repeat(c: char, n: nat): (r: string)
    ensures |r| == n && forall i :: 0 <= i < n ==> r[i] == c
  {
    seq(n, _ => c)
  }

  function Step(n: nat, from: State, to: State, reservationId: string, checkpoint: Option<string>,
                           replayOf: Option<string>)
    : Event
  {
    Event("e", n, Repeat('0', 64), TeacherExpert, from, to, "r", reservationId, checkpoint, replayOf)
  }

  lemma ShortIds()
    ensures IsArtifactId("e") && IsArtifactId("r") && IsArtifactId("a") && IsArtifactId("b") && IsArtifactId("c")
    ensures IsSha(Repeat('0', 64))
  {}

  /** Reserve, commit, replay, release, reserve, commit: accepted, and consumed a second time by a
      reservation that names no earlier commit. */
  lemma UnlinkedReplay(sha: Event -> string) returns (events: seq<Event>)
    requires forall e :: IsSha(sha(e))
    ensures Accepted(sha, events) && |events| == 6
    ensures IsCommit(events[1]) && IsCommit(events[5])
    ensures IsReservation(events[4]) && events[4].replayOf.None? && !ReplayLaw(events)
  {
    hide Accepted;
    ShortIds();
    var digest := Some(Repeat('0', 64));
    var reserve := Step(0, State.Available, Reserved, "a", None, None);
    var commit := Step(1, Reserved, Committed, "a", digest, None);
    var replay := Step(2, Committed, Reserved, "b", None, Some(sha(commit)));
    var release := Step(3, Reserved, State.Available, "b", None, None);
    var again := Step(4, State.Available, Reserved, "c", None, None);
    var second := Step(5, Reserved, Committed, "c", digest, None);
    NothingAccepted(sha);
    AcceptedStepByStep(sha, [], reserve);
    AcceptedStepByStep(sha, [reserve], commit);
    AcceptedStepByStep(sha, [reserve, commit], replay);
    AcceptedStepByStep(sha, [reserve, commit, replay], release);
    AcceptedStepByStep(sha, [reserve, commit, replay, release], again);
    AcceptedStepByStep(sha, [reserve, commit, replay, release, again], second);
    Appended(reserve, commit, replay, release, again, second);
    events := [reserve, commit, replay, release, again, second];
    assert ReplayDropped(events, 3);
    ReplayLawIff(sha, events);
  }

  lemma NothingAccepted(sha: Event -> string)
    ensures Accepted(sha, [])
  {}

  lemma Appended(a: Event, b: Event, c: Event, d: Event, e: Event, f: Event)
    ensures [] + [a] == [a] && [a] + [b] == [a, b] && [a, b] + [c] == [a, b, c] && [a, b, c] + [d] == [a, b, c, d]
    ensures [a, b, c, d] + [e] == [a, b, c, d, e] && [a, b, c, d, e] + [f] == [a, b, c, d, e, f]
  {}
}
