/**
 * One user's open work session (an entry of `pontos_usuarios`) and the
 * way its worked time is accounted for across pauses.
 */
module Lifecycle {
  import opened Wrappers
  import opened Platform

  /** A local wall-clock instant, in microseconds. */
  type Time = nat

  datatype Status = Active | Paused

  /**
   * A session entry: `inicio_geral`, `ultimo_inicio_periodo`,
   * `tempo_trabalhado_total` (microseconds), `status`, `mensagem_id` and
   * `canal_id`.
   */
  datatype Session = Session(
    startedAt: Time,
    periodStart: Time,
    worked: nat,
    status: Status,
    message: Option<MessageId>,
    channel: ChannelId)

  /** The entry a start creates, before the status card's message id is known. */
  function Started(now: Time, channel: ChannelId): Session {
    Session(now, now, 0, Active, None, channel)
  }

  /** The pause transition: close the running period into the total. */
  function PausedAt(s: Session, now: Time): Session
    requires s.periodStart <= now
  {
    s.(worked := s.worked + (now - s.periodStart), periodStart := now, status := Paused)
  }

  /** The resume transition: open a new period; the total is untouched. */
  function ResumedAt(s: Session, now: Time): Session {
    s.(periodStart := now, status := Active)
  }

  /** The accounting the finish handler does in place: an active session adds its open period. */
  function ClosedAt(s: Session, now: Time): Session
    requires s.periodStart <= now
  {
    if s.status == Active then s.(worked := s.worked + (now - s.periodStart)) else s
  }

  // Accounting against the boundaries of the session

  /**
   * For the instants `b` at which a session started, paused, resumed,
   * paused, ..., the time spent in the closed active spans
   * [b0, b1], [b2, b3], ...
   */
  function ClosedActive(b: seq<int>): int {
    if |b| < 2 then 0 else (b[1] - b[0]) + ClosedActive(b[2..])
  }

  /** Boundaries never go back in time. */
  predicate Monotone(b: seq<int>) {
    forall i :: 0 < i < |b| ==> b[i - 1] <= b[i]
  }

  /** The active time up to `now`: the closed spans, plus the running one when active. */
  function ActiveTime(b: seq<int>, now: int): int {
    if |b| % 2 == 1 then ClosedActive(b + [now]) else ClosedActive(b)
  }

  /**
   * `s` is the session whose boundaries so far are `b`: it started at
   * b[0], its current period began at the last boundary, it is active
   * after an odd number of boundaries, and its total is exactly the sum
   * of its closed active spans.
   */
  ghost predicate Accounts(s: Session, b: seq<Time>) {
    |b| >= 1 && Monotone(b)
    && s.startedAt == b[0]
    && s.periodStart == b[|b| - 1]
    && (s.status == Active <==> |b| % 2 == 1)
    && s.worked == ClosedActive(b)
  }

  /** A new boundary closes a span when it follows an odd number of boundaries, and adds nothing otherwise. */
  lemma {:induction false} ClosedActiveSnoc(b: seq<int>, t: int)
    requires |b| >= 1
    ensures ClosedActive(b + [t]) == ClosedActive(b) + (if |b| % 2 == 1 then t - b[|b| - 1] else 0)
    decreases |b|
  {
    if |b| >= 3 {
      assert (b + [t])[2..] == b[2..] + [t];
      ClosedActiveSnoc(b[2..], t);
    } else if |b| == 2 {
      assert (b + [t])[2..] == [t];
      assert b[2..] == [];
    } else {
      assert b + [t] == [b[0], t];
    }
  }

  lemma MonotoneSnoc(b: seq<int>, t: int)
    requires |b| >= 1 && Monotone(b) && b[|b| - 1] <= t
    ensures Monotone(b + [t])
  {
  }

  lemma StartedAccounts(now: Time, channel: ChannelId)
    ensures Accounts(Started(now, channel), [now])
  {
  }

  /** Pausing an accounted active session keeps it accounted, with the pause as a new boundary. */
  lemma PausedAccounts(s: Session, b: seq<Time>, now: Time)
    requires Accounts(s, b) && s.status == Active && s.periodStart <= now
    ensures Accounts(PausedAt(s, now), b + [now])
  {
    ClosedActiveSnoc(b, now);
    MonotoneSnoc(b, now);
  }

  /** Resuming an accounted paused session keeps it accounted, with the resume as a new boundary. */
  lemma ResumedAccounts(s: Session, b: seq<Time>, now: Time)
    requires Accounts(s, b) && s.status == Paused && s.periodStart <= now
    ensures Accounts(ResumedAt(s, now), b + [now])
  {
    ClosedActiveSnoc(b, now);
    MonotoneSnoc(b, now);
  }

  /** The total the finish handler computes is the whole active time up to the finish. */
  lemma ClosedWorked(s: Session, b: seq<Time>, now: Time)
    requires Accounts(s, b) && s.periodStart <= now
    ensures ClosedAt(s, now).worked == ActiveTime(b, now)
  {
    ClosedActiveSnoc(b, now);
  }

  /** Every open session of a registry is accounted for by its boundaries. */
  ghost predicate AllAccounted(sessions: map<UserId, Session>, history: map<UserId, seq<Time>>) {
    history.Keys == sessions.Keys
    && forall u :: u in sessions ==> Accounts(sessions[u], history[u])
  }

  lemma AccountedUpdate(sessions: map<UserId, Session>, history: map<UserId, seq<Time>>,
                        user: UserId, s: Session, b: seq<Time>)
    requires AllAccounted(sessions, history) && Accounts(s, b)
    ensures AllAccounted(sessions[user := s], history[user := b])
  {
  }

  lemma AccountedRemove(sessions: map<UserId, Session>, history: map<UserId, seq<Time>>, user: UserId)
    requires AllAccounted(sessions, history)
    ensures AllAccounted(sessions - {user}, history - {user})
  {
  }

  /** Removing an entry forgets what it was last replaced with. */
  lemma RemoveReplaced(sessions: map<UserId, Session>, user: UserId, s: Session)
    ensures sessions[user := s] - {user} == sessions - {user}
  {
    assert (sessions[user := s] - {user}).Keys == (sessions - {user}).Keys;
  }

  /** Start, pause, resume, pause: the total is the two active spans, however long the pause. */
  lemma TwoSpans(t0: Time, t1: Time, t2: Time, t3: Time, channel: ChannelId)
    requires t0 <= t1 <= t2 <= t3
    ensures PausedAt(ResumedAt(PausedAt(Started(t0, channel), t1), t2), t3).worked == (t1 - t0) + (t3 - t2)
    ensures ActiveTime([t0, t1, t2], t3) == (t1 - t0) + (t3 - t2)
  {
    assert [t0, t1, t2] + [t3] == [t0, t1, t2, t3];
    assert [t0, t1, t2, t3][2..] == [t2, t3];
    assert [t2, t3][2..] == [];
    assert ClosedActive([t2, t3]) == t3 - t2;
    assert ClosedActive([t0, t1, t2, t3]) == (t1 - t0) + ClosedActive([t2, t3]);
  }
}
