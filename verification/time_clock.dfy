/**
 * The bot's state and its handlers: the registry of open sessions
 * (`pontos_usuarios`), the worksheet of the workbook last opened and the
 * workbook file, with the start, pause, resume and finish transitions and
 * the saving of a finished record.
 */
module TimeClock {
  import opened Wrappers
  import opened TimeText
  import opened Platform
  import opened Lifecycle
  import opened RecordStore

  /** Why a handler refused to act; each comes with its own message to the actor. */
  datatype Rejection =
    | NotOwner          // the button belongs to another user's card
    | AlreadyOpen       // start while a session is open
    | NoOpenSession     // finish without a session
    | PausedOrMissing   // pause when paused or without a session
    | ActiveOrMissing   // resume when active or without a session

  datatype Outcome =
    | Done                            // the transition was applied
    | Rejected(why: Rejection)        // a guard failed
    | Recorded(row: Row, saved: bool) // the record was appended; `saved` says whether the file was written
    | NoData                          // a save was asked for a user without a session
    | StoreUnavailable                // opening the workbook raised

  /** The status of `user`'s session, if one is open. */
  function StatusOf(sessions: map<UserId, Session>, user: UserId): Option<Status> {
    if user in sessions then Some(sessions[user].status) else None
  }

  /**
   * The row written for a finished session, in the header's column order:
   * display name, date of the finish, start time, end time and the
   * worked duration as a phrase.
   */
  function RecordRow(s: Session, user: UserId, now: Time, today: string, dir: Directory): (row: Row)
    ensures |row| == |HEADERS|
  {
    [DisplayName(dir, s.channel, user), today, ClockTime(s.startedAt), ClockTime(now), FormatTotal(s.worked)]
  }

  class Bot {
    /** `pontos_usuarios`: the open session of each user. */
    var sessions: map<UserId, Session>
    /** The boundaries (start, pauses, resumes) of each open session so far. */
    ghost var history: map<UserId, seq<Time>>
    /** The active worksheet of the workbook last opened, with any rows appended to it. */
    var sheet: seq<Row>
    /** The workbook file on disk. */
    var file: StoredFile

    /** Every open session's total is the sum of its closed active spans. */
    ghost predicate Valid()
      reads this`sessions, this`history
    {
      AllAccounted(sessions, history)
    }

    /**
     * Every open session has its boundaries on record. Unlike `Valid()`,
     * this survives a finish whose open raised.
     */
    ghost predicate Tracked()
      reads this`sessions, this`history
    {
      history.Keys == sessions.Keys
    }

    /** No instant recorded in an open session lies after `now`. */
    ghost predicate ClockAfter(now: Time)
      reads this`sessions
    {
      forall u :: u in sessions ==> sessions[u].periodStart <= now
    }

    /** The process starts with no open session and whatever file is on disk. */
    constructor (onDisk: StoredFile)
      ensures Valid()
      ensures sessions == map[] && sheet == [] && file == onDisk
    {
      sessions := map[];
      history := map[];
      sheet := [];
      file := onDisk;
    }

    /**
     * `_get_excel_sheet`: load the workbook, writing a fresh one holding
     * only the header when the file is missing or its header is wrong.
     * Fails when the file cannot be loaded or that write fails.
     */
    method OpenSheet(writable: bool) returns (ok: bool)
      modifies this`sheet, this`file
      ensures ok == Open(old(file), writable).Some?
      ensures ok ==> sheet == Open(old(file), writable).value && file == Stored(sheet)
      ensures !ok ==> sheet == old(sheet) && file == old(file)
    {
      match file
      case Missing =>
        ok := writable;
        if ok {
          sheet := [HEADERS];
          file := Stored(sheet);
        }
      case Unreadable =>
        ok := false;
      case Stored(rows) =>
        if HeaderMatches(rows) {
          sheet := rows;
          ok := true;
        } else {
          // the old rows are dropped and a header-only workbook replaces the file
          ok := writable;
          if ok {
            sheet := [HEADERS];
            file := Stored(sheet);
          }
        }
    }

    /** `carregar_dados`: forget every open session and make sure the workbook exists with its header. */
    method Load(writable: bool) returns (ok: bool)
      modifies this
      ensures Valid() && sessions == map[] && history == map[]
      ensures ok == Open(old(file), writable).Some?
      ensures ok ==> sheet == Open(old(file), writable).value && file == Stored(sheet)
      ensures !ok ==> sheet == old(sheet) && file == old(file)
    {
      sessions := map[];
      history := map[];
      ok := OpenSheet(writable);
    }

    /**
     * `iniciar_ponto`: open an active session for `user` at `now`, unless
     * one is already open. `message` is the status card sent in `channel`.
     */
    method Start(user: UserId, channel: ChannelId, message: MessageId, now: Time) returns (outcome: Outcome)
      requires Tracked()
      modifies this`sessions, this`history
      ensures Tracked() && (old(Valid()) ==> Valid())
      ensures user in old(sessions) ==>
        outcome == Rejected(AlreadyOpen) && sessions == old(sessions) && history == old(history)
      ensures user !in old(sessions) ==>
        outcome == Done && sessions == old(sessions)[user := Started(now, channel).(message := Some(message))]
      ensures user !in old(sessions) ==> history == old(history)[user := [now]]
    {
      if user in sessions {
        return Rejected(AlreadyOpen);
      }
      ghost var entry := Started(now, channel).(message := Some(message));
      if Valid() {
        StartedAccounts(now, channel);
        AccountedUpdate(sessions, history, user, entry, [now]);
      }
      sessions := sessions[user := Started(now, channel)];
      history := history[user := [now]];
      // the status card is sent, then its message and channel are kept in the entry
      sessions := sessions[user := sessions[user].(message := Some(message), channel := channel)];
      assert sessions == old(sessions)[user := entry];
      outcome := Done;
    }

    /** `pausar_button`: close the running period of `owner`'s active session. */
    method Pause(actor: UserId, owner: UserId, now: Time) returns (outcome: Outcome)
      requires Tracked() && ClockAfter(now)
      modifies this`sessions, this`history
      ensures Tracked() && ClockAfter(now) && (old(Valid()) ==> Valid())
      ensures actor != owner ==>
        outcome == Rejected(NotOwner) && sessions == old(sessions) && history == old(history)
      ensures actor == owner && StatusOf(old(sessions), owner) != Some(Active) ==>
        outcome == Rejected(PausedOrMissing) && sessions == old(sessions) && history == old(history)
      ensures actor == owner && StatusOf(old(sessions), owner) == Some(Active) ==>
        outcome == Done && sessions == old(sessions)[owner := PausedAt(old(sessions)[owner], now)]
        && history == old(history)[owner := old(history)[owner] + [now]]
    {
      if actor != owner {
        return Rejected(NotOwner);
      }
      if owner !in sessions || sessions[owner].status == Paused {
        return Rejected(PausedOrMissing);
      }
      var s := sessions[owner];
      ghost var b := history[owner] + [now];
      if Valid() {
        PausedAccounts(s, history[owner], now);
        AccountedUpdate(sessions, history, owner, PausedAt(s, now), b);
      }
      // the running period joins the total, and the pause starts the next period
      sessions := sessions[owner := s.(worked := s.worked + (now - s.periodStart), periodStart := now, status := Paused)];
      history := history[owner := b];
      assert sessions == old(sessions)[owner := PausedAt(s, now)];
      outcome := Done;
    }

    /** `continuar_button`: start a new active period of `owner`'s paused session. */
    method Resume(actor: UserId, owner: UserId, now: Time) returns (outcome: Outcome)
      requires Tracked() && ClockAfter(now)
      modifies this`sessions, this`history
      ensures Tracked() && ClockAfter(now) && (old(Valid()) ==> Valid())
      ensures actor != owner ==>
        outcome == Rejected(NotOwner) && sessions == old(sessions) && history == old(history)
      ensures actor == owner && StatusOf(old(sessions), owner) != Some(Paused) ==>
        outcome == Rejected(ActiveOrMissing) && sessions == old(sessions) && history == old(history)
      ensures actor == owner && StatusOf(old(sessions), owner) == Some(Paused) ==>
        outcome == Done && sessions == old(sessions)[owner := ResumedAt(old(sessions)[owner], now)]
        && history == old(history)[owner := old(history)[owner] + [now]]
    {
      if actor != owner {
        return Rejected(NotOwner);
      }
      if owner !in sessions || sessions[owner].status == Active {
        return Rejected(ActiveOrMissing);
      }
      var s := sessions[owner];
      ghost var b := history[owner] + [now];
      if Valid() {
        ResumedAccounts(s, history[owner], now);
        AccountedUpdate(sessions, history, owner, ResumedAt(s, now), b);
      }
      sessions := sessions[owner := s.(periodStart := now, status := Active)];
      history := history[owner := b];
      outcome := Done;
    }

    /**
     * `salvar_dados_finalizados`: open the workbook, append the record of
     * `user`'s session and save; the session is dropped whether or not
     * the save succeeded.
     */
    method SaveFinished(user: UserId, now: Time, today: string, dir: Directory, writable: bool)
      returns (outcome: Outcome)
      modifies this`sheet, this`file, this`sessions, this`history
      ensures Open(old(file), writable).None? ==>
        outcome == StoreUnavailable && sheet == old(sheet) && file == old(file)
        && sessions == old(sessions) && history == old(history)
      ensures Open(old(file), writable).Some? && user !in old(sessions) ==>
        outcome == NoData && sheet == Open(old(file), writable).value && file == Stored(sheet)
        && sessions == old(sessions) && history == old(history)
      ensures Open(old(file), writable).Some? && user in old(sessions) ==>
        var rows := Open(old(file), writable).value;
        var row := RecordRow(old(sessions)[user], user, now, today, dir);
        outcome == Recorded(row, writable) && sheet == rows + [row]
        && file == Stored(if writable then sheet else rows)
        && sessions == old(sessions) - {user} && history == old(history) - {user}
    {
      var ok := OpenSheet(writable);
      if !ok {
        return StoreUnavailable;
      }
      if user !in sessions {
        return NoData;
      }
      var row := RecordRow(sessions[user], user, now, today, dir);
      sheet := sheet + [row];
      if writable {
        file := Stored(sheet);
      }
      // a failed save is only reported; the entry goes either way
      sessions := sessions - {user};
      history := history - {user};
      outcome := Recorded(row, writable);
    }

    /** Add the running period of `owner`'s active session to its total, in the registry itself. */
    method CloseInPlace(owner: UserId, now: Time)
      requires owner in sessions && ClockAfter(now)
      modifies this`sessions
      ensures sessions == old(sessions)[owner := ClosedAt(old(sessions)[owner], now)]
      ensures ClockAfter(now)
    {
      var s := sessions[owner];
      if s.status == Active {
        sessions := sessions[owner := s.(worked := s.worked + (now - s.periodStart))];
      }
    }

    /**
     * `terminar_button` (and `terminar_pausado_button`, which delegates to
     * it): add the running period of an active session to its total in
     * place, then save the record. When opening the workbook raises, the
     * session stays open with the enlarged total.
     */
    method Finish(actor: UserId, owner: UserId, now: Time, today: string, dir: Directory, writable: bool)
      returns (outcome: Outcome)
      requires Tracked() && ClockAfter(now)
      modifies this`sheet, this`file, this`sessions, this`history
      ensures Tracked() && ClockAfter(now)
      ensures actor != owner ==>
        outcome == Rejected(NotOwner) && sessions == old(sessions) && history == old(history)
        && sheet == old(sheet) && file == old(file)
      ensures actor == owner && owner !in old(sessions) ==>
        outcome == Rejected(NoOpenSession) && sessions == old(sessions) && history == old(history)
        && sheet == old(sheet) && file == old(file)
      ensures actor == owner && owner in old(sessions) && Open(old(file), writable).None? ==>
        outcome == StoreUnavailable && sheet == old(sheet) && file == old(file)
        && sessions == old(sessions)[owner := ClosedAt(old(sessions)[owner], now)] && history == old(history)
      ensures actor == owner && owner in old(sessions) && Open(old(file), writable).Some? ==>
        var rows := Open(old(file), writable).value;
        var row := RecordRow(ClosedAt(old(sessions)[owner], now), owner, now, today, dir);
        outcome == Recorded(row, writable) && sheet == rows + [row]
        && file == Stored(if writable then sheet else rows)
        && sessions == old(sessions) - {owner} && history == old(history) - {owner}
      ensures actor == owner && owner in old(sessions) && old(Valid()) ==>
        ClosedAt(old(sessions)[owner], now).worked == ActiveTime(old(history)[owner], now)
      ensures old(Valid()) && outcome != StoreUnavailable ==> Valid()
    {
      if actor != owner {
        return Rejected(NotOwner);
      }
      if owner !in sessions {
        return Rejected(NoOpenSession);
      }
      ghost var wasValid := Valid();
      if wasValid {
        ClosedWorked(sessions[owner], history[owner], now);
      }
      CloseInPlace(owner, now);
      outcome := SaveFinished(owner, now, today, dir, writable);
      if outcome != StoreUnavailable {
        if wasValid {
          AccountedRemove(old(sessions), old(history), owner);
        }
        RemoveReplaced(old(sessions), owner, ClosedAt(old(sessions)[owner], now));
      }
    }

    /**
     * Open the workbook, append the record of the closed session `s` and
     * save it when the file is writable; the registry is not touched.
     */
    method AppendRecord(s: Session, user: UserId, now: Time, today: string, dir: Directory, writable: bool)
      returns (outcome: Outcome)
      modifies this`sheet, this`file
      ensures Open(old(file), writable).None? ==>
        outcome == StoreUnavailable && sheet == old(sheet) && file == old(file)
      ensures Open(old(file), writable).Some? ==>
        var rows := Open(old(file), writable).value;
        var row := RecordRow(s, user, now, today, dir);
        outcome == Recorded(row, writable) && sheet == rows + [row]
        && file == Stored(if writable then sheet else rows)
    {
      var ok := OpenSheet(writable);
      if !ok {
        return StoreUnavailable;
      }
      var row := RecordRow(s, user, now, today, dir);
      sheet := sheet + [row];
      if writable {
        file := Stored(sheet);
      }
      outcome := Recorded(row, writable);
    }

    /**
     * Finish as its comments intend it: the total is computed without
     * touching the entry, and the session is dropped only once the
     * record is on file, so a failed finish can be retried.
     */
    method FinishRetryable(actor: UserId, owner: UserId, now: Time, today: string, dir: Directory, writable: bool)
      returns (outcome: Outcome)
      requires Valid() && ClockAfter(now)
      modifies this`sheet, this`file, this`sessions, this`history
      ensures Valid() && ClockAfter(now)
      ensures actor != owner ==>
        outcome == Rejected(NotOwner) && sessions == old(sessions) && history == old(history)
        && sheet == old(sheet) && file == old(file)
      ensures actor == owner && owner !in old(sessions) ==>
        outcome == Rejected(NoOpenSession) && sessions == old(sessions) && history == old(history)
        && sheet == old(sheet) && file == old(file)
      ensures actor == owner && owner in old(sessions) && Open(old(file), writable).None? ==>
        outcome == StoreUnavailable && sessions == old(sessions) && history == old(history)
        && sheet == old(sheet) && file == old(file)
      ensures actor == owner && owner in old(sessions) && Open(old(file), writable).Some? ==>
        var rows := Open(old(file), writable).value;
        var row := RecordRow(ClosedAt(old(sessions)[owner], now), owner, now, today, dir);
        outcome == Recorded(row, writable) && sheet == rows + [row]
        && file == Stored(if writable then sheet else rows)
        && sessions == (if writable then old(sessions) - {owner} else old(sessions))
        && history == (if writable then old(history) - {owner} else old(history))
        && ClosedAt(old(sessions)[owner], now).worked == ActiveTime(old(history)[owner], now)
    {
      if actor != owner {
        return Rejected(NotOwner);
      }
      if owner !in sessions {
        return Rejected(NoOpenSession);
      }
      var closing := ClosedAt(sessions[owner], now);
      ClosedWorked(sessions[owner], history[owner], now);
      outcome := AppendRecord(closing, owner, now, today, dir, writable);
      assert closing == ClosedAt(old(sessions)[owner], now);
      if outcome.Recorded? && writable {
        sessions := sessions - {owner};
        history := history - {owner};
        AccountedRemove(old(sessions), old(history), owner);
      }
    }
  }
}
