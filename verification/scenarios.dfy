/**
 * Worked examples of the bot's behaviour, and the two ways the finish
 * handler as written departs from what its comments intend.
 */
module Scenarios {
  import opened Wrappers
  import opened Decimal
  import opened TimeText
  import opened Platform
  import opened Lifecycle
  import opened RecordStore
  import opened TimeClock

  lemma SmallNumerals()
    ensures FromNat(0) == "0" && FromNat(1) == "1" && FromNat(2) == "2" && FromNat(59) == "59"
  {
    assert FromNat(5) == [DigitChar(5)];
    assert FromNat(59) == FromNat(5) + [DigitChar(9)];
  }

  lemma RenderOnes()
    ensures RenderPart(Part(1, Hour)) == "1 hora"
    ensures RenderPart(Part(1, Minute)) == "1 minuto"
    ensures RenderPart(Part(1, Second)) == "1 segundo"
  {
    SmallNumerals();
  }

  lemma JoinOnes()
    ensures Join([Part(1, Hour), Part(1, Minute), Part(1, Second)]) == "1 hora, 1 minuto, 1 segundo"
  {
    RenderOnes();
    var ps := [Part(1, Hour), Part(1, Minute), Part(1, Second)];
    assert ps[1..][1..] == [ps[2]];
    assert Join(ps[1..]) == "1 minuto" + ", " + "1 segundo";
  }

  /** One hour, one minute and one second is written with every unit in the singular. */
  lemma FormatOneOfEach()
    ensures FormatTotal(3661 * MICROS_PER_SECOND) == "1 hora, 1 minuto, 1 segundo"
  {
    assert (3661 * MICROS_PER_SECOND) / MICROS_PER_SECOND == 3661;
    assert Components(3661) == [Part(1, Hour), Part(1, Minute), Part(1, Second)];
    JoinOnes();
  }

  /** Nothing worked is "0 segundo", in the singular. */
  lemma FormatNothing()
    ensures FormatTotal(0) == "0 segundo"
  {
    SmallNumerals();
    assert Components(0) == [Part(0, Second)];
  }

  /** Just under a minute is whole seconds, in the plural; the microseconds are dropped. */
  lemma FormatUnderAMinute()
    ensures FormatTotal(59 * MICROS_PER_SECOND + 999_999) == "59 segundos"
  {
    SmallNumerals();
    assert (59 * MICROS_PER_SECOND + 999_999) / MICROS_PER_SECOND == 59;
    assert Components(59) == [Part(59, Second)];
  }

  /** Whole hours name only the hours. */
  lemma FormatTwoHours()
    ensures FormatTotal(7200 * MICROS_PER_SECOND) == "2 horas"
  {
    SmallNumerals();
    assert Components(7200) == [Part(2, Hour)];
  }

  /**
   * A failed finish leaves the running period in the total while the
   * session stays active from the same instant; pausing it later counts
   * that period a second time, beyond the session's real active time.
   */
  lemma FailedFinishOvercounts(s: Session, b: seq<Time>, failedAt: Time, pausedAt: Time)
    requires Accounts(s, b) && s.status == Active
    requires s.periodStart <= failedAt <= pausedAt
    ensures ClosedAt(s, failedAt).status == Active
    ensures PausedAt(ClosedAt(s, failedAt), pausedAt).worked
      == ActiveTime(b, pausedAt) + (failedAt - s.periodStart)
    ensures PausedAt(s, pausedAt).worked == ActiveTime(b, pausedAt)
  {
    ClosedActiveSnoc(b, pausedAt);
  }

  /**
   * The same failure followed by a second finish: the closing adds the
   * running period again, so the total written is the session's active
   * time plus the period counted by the failed finish.
   */
  lemma RetryFinishOvercounts(s: Session, b: seq<Time>, failedAt: Time, finishedAt: Time)
    requires Accounts(s, b) && s.status == Active
    requires s.periodStart <= failedAt <= finishedAt
    ensures ClosedAt(ClosedAt(s, failedAt), finishedAt).worked
      == ActiveTime(b, finishedAt) + (failedAt - s.periodStart)
  {
    ClosedActiveSnoc(b, finishedAt);
  }

  lemma ClockExamples()
    ensures ClockTime(9 * 3600 * MICROS_PER_SECOND) == "09:00:00"
    ensures ClockTime((10 * 3600 + 900) * MICROS_PER_SECOND) == "10:15:00"
  {
    assert TwoDigits(9) == "09" && TwoDigits(0) == "00";
    assert TwoDigits(10) == "10" && TwoDigits(15) == "15";
    assert (9 * 3600 * MICROS_PER_SECOND) / MICROS_PER_SECOND % SECONDS_PER_DAY == 9 * 3600;
    assert ((10 * 3600 + 900) * MICROS_PER_SECOND) / MICROS_PER_SECOND % SECONDS_PER_DAY == 10 * 3600 + 900;
  }

  /**
   * A workday: start at 09:00, pause at 09:30, resume at 09:45 and
   * finish at 10:15 gives the row with those clock times and one hour
   * worked.
   */
  lemma Workday(dir: Directory, user: UserId, channel: ChannelId, today: string)
    ensures var m := MICROS_PER_SECOND;
      var s := ResumedAt(PausedAt(Started(9 * 3600 * m, channel), (9 * 3600 + 1800) * m), (9 * 3600 + 2700) * m);
      var row := RecordRow(ClosedAt(s, (10 * 3600 + 900) * m), user, (10 * 3600 + 900) * m, today, dir);
      row == [DisplayName(dir, channel, user), today, "09:00:00", "10:15:00", "1 hora"]
  {
    var m := MICROS_PER_SECOND;
    var s := ResumedAt(PausedAt(Started(9 * 3600 * m, channel), (9 * 3600 + 1800) * m), (9 * 3600 + 2700) * m);
    var closed := ClosedAt(s, (10 * 3600 + 900) * m);
    assert closed.worked == 3600 * m;
    assert closed.startedAt == 9 * 3600 * m;
    ClockExamples();
    SmallNumerals();
    assert Components(3600) == [Part(1, Hour)];
    assert FormatTotal(closed.worked) == "1 hora";
  }

  /**
   * A finish whose save fails, as written: the record never reaches the
   * file, and the session it came from is gone as well.
   */
  method LostRecord(user: UserId, channel: ChannelId, message: MessageId, startAt: Time, finishAt: Time,
                    today: string, dir: Directory)
    returns (kept: bool, onFile: StoredFile)
    requires startAt <= finishAt
    ensures !kept && onFile == Stored([HEADERS])
  {
    FreshSheetMatches();
    var bot := new Bot(Stored([HEADERS]));
    var started := bot.Start(user, channel, message, startAt);
    var finished := bot.Finish(user, user, finishAt, today, dir, false);
    kept := user in bot.sessions;
    onFile := bot.file;
  }

  /**
   * The same failed save with the retryable finish leaves the session
   * exactly as it was, with nothing added to its total, and the file as
   * it was: the finish can simply be tried again.
   */
  method RetryKeepsRecord(user: UserId, channel: ChannelId, message: MessageId,
                          startAt: Time, failAt: Time, today: string, dir: Directory)
    returns (kept: Option<Session>, onFile: StoredFile)
    requires startAt <= failAt
    ensures kept == Some(Session(startAt, startAt, 0, Active, Some(message), channel))
    ensures onFile == Stored([HEADERS])
  {
    FreshSheetMatches();
    var bot := new Bot(Stored([HEADERS]));
    var started := bot.Start(user, channel, message, startAt);
    var first := bot.FinishRetryable(user, user, failAt, today, dir, false);
    kept := if user in bot.sessions then Some(bot.sessions[user]) else None;
    onFile := bot.file;
  }

  /**
   * The finish as written, tried first while the workbook is missing and
   * cannot be created, then again once it can: the record written counts
   * the period up to the failed attempt twice.
   */
  method FinishTwiceOvercounts(user: UserId, channel: ChannelId, message: MessageId,
                               startAt: Time, failAt: Time, finishAt: Time, today: string, dir: Directory)
    returns (first: Outcome, onFile: StoredFile)
    requires startAt <= failAt <= finishAt
    ensures first == StoreUnavailable
    ensures ActiveTime([startAt], finishAt) == finishAt - startAt
    ensures onFile == Stored([HEADERS] + [RecordRow(
      Session(startAt, startAt, (finishAt - startAt) + (failAt - startAt), Active, Some(message), channel),
      user, finishAt, today, dir)])
  {
    var bot := new Bot(Missing);
    var started := bot.Start(user, channel, message, startAt);
    ghost var entry := Session(startAt, startAt, 0, Active, Some(message), channel);
    assert bot.sessions == map[user := entry];
    first := bot.Finish(user, user, failAt, today, dir, false);
    ghost var failed := ClosedAt(entry, failAt);
    assert bot.sessions == map[user := failed];
    StartedAccounts(startAt, channel);
    RetryFinishOvercounts(entry, [startAt], failAt, finishAt);
    ghost var closing := Session(startAt, startAt, (finishAt - startAt) + (failAt - startAt), Active, Some(message), channel);
    assert ClosedAt(failed, finishAt) == closing;
    assert Open(Missing, true) == Some([HEADERS]);
    var second := bot.Finish(user, user, finishAt, today, dir, true);
    assert bot.file == Stored([HEADERS] + [RecordRow(closing, user, finishAt, today, dir)]);
    onFile := bot.file;
  }

  /**
   * After that failed save, once the file can be written, finishing the
   * same session puts its record on file after the header, with the time
   * worked up to the finish counted once.
   */
  method RetryRecords(user: UserId, channel: ChannelId, message: MessageId,
                      startAt: Time, failAt: Time, finishAt: Time, today: string, dir: Directory)
    returns (stillOpen: bool, onFile: StoredFile)
    requires startAt <= failAt <= finishAt
    ensures !stillOpen
    ensures onFile == Stored([HEADERS] +
      [RecordRow(Session(startAt, startAt, finishAt - startAt, Active, Some(message), channel), user, finishAt, today, dir)])
  {
    FreshSheetMatches();
    var bot := new Bot(Stored([HEADERS]));
    var started := bot.Start(user, channel, message, startAt);
    ghost var entry := Session(startAt, startAt, 0, Active, Some(message), channel);
    assert bot.sessions == map[user := entry];
    var failed := bot.FinishRetryable(user, user, failAt, today, dir, false);
    assert bot.sessions == map[user := entry] && bot.file == Stored([HEADERS]);
    ghost var closing := Session(startAt, startAt, finishAt - startAt, Active, Some(message), channel);
    assert ClosedAt(entry, finishAt) == closing;
    assert Open(Stored([HEADERS]), true) == Some([HEADERS]);
    var finished := bot.FinishRetryable(user, user, finishAt, today, dir, true);
    assert bot.file == Stored([HEADERS] + [RecordRow(closing, user, finishAt, today, dir)]);
    stillOpen := user in bot.sessions;
    onFile := bot.file;
  }
}
