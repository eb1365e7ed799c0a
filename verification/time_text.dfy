/**
 * Text for durations and clock times as the time clock writes them into
 * its records: the Portuguese duration phrase of `_formatar_tempo_total`
 * ("1 hora, 1 minuto, 1 segundo") and the `%H:%M:%S` time of day.
 */
module TimeText {
  import opened Wrappers
  import opened Decimal

  /** Timestamps and durations are counted in microseconds, like `timedelta`. */
  const MICROS_PER_SECOND: nat := 1_000_000
  const SECONDS_PER_DAY: nat := 86400

  datatype Unit = Hour | Minute | Second

  function Weight(u: Unit): nat {
    match u
    case Hour => 3600
    case Minute => 60
    case Second => 1
  }

  function Rank(u: Unit): nat {
    match u
    case Hour => 2
    case Minute => 1
    case Second => 0
  }

  function Word(u: Unit): string {
    match u
    case Hour => "hora"
    case Minute => "minuto"
    case Second => "segundo"
  }

  /** One component of a duration phrase, such as "30 minutos". */
  datatype Part = Part(value: nat, unit: Unit)

  /** The number of seconds a list of components stands for. */
  function Sum(ps: seq<Part>): nat {
    if ps == [] then 0 else ps[0].value * Weight(ps[0].unit) + Sum(ps[1..])
  }

  /**
   * The shape every phrase has: one to three components in hour, minute,
   * second order, each unit at most once, minutes and seconds below 60,
   * and no zero component except the lone "0 segundo".
   */
  predicate WellFormed(ps: seq<Part>) {
    |ps| >= 1
    && (forall i, j :: 0 <= i < j < |ps| ==> Rank(ps[i].unit) > Rank(ps[j].unit))
    && (forall i :: 0 <= i < |ps| && ps[i].unit != Hour ==> ps[i].value < 60)
    && (ps == [Part(0, Second)] || forall i :: 0 <= i < |ps| ==> ps[i].value > 0)
  }

  /**
   * The components for `h` hours, `m` minutes and `s` seconds: hours and
   * minutes only when non-zero, seconds when non-zero or when nothing
   * precedes them.
   */
  function Assemble(h: nat, m: nat, s: nat): seq<Part>
    requires m < 60 && s < 60
  {
    var hs := if h > 0 then [Part(h, Hour)] else [];
    var ms := if m > 0 then [Part(m, Minute)] else [];
    var ss := if s > 0 || hs + ms == [] then [Part(s, Second)] else [];
    hs + ms + ss
  }

  /** The assembled parts are well formed, add up to the duration, and are "0 segundo" only for nothing. */
  lemma AssembleShape(h: nat, m: nat, s: nat)
    requires m < 60 && s < 60
    ensures var ps := Assemble(h, m, s);
      WellFormed(ps) && Sum(ps) == h * 3600 + m * 60 + s
      && (ps == [Part(0, Second)] <==> h == 0 && m == 0 && s == 0)
  {
    var hs := if h > 0 then [Part(h, Hour)] else [];
    var ms := if m > 0 then [Part(m, Minute)] else [];
    var ss := if s > 0 || hs + ms == [] then [Part(s, Second)] else [];
    var ps := hs + ms + ss;
    assert Sum(ss) == s;
    assert Sum(ms + ss) == m * 60 + s by {
      if ms != [] { assert (ms + ss)[1..] == ss; }
    }
    assert Sum(ps) == h * 3600 + m * 60 + s by {
      if hs != [] { assert ps[1..] == ms + ss; }
    }
  }

  /** The components `_formatar_tempo_total` collects for a whole number of seconds. */
  function Components(seconds: nat): seq<Part> {
    Assemble(seconds / 3600, seconds % 3600 / 60, seconds % 60)
  }

  /** The components are well formed and add up to the seconds; the lone "0 segundo" is for zero only. */
  lemma ComponentsShape(seconds: nat)
    ensures WellFormed(Components(seconds)) && Sum(Components(seconds)) == seconds
    ensures Components(seconds) == [Part(0, Second)] <==> seconds == 0
  {
    var h, m, s := seconds / 3600, seconds % 3600 / 60, seconds % 60;
    SplitSeconds(seconds);
    AssembleShape(h, m, s);
  }

  lemma SplitSeconds(seconds: nat)
    ensures seconds % 3600 / 60 < 60 && seconds % 60 < 60
    ensures seconds == seconds / 3600 * 3600 + seconds % 3600 / 60 * 60 + seconds % 60
  {
    var q, r := seconds / 3600, seconds % 3600;
    var m, s := r / 60, r % 60;
    assert seconds == q * 3600 + r;
    assert r == m * 60 + s;
    assert seconds == (q * 60 + m) * 60 + s;
    QuotientBySixty(seconds, q * 60 + m, s);
  }


  /** Any well-formed list of components with the right total is the one `Components` builds. */
  lemma ComponentsUnique(ps: seq<Part>, seconds: nat)
    requires WellFormed(ps) && Sum(ps) == seconds
    ensures ps == Components(seconds)
  {
    var h := if ps[0].unit == Hour then ps[0].value else 0;
    var rest := if ps[0].unit == Hour then ps[1..] else ps;
    var m := if rest != [] && rest[0].unit == Minute then rest[0].value else 0;
    var tail := if rest != [] && rest[0].unit == Minute then rest[1..] else rest;
    LaterUnits(ps);
    assert |tail| <= 1 && (tail != [] ==> tail[0].unit == Second);
    var s := if tail != [] then tail[0].value else 0;
    assert Sum(ps) == h * 3600 + Sum(rest) by {
      if ps[0].unit == Hour { assert ps == [ps[0]] + rest; }
    }
    assert Sum(rest) == m * 60 + Sum(tail) by {
      if rest != [] && rest[0].unit == Minute { assert rest == [rest[0]] + tail; }
    }
    assert Sum(tail) == s;
    assert m < 60 && s < 60;
    SplitUnique(h, m, s);
    if h > 0 {
      assert ps == [Part(h, Hour)] + rest;
    }
    if m > 0 {
      assert rest == [Part(m, Minute)] + tail;
    }
  }

  /** In a well-formed list nothing follows the seconds, and only the seconds can follow the minutes. */
  lemma LaterUnits(ps: seq<Part>)
    requires WellFormed(ps)
    ensures forall i :: 0 <= i < |ps| - 1 ==> ps[i].unit != Second
    ensures forall i :: 0 <= i < |ps| - 1 && ps[i].unit == Minute ==> ps[i + 1].unit == Second
    ensures forall i :: 1 <= i < |ps| ==> ps[i].unit != Hour
  {
    forall i | 0 <= i < |ps| - 1
      ensures ps[i].unit != Second
      ensures ps[i].unit == Minute ==> ps[i + 1].unit == Second
    {
      assert Rank(ps[i].unit) > Rank(ps[i + 1].unit);
    }
    forall i | 1 <= i < |ps|
      ensures ps[i].unit != Hour
    {
      assert Rank(ps[0].unit) > Rank(ps[i].unit);
    }
  }

  /** Hours, minutes below 60 and seconds below 60 are recovered from their total. */
  lemma SplitUnique(h: nat, m: nat, s: nat)
    requires m < 60 && s < 60
    ensures var x := h * 3600 + m * 60 + s;
      x / 3600 == h && x % 3600 / 60 == m && x % 60 == s
  {
    var x := h * 3600 + m * 60 + s;
    QuotientBy3600(x, h, m * 60 + s);
    QuotientBySixty(m * 60 + s, m, s);
    QuotientBySixty(x, h * 60 + m, s);
  }

  lemma QuotientBy3600(x: nat, k: nat, r: nat)
    requires r < 3600 && x == k * 3600 + r
    ensures x / 3600 == k && x % 3600 == r
  {
    var d := x / 3600;
    assert x == d * 3600 + x % 3600;
    assert (k - d) * 3600 == x % 3600 - r;
  }

  lemma QuotientBySixty(x: nat, k: nat, r: nat)
    requires r < 60 && x == k * 60 + r
    ensures x / 60 == k && x % 60 == r
  {
    var d := x / 60;
    assert x == d * 60 + x % 60;
    assert (k - d) * 60 == x % 60 - r;
  }

  /** One component as Python's f-string renders it, plural when the value exceeds one. */
  function RenderPart(p: Part): string {
    FromNat(p.value) + " " + Word(p.unit) + (if p.value > 1 then "s" else "")
  }

  /** `", ".join` of the rendered components. */
  function Join(ps: seq<Part>): string {
    if ps == [] then ""
    else if |ps| == 1 then RenderPart(ps[0])
    else RenderPart(ps[0]) + ", " + Join(ps[1..])
  }

  /**
   * `_formatar_tempo_total`: the phrase for a worked duration, given in
   * microseconds and truncated to whole seconds.
   */
  function FormatTotal(worked: nat): string {
    Join(Components(worked / MICROS_PER_SECOND))
  }

  /** A phrase starts with the first digit of its first component. */
  lemma JoinHead(ps: seq<Part>)
    requires ps != []
    ensures |Join(ps)| >= 1 && Join(ps)[0] == FromNat(ps[0].value)[0]
  {
    FromNatDigits(ps[0].value);
    var first := RenderPart(ps[0]);
    assert first[0] == FromNat(ps[0].value)[0];
    if |ps| > 1 {
      assert Join(ps) == first + (", " + Join(ps[1..]));
    }
  }

  /** The phrase is never empty, and it is the singular "0 segundo" exactly below one second. */
  lemma FormatTotalZero(worked: nat)
    ensures FormatTotal(worked) != ""
    ensures FormatTotal(worked) == "0 segundo" <==> worked < MICROS_PER_SECOND
  {
    var x := worked / MICROS_PER_SECOND;
    var ps := Components(x);
    ComponentsShape(x);
    JoinHead(ps);
    if x == 0 {
      assert ps == [Part(0, Second)];
      assert FromNat(0) == "0";
      assert Join(ps) == RenderPart(Part(0, Second));
    } else {
      assert ps[0].value > 0;
      FromNatDigits(ps[0].value);
      assert Join(ps)[0] != '0';
    }
  }

  // Reading a phrase back

  function ParseWord(s: string): Option<(Unit, string)> {
    if |s| >= 4 && s[..4] == "hora" then Some((Hour, s[4..]))
    else if |s| >= 6 && s[..6] == "minuto" then Some((Minute, s[6..]))
    else if |s| >= 7 && s[..7] == "segundo" then Some((Second, s[7..]))
    else None
  }

  /** Reads one component off the front of `s`, insisting on the plural agreement. */
  function ParsePart(s: string): (r: Option<(Part, string)>)
    ensures r.Some? ==> |r.value.1| < |s|
  {
    var k := DigitRun(s);
    if k == 0 || k == |s| || s[k] != ' ' then None
    else
      match ParseWord(s[k + 1..])
      case None => None
      case Some((u, rest)) =>
        var n := Value(s[..k]);
        var plural := rest != [] && rest[0] == 's';
        if plural != (n > 1) then None
        else Some((Part(n, u), if plural then rest[1..] else rest))
  }

  /** Reads a comma-separated list of components. */
  function ParseParts(s: string): Option<seq<Part>>
    decreases |s|
  {
    match ParsePart(s)
    case None => None
    case Some((p, rest)) =>
      if rest == [] then Some([p])
      else if |rest| >= 2 && rest[..2] == ", " then
        match ParseParts(rest[2..])
        case None => None
        case Some(ps) => Some([p] + ps)
      else None
  }

  lemma ParseWordOf(u: Unit, rest: string)
    ensures ParseWord(Word(u) + rest) == Some((u, rest))
  {
    var s := Word(u) + rest;
    match u
    case Hour => assert s[..4] == "hora";
    case Minute =>
      assert s[..6] == "minuto";
      assert s[0] == 'm';
    case Second =>
      assert s[..7] == "segundo";
      assert s[0] == 's';
  }

  /** A run of digits, a space, a unit word and its agreeing suffix read as one component. */
  lemma ParsePartOfPieces(digits: string, u: Unit, after: string, rest: string)
    requires digits != [] && AllDigits(digits)
    requires rest == [] || rest[0] == ','
    requires after == (if Value(digits) > 1 then "s" else "") + rest
    ensures ParsePart(digits + ([' '] + (Word(u) + after))) == Some((Part(Value(digits), u), rest))
  {
    var tail := [' '] + (Word(u) + after);
    var s := digits + tail;
    DigitRunStopsAt(digits, tail);
    var k := |digits|;
    assert s[..k] == digits;
    assert s[k] == ' ';
    assert s[k + 1..] == Word(u) + after;
    ParseWordOf(u, after);
    if Value(digits) > 1 {
      assert after[0] == 's' && after[1..] == rest;
    } else {
      assert after == rest;
    }
  }

  lemma ParsePartOf(p: Part, rest: string)
    requires rest == [] || rest[0] == ','
    ensures ParsePart(RenderPart(p) + rest) == Some((p, rest))
  {
    var digits := FromNat(p.value);
    ValueOfFromNat(p.value);
    var after := (if p.value > 1 then "s" else "") + rest;
    assert RenderPart(p) + rest == digits + ([' '] + (Word(p.unit) + after));
    ParsePartOfPieces(digits, p.unit, after, rest);
  }

  /** A last component ends the list. */
  lemma ParsePartsLast(s: string, p: Part)
    requires ParsePart(s) == Some((p, ""))
    ensures ParseParts(s) == Some([p])
  {
  }

  /** A component followed by ", " and a readable list reads as one longer list. */
  lemma ParsePartsCons(s: string, p: Part, t: string, qs: seq<Part>)
    requires ParsePart(s) == Some((p, ", " + t))
    requires ParseParts(t) == Some(qs)
    ensures ParseParts(s) == Some([p] + qs)
  {
    assert (", " + t)[..2] == ", ";
    assert (", " + t)[2..] == t;
  }

  lemma {:induction false} ParseJoin(ps: seq<Part>)
    requires ps != []
    ensures ParseParts(Join(ps)) == Some(ps)
  {
    if |ps| == 1 {
      assert Join(ps) == RenderPart(ps[0]) + "";
      ParsePartOf(ps[0], "");
      ParsePartsLast(Join(ps), ps[0]);
      assert [ps[0]] == ps;
    } else {
      var tail := ", " + Join(ps[1..]);
      assert Join(ps) == RenderPart(ps[0]) + tail;
      ParsePartOf(ps[0], tail);
      ParseJoin(ps[1..]);
      ParsePartsCons(Join(ps), ps[0], Join(ps[1..]), ps[1..]);
      assert [ps[0]] + ps[1..] == ps;
    }
  }

  /** The phrase can be read back, and it gives the whole seconds worked. */
  lemma FormatTotalReadsBack(worked: nat)
    ensures ParseParts(FormatTotal(worked)) == Some(Components(worked / MICROS_PER_SECOND))
    ensures Sum(Components(worked / MICROS_PER_SECOND)) == worked / MICROS_PER_SECOND
  {
    ComponentsShape(worked / MICROS_PER_SECOND);
    ParseJoin(Components(worked / MICROS_PER_SECOND));
  }

  /** Two durations get the same phrase exactly when they have the same whole seconds. */
  lemma FormatTotalInjective(a: nat, b: nat)
    ensures FormatTotal(a) == FormatTotal(b) <==> a / MICROS_PER_SECOND == b / MICROS_PER_SECOND
  {
    FormatTotalReadsBack(a);
    FormatTotalReadsBack(b);
  }

  // Time of day

  function TwoDigits(n: nat): string
    requires n < 100
  {
    [DigitChar(n / 10), DigitChar(n % 10)]
  }

  /** A field below 100 is two digits that read back as it. */
  lemma TwoDigitsReadsBack(n: nat)
    requires n < 100
    ensures |TwoDigits(n)| == 2 && AllDigits(TwoDigits(n)) && Value(TwoDigits(n)) == n
  {
    var s := TwoDigits(n);
    assert s[..1][..0] == [];
    assert Value(s[..1]) == n / 10;
  }

  /** `strftime("%H:%M:%S")` of a local timestamp given in microseconds. */
  function ClockTime(t: nat): string {
    var s := t / MICROS_PER_SECOND % SECONDS_PER_DAY;
    TwoDigits(s / 3600) + ":" + TwoDigits(s % 3600 / 60) + ":" + TwoDigits(s % 60)
  }

  /** The time of day reads back as hours, minutes and seconds of the timestamp's day. */
  lemma ClockTimeReadsBack(t: nat)
    ensures var r := ClockTime(t);
      |r| == 8 && r[2] == ':' && r[5] == ':'
      && AllDigits(r[..2]) && AllDigits(r[3..5]) && AllDigits(r[6..])
      && Value(r[..2]) < 24 && Value(r[3..5]) < 60 && Value(r[6..]) < 60
      && Value(r[..2]) * 3600 + Value(r[3..5]) * 60 + Value(r[6..]) == t / MICROS_PER_SECOND % SECONDS_PER_DAY
  {
    var s := t / MICROS_PER_SECOND % SECONDS_PER_DAY;
    var hh := TwoDigits(s / 3600);
    var mm := TwoDigits(s % 3600 / 60);
    var ss := TwoDigits(s % 60);
    TwoDigitsReadsBack(s / 3600);
    TwoDigitsReadsBack(s % 3600 / 60);
    TwoDigitsReadsBack(s % 60);
    var r := ClockTime(t);
    assert r[..2] == hh && r[3..5] == mm && r[6..] == ss;
  }
}
