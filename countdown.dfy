/** The reveal gate and countdown of lib/countdown.ts. Scores stay hidden
    until a fixed instant; before it, the page shows the time left, split into
    days, hours, minutes and seconds and written out in Norwegian. The clock
    is a parameter: `now` is a Unix time in milliseconds. */
module Countdown {
  import opened Common

  /** 2025-12-24T18:00:00+01:00 as milliseconds since the Unix epoch. */
  const RevealDate: int := 1766595600000

  const MsPerSecond: int := 1000
  const MsPerMinute: int := 1000 * 60
  const MsPerHour: int := 1000 * 60 * 60
  const MsPerDay: int := 1000 * 60 * 60 * 24

  /** shouldRevealScores: the reveal instant itself already counts. */
  predicate ShouldRevealScores(now: int)
  {
    now >= RevealDate
  }

  datatype TimeLeft = TimeLeft(days: int, hours: int, minutes: int, seconds: int, total: int)

  /** getTimeUntilReveal. The difference is positive in the split branch, so
      Math.floor and % agree with Dafny's / and % there. */
  function TimeUntilReveal(now: int): (t: TimeLeft)
    ensures RevealDate - now <= 0 ==> t == TimeLeft(0, 0, 0, 0, 0)
    ensures RevealDate - now > 0 ==> t.total == RevealDate - now
    ensures RevealDate - now > 0 ==>
              t.days >= 0 && 0 <= t.hours < 24 && 0 <= t.minutes < 60 && 0 <= t.seconds < 60
    ensures RevealDate - now > 0 ==>
              0 <= t.total - (t.days * MsPerDay + t.hours * MsPerHour + t.minutes * MsPerMinute + t.seconds * MsPerSecond) < 1000
  {
    var diff := RevealDate - now;
    if diff <= 0 then TimeLeft(0, 0, 0, 0, 0)
    else
      var t := TimeLeft(
        diff / MsPerDay,
        (diff % MsPerDay) / MsPerHour,
        (diff % MsPerHour) / MsPerMinute,
        (diff % MsPerMinute) / MsPerSecond,
        diff);
      Decompose(diff);
      t
  }

  /** The four quotients and the leftover milliseconds add back up to diff. */
  lemma Decompose(diff: int)
    requires diff > 0
    ensures var d, h, m, s := diff / MsPerDay, (diff % MsPerDay) / MsPerHour,
                              (diff % MsPerHour) / MsPerMinute, (diff % MsPerMinute) / MsPerSecond;
            0 <= diff - (d * MsPerDay + h * MsPerHour + m * MsPerMinute + s * MsPerSecond) < 1000
            && 0 <= h < 24 && 0 <= m < 60 && 0 <= s < 60
  {
    HoursOfDay(diff);
    MinutesOfHour(diff);
    SecondsOfMinute(diff);
  }

  /** The part of diff below a whole day is its hour digit plus the rest below an hour. */
  lemma HoursOfDay(x: int)
    requires x > 0
    ensures x % MsPerDay == ((x % MsPerDay) / MsPerHour) * MsPerHour + x % MsPerHour
    ensures 0 <= (x % MsPerDay) / MsPerHour < 24
  {
    var q, r := x / MsPerHour, x % MsPerHour;
    var k, j := q / 24, q % 24;
    assert x == k * MsPerDay + (j * MsPerHour + r);
    DivModUnique(x, MsPerDay, k, j * MsPerHour + r);
    DivModUnique(j * MsPerHour + r, MsPerHour, j, r);
  }

  lemma MinutesOfHour(x: int)
    requires x > 0
    ensures x % MsPerHour == ((x % MsPerHour) / MsPerMinute) * MsPerMinute + x % MsPerMinute
    ensures 0 <= (x % MsPerHour) / MsPerMinute < 60
  {
    var q, r := x / MsPerMinute, x % MsPerMinute;
    var k, j := q / 60, q % 60;
    assert x == k * MsPerHour + (j * MsPerMinute + r);
    DivModUnique(x, MsPerHour, k, j * MsPerMinute + r);
    DivModUnique(j * MsPerMinute + r, MsPerMinute, j, r);
  }

  /** The quotient and remainder are the only ones with 0 <= r < d. */
  lemma DivModUnique(x: int, d: int, q: int, r: int)
    requires d > 0 && 0 <= r < d && x == q * d + r
    ensures x / d == q && x % d == r
  {
    var e := x / d - q;
    assert e * d == r - x % d;
  }

  lemma SecondsOfMinute(x: int)
    requires x > 0
    ensures x % MsPerMinute == ((x % MsPerMinute) / MsPerSecond) * MsPerSecond + x % MsPerSecond
    ensures 0 <= (x % MsPerMinute) / MsPerSecond < 60
  {
    var q, r := x / MsPerSecond, x % MsPerSecond;
    var k, j := q / 60, q % 60;
    assert x == k * MsPerMinute + (j * MsPerSecond + r);
    DivModUnique(x, MsPerMinute, k, j * MsPerSecond + r);
    DivModUnique(j * MsPerSecond + r, MsPerSecond, j, r);
  }

  /** Scores are revealed exactly when the countdown has run out. */
  lemma RevealWhenCountdownDone(now: int)
    ensures ShouldRevealScores(now) <==> TimeUntilReveal(now).total == 0
  {
  }

  /** The units of the countdown text, in the order they are written. */
  datatype Unit = Days | Hours | Minutes | Seconds

  function UnitRank(u: Unit): int
  {
    match u
    case Days => 0
    case Hours => 1
    case Minutes => 2
    case Seconds => 3
  }

  /** One pushed part: a value and its unit. */
  datatype Part = Part(value: int, unit: Unit)

  function ValueOf(t: TimeLeft, u: Unit): int
  {
    match u
    case Days => t.days
    case Hours => t.hours
    case Minutes => t.minutes
    case Seconds => t.seconds
  }

  /** A unit is written when its value is positive; seconds only when no
      whole day is left. */
  predicate Shown(t: TimeLeft, u: Unit)
  {
    ValueOf(t, u) > 0 && (u == Seconds ==> t.days == 0)
  }

  /** The parts formatCountdown pushes, in push order. */
  function Parts(t: TimeLeft): (ps: seq<Part>)
    ensures forall i :: 0 <= i < |ps| ==> Shown(t, ps[i].unit) && ps[i].value == ValueOf(t, ps[i].unit)
    ensures forall i, j :: 0 <= i < j < |ps| ==> UnitRank(ps[i].unit) < UnitRank(ps[j].unit)
  {
    (if Shown(t, Days) then [Part(t.days, Days)] else [])
    + (if Shown(t, Hours) then [Part(t.hours, Hours)] else [])
    + (if Shown(t, Minutes) then [Part(t.minutes, Minutes)] else [])
    + (if Shown(t, Seconds) then [Part(t.seconds, Seconds)] else [])
  }

  /** Every shown unit has its part: with the ensures of Parts, a unit is
      written exactly when it is shown. */
  lemma PartsComplete(t: TimeLeft, u: Unit)
    requires Shown(t, u)
    ensures exists i :: 0 <= i < |Parts(t)| && Parts(t)[i] == Part(ValueOf(t, u), u)
  {
    var ps := Parts(t);
    var before := |(if Shown(t, Days) then [Part(t.days, Days)] else [])|
                + |(if Shown(t, Hours) then [Part(t.hours, Hours)] else [])|
                + |(if Shown(t, Minutes) then [Part(t.minutes, Minutes)] else [])|;
    match u
    case Days => assert ps[0] == Part(t.days, Days);
    case Hours =>
      var i := |(if Shown(t, Days) then [Part(t.days, Days)] else [])|;
      assert ps[i] == Part(t.hours, Hours);
    case Minutes =>
      var i := |(if Shown(t, Days) then [Part(t.days, Days)] else [])|
             + |(if Shown(t, Hours) then [Part(t.hours, Hours)] else [])|;
      assert ps[i] == Part(t.minutes, Minutes);
    case Seconds => assert ps[before] == Part(t.seconds, Seconds);
  }

  function Word(u: Unit): string
  {
    match u
    case Days => "dag"
    case Hours => "time"
    case Minutes => "minutt"
    case Seconds => "sekund"
  }

  function PluralSuffix(u: Unit): string
  {
    match u
    case Days => "er"
    case Hours => "r"
    case Minutes => "er"
    case Seconds => "er"
  }

  /** The template literal of a part, such as "3 dager" or "1 time". */
  function Render(p: Part): string
  {
    IntToString(p.value) + " " + Word(p.unit) + (if p.value != 1 then PluralSuffix(p.unit) else "")
  }

  /** A rendered part starts with the decimal digits of its value, which read
      back as the value, followed by a space and the unit's word; the plural
      suffix follows exactly when the value is not 1. */
  lemma RenderReadsBack(p: Part)
    requires p.value > 0
    ensures var digits := NatToString(p.value);
            var text := Render(p);
            text[..|digits|] == digits && DigitsValue(digits) == p.value
            && text[|digits|..] == " " + Word(p.unit) + (if p.value != 1 then PluralSuffix(p.unit) else "")
  {
    var digits := NatToString(p.value);
    var rest := " " + Word(p.unit) + (if p.value != 1 then PluralSuffix(p.unit) else "");
    assert IntToString(p.value) == digits;
    assert Render(p) == digits + rest;
    SplitConcat(digits, rest);
    DigitsValueOfNatToString(p.value);
  }

  lemma SplitConcat<T>(a: seq<T>, b: seq<T>)
    ensures (a + b)[..|a|] == a && (a + b)[|a|..] == b
  {
  }

  /** The parts joined with a separator between neighbours. */
  function Join(parts: seq<string>, sep: string): (s: string)
    ensures parts == [] ==> s == ""
    ensures |parts| == 1 ==> s == parts[0]
    decreases |parts|
  {
    if parts == [] then ""
    else if |parts| == 1 then parts[0]
    else parts[0] + sep + Join(parts[1..], sep)
  }

  /** The fixed text once the countdown is over. The source file holds the
      UTF-8 bytes of "nå" read as Latin-1, so the literal is "nÃ¥". */
  const RevealedText: string := "Poengene er n\U{00C3}\U{00A5} synlige!"

  /** The value of formatCountdown. */
  function CountdownText(t: TimeLeft): string
  {
    if t.total <= 0 then RevealedText
    else Join(RenderAll(Parts(t)), ", ")
  }

  function RenderAll(ps: seq<Part>): (texts: seq<string>)
    ensures |texts| == |ps|
    ensures forall i :: 0 <= i < |ps| ==> texts[i] == Render(ps[i])
  {
    if ps == [] then [] else [Render(ps[0])] + RenderAll(ps[1..])
  }

  lemma RenderAllSnoc(ps: seq<Part>, p: Part)
    ensures RenderAll(ps + [p]) == RenderAll(ps) + [Render(p)]
  {
    assert forall i :: 0 <= i < |ps| ==> (ps + [p])[i] == ps[i];
  }

  /** formatCountdown: pushes the part of every shown unit and joins them. */
  method FormatCountdown(time: TimeLeft) returns (text: string)
    ensures text == CountdownText(time)
  {
    if time.total <= 0 {
      return RevealedText;
    }
    var parts := ShownParts(time);
    text := Join(parts, ", ");
  }

  /** The pushes of formatCountdown: the rendered part of every shown unit. */
  method ShownParts(time: TimeLeft) returns (parts: seq<string>)
    ensures parts == RenderAll(Parts(time))
  {
    parts := [];
    ghost var pushed: seq<Part> := [];
    ghost var d := if Shown(time, Days) then [Part(time.days, Days)] else [];
    ghost var h := if Shown(time, Hours) then [Part(time.hours, Hours)] else [];
    ghost var m := if Shown(time, Minutes) then [Part(time.minutes, Minutes)] else [];
    ghost var sec := if Shown(time, Seconds) then [Part(time.seconds, Seconds)] else [];
    if time.days > 0 {
      RenderAllSnoc(pushed, Part(time.days, Days));
      parts := parts + [Render(Part(time.days, Days))];
      pushed := pushed + [Part(time.days, Days)];
    }
    assert pushed == d;
    if time.hours > 0 {
      RenderAllSnoc(pushed, Part(time.hours, Hours));
      parts := parts + [Render(Part(time.hours, Hours))];
      pushed := pushed + [Part(time.hours, Hours)];
    }
    assert pushed == d + h;
    if time.minutes > 0 {
      RenderAllSnoc(pushed, Part(time.minutes, Minutes));
      parts := parts + [Render(Part(time.minutes, Minutes))];
      pushed := pushed + [Part(time.minutes, Minutes)];
    }
    assert pushed == d + h + m;
    if time.days == 0 && time.seconds > 0 {
      RenderAllSnoc(pushed, Part(time.seconds, Seconds));
      parts := parts + [Render(Part(time.seconds, Seconds))];
      pushed := pushed + [Part(time.seconds, Seconds)];
    }
    assert pushed == d + h + m + sec;
  }

  /** Once the reveal instant has passed, the countdown shows the fixed text. */
  lemma TextAfterReveal(now: int)
    requires ShouldRevealScores(now)
    ensures CountdownText(TimeUntilReveal(now)) == RevealedText
  {
  }

  /** In the last second before the reveal no unit is shown, so the
      countdown text is empty. */
  lemma LastSecondIsBlank(now: int)
    requires RevealDate - 1000 < now < RevealDate
    ensures CountdownText(TimeUntilReveal(now)) == ""
  {
    var t := TimeUntilReveal(now);
    assert t.days == 0 && t.hours == 0 && t.minutes == 0 && t.seconds == 0;
    assert Parts(t) == [];
  }

  /** Ninety seconds before the reveal one minute and thirty seconds are left. */
  lemma NinetySecondsBefore()
    ensures TimeUntilReveal(RevealDate - 90000) == TimeLeft(0, 0, 1, 30, 90000)
  {
  }

  /** ... and the countdown reads "1 minutt, 30 sekunder". */
  lemma NinetySecondsText()
    ensures CountdownText(TimeLeft(0, 0, 1, 30, 90000)) == "1 minutt, 30 sekunder"
  {
    NinetySecondsParts();
    JoinTwo("1 minutt", "30 sekunder", ", ");
    NinetySecondsLiteral();
  }

  lemma NinetySecondsLiteral()
    ensures "1 minutt" + ", " + "30 sekunder" == "1 minutt, 30 sekunder"
  {
  }

  lemma NinetySecondsParts()
    ensures RenderAll(Parts(TimeLeft(0, 0, 1, 30, 90000))) == ["1 minutt", "30 sekunder"]
  {
    var t := TimeLeft(0, 0, 1, 30, 90000);
    assert Parts(t) == [Part(1, Minutes), Part(30, Seconds)];
    OneMinuteText();
    ThirtySecondsText();
  }

  lemma JoinTwo(a: string, b: string, sep: string)
    ensures Join([a, b], sep) == a + sep + b
  {
    assert [a, b][1..] == [b];
  }

  lemma OneMinuteText()
    ensures Render(Part(1, Minutes)) == "1 minutt"
  {
    assert IntToString(1) == "1";
  }

  lemma ThirtySecondsText()
    ensures Render(Part(30, Seconds)) == "30 sekunder"
  {
    assert NatToString(3) == "3";
    assert IntToString(30) == "30";
  }
}
