/**
 `get_datetime`: an approximate date from the relative text Maps shows on a review
 ("last 2 days", "an hour ago", "3 years ago"). The current time is a parameter and the
 result is the delta to subtract from it, with the current time's seconds and
 microseconds zeroed.
 */
module RelDate {
  import opened Wrappers
  import opened PyText

  datatype Unit = Minutes | Hours | Days | Weeks | Months | Years

  /** The word whose presence in the text selects the unit. */
  function UnitWord(u: Unit): string {
    match u
    case Minutes => "minute"
    case Hours => "hour"
    case Days => "day"
    case Weeks => "week"
    case Months => "month"
    case Years => "year"
  }

  /** The order in which GHunt tests the unit words. */
  const UnitOrder: seq<Unit> := [Minutes, Hours, Days, Weeks, Months, Years]

  /** A relativedelta of `n` units, or the empty relativedelta. */
  datatype Delta = NoDelta | Ago(unit: Unit, n: int)

  /** A wall-clock time down to the microsecond. */
  datatype Moment = Moment(year: int, month: int, day: int, hour: int, minute: int, second: int, microsecond: int)

  /** The date `get_datetime` returns: `minute` minus `delta`, where `minute` is the current
      time with seconds and microseconds zeroed. */
  datatype Estimate = Estimate(minute: Moment, delta: Delta)

  /** The count of units: 1 after "a" or "an", the second word after a leading "last",
      the first word otherwise. None is the IndexError of a missing word or the ValueError
      of a word that is not an integer. */
  function Count(text: string): Option<int> {
    CountOf(text, Split(text))
  }

  /** The count, given the words `ws` of `text`. */
  function CountOf(text: string, ws: seq<string>): Option<int> {
    if |ws| == 0 then None
    else if ws[0] == "a" || ws[0] == "an" then Some(1)
    else if StartsWith(text, "last") then (if |ws| < 2 then None else ParseInt(ws[1]))
    else ParseInt(ws[0])
  }

  /** The first unit, in GHunt's order, whose word occurs in the text. */
  function UnitOf(text: string): (r: Option<Unit>)
    ensures r.Some? ==> Contains(text, UnitWord(r.value))
    ensures r.None? ==> forall u :: !Contains(text, UnitWord(u))
  {
    if Contains(text, "minute") then Some(Minutes)
    else if Contains(text, "hour") then Some(Hours)
    else if Contains(text, "day") then Some(Days)
    else if Contains(text, "week") then Some(Weeks)
    else if Contains(text, "month") then Some(Months)
    else if Contains(text, "year") then Some(Years)
    else None
  }

  function Truncated(now: Moment): (r: Moment)
    ensures r.second == 0 && r.microsecond == 0
    ensures r.(second := now.second, microsecond := now.microsecond) == now
  {
    now.(second := 0, microsecond := 0)
  }

  /** `get_datetime(text)` with `datetime.today()` given as `now`; None is the exception it raises. */
  function GetDatetime(text: string, now: Moment): (r: Option<Estimate>)
    ensures r.Some? <==> Count(text).Some?
    ensures r.Some? ==> r.value.minute == Truncated(now)
    ensures r.Some? ==> (r.value.delta.NoDelta? <==> UnitOf(text).None?)
    ensures r.Some? && r.value.delta.Ago? ==> r.value.delta == Ago(UnitOf(text).value, Count(text).value)
  {
    match Count(text)
    case None => None
    case Some(n) =>
      Some(Estimate(Truncated(now), match UnitOf(text) case None => NoDelta case Some(u) => Ago(u, n)))
  }

  // ---------------------------------------------------------------- the phrases Maps writes

  /** A character that does not begin any unit word. */
  predicate NoUnitStart(c: char) {
    c != 'm' && c != 'h' && c != 'd' && c != 'w' && c != 'y'
  }

  predicate Plain(s: string) {
    forall i :: 0 <= i < |s| ==> NoUnitStart(s[i])
  }

  /** What may follow the unit word: nothing, or text without unit initials that starts with
      a space or a plural `s`. */
  predicate Ending(s: string) {
    Plain(s) && (s == [] || s[0] == ' ' || s[0] == 's')
  }

  /** The initial of every unit word is a unit initial. */
  lemma Initials(u: Unit)
    ensures |UnitWord(u)| >= 3 && !NoUnitStart(UnitWord(u)[0])
  {
  }

  /** A word none of whose letters begins `UnitWord(v)`, between text without unit
      initials, does not contain `UnitWord(v)`. */
  lemma Avoids(pre: string, w: string, suffix: string, v: Unit)
    requires Plain(pre) && Plain(suffix)
    requires forall i :: 0 <= i < |w| ==> w[i] != UnitWord(v)[0]
    ensures !Contains(pre + (w + suffix), UnitWord(v))
  {
    var sub := UnitWord(v);
    Initials(v);
    assert forall i :: 0 <= i < |pre| ==> pre[i] != sub[0];
    ContainsSkip(pre, w + suffix, sub);
    ContainsSkip(w, suffix, sub);
    forall i | 0 <= i < |suffix| ensures MissAt(suffix, sub, i) {
      assert NoUnitStart(suffix[i]);
    }
    Absent(suffix, sub);
  }

  /** The 'm' of "month" is followed by 'o', and the rest has no 'm': no "minute". */
  lemma MonthNoMinute(suffix: string)
    requires Ending(suffix)
    ensures !Contains("month" + suffix, "minute")
  {
    var t := "month" + suffix;
    assert t[1..] == "onth" + suffix;
    if 6 <= |t| {
      assert t[..6][1] == t[1] == 'o';
    }
    Avoids([], "onth", suffix, Minutes);
    assert [] + ("onth" + suffix) == t[1..];
  }

  /** The 'h' of "month" is followed by the ending, not by 'o': no "hour". */
  lemma MonthNoHour(suffix: string)
    requires Ending(suffix)
    ensures !Contains("month" + suffix, "hour")
  {
    var h := "h" + suffix;
    assert "month" + suffix == "mont" + h;
    ContainsSkip("mont", h, "hour");
    if 4 <= |h| {
      assert h[..4][1] == h[1] == suffix[0];
    }
    assert h[1..] == suffix;
    Avoids([], [], suffix, Hours);
    assert [] + ([] + suffix) == suffix;
  }

  /** With a prefix and an ending free of unit initials, the unit word in the middle is
      the one GHunt selects. */
  lemma UnitOfPhrase(pre: string, u: Unit, suffix: string)
    requires Plain(pre) && Ending(suffix)
    ensures UnitOf(pre + UnitWord(u) + suffix) == Some(u)
  {
    var w := UnitWord(u);
    assert pre + w + suffix == pre + (w + suffix);
    ContainsMiddle(pre, w, suffix);
    match u
    case Minutes =>
    case Hours => HoursPhrase(pre, suffix);
    case Days => DaysPhrase(pre, suffix);
    case Weeks => WeeksPhrase(pre, suffix);
    case Months => MonthsPhrase(pre, suffix);
    case Years => YearsPhrase(pre, suffix);
  }

  /** The unit selected from a text that holds `u`'s word and none of the earlier words. */
  lemma UnitOfFirst(t: string, u: Unit)
    requires Contains(t, UnitWord(u))
    requires u != Minutes ==> !Contains(t, "minute")
    requires u != Minutes && u != Hours ==> !Contains(t, "hour")
    requires u == Weeks || u == Months || u == Years ==> !Contains(t, "day")
    requires u == Months || u == Years ==> !Contains(t, "week")
    requires u == Years ==> !Contains(t, "month")
    ensures UnitOf(t) == Some(u)
  {
  }

  lemma HoursPhrase(pre: string, suffix: string)
    requires Plain(pre) && Ending(suffix) && Contains(pre + ("hour" + suffix), "hour")
    ensures UnitOf(pre + ("hour" + suffix)) == Some(Hours)
  {
    Avoids(pre, "hour", suffix, Minutes);
    UnitOfFirst(pre + ("hour" + suffix), Hours);
  }

  lemma DaysPhrase(pre: string, suffix: string)
    requires Plain(pre) && Ending(suffix) && Contains(pre + ("day" + suffix), "day")
    ensures UnitOf(pre + ("day" + suffix)) == Some(Days)
  {
    Avoids(pre, "day", suffix, Minutes);
    Avoids(pre, "day", suffix, Hours);
    UnitOfFirst(pre + ("day" + suffix), Days);
  }

  lemma WeeksPhrase(pre: string, suffix: string)
    requires Plain(pre) && Ending(suffix) && Contains(pre + ("week" + suffix), "week")
    ensures UnitOf(pre + ("week" + suffix)) == Some(Weeks)
  {
    Avoids(pre, "week", suffix, Minutes);
    Avoids(pre, "week", suffix, Hours);
    Avoids(pre, "week", suffix, Days);
    UnitOfFirst(pre + ("week" + suffix), Weeks);
  }

  lemma MonthsPhrase(pre: string, suffix: string)
    requires Plain(pre) && Ending(suffix) && Contains(pre + ("month" + suffix), "month")
    ensures UnitOf(pre + ("month" + suffix)) == Some(Months)
  {
    var w := "month";
    MonthNoMinute(suffix);
    MonthNoHour(suffix);
    assert forall i :: 0 <= i < |pre| ==> pre[i] != "minute"[0] && pre[i] != "hour"[0];
    ContainsSkip(pre, w + suffix, "minute");
    ContainsSkip(pre, w + suffix, "hour");
    assert forall i :: 0 <= i < |w| ==> w[i] != 'd' && w[i] != 'w' by {
      assert w == ['m', 'o', 'n', 't', 'h'];
    }
    Avoids(pre, w, suffix, Days);
    Avoids(pre, w, suffix, Weeks);
    UnitOfFirst(pre + (w + suffix), Months);
  }

  lemma YearsPhrase(pre: string, suffix: string)
    requires Plain(pre) && Ending(suffix) && Contains(pre + ("year" + suffix), "year")
    ensures UnitOf(pre + ("year" + suffix)) == Some(Years)
  {
    var w := "year";
    Avoids(pre, w, suffix, Minutes);
    Avoids(pre, w, suffix, Hours);
    Avoids(pre, w, suffix, Days);
    Avoids(pre, w, suffix, Weeks);
    Avoids(pre, w, suffix, Months);
    UnitOfFirst(pre + (w + suffix), Years);
  }

  /** `str(n)` holds only digits and a minus sign. */
  lemma NumberIsPlain(n: int)
    ensures Plain(IntToString(n) + " ")
    ensures IntToString(n) != [] && (IntToString(n)[0] == '-' || IsDigit(IntToString(n)[0]))
  {
    var d := IntToString(n);
    assert forall i :: 0 <= i < |d| ==> d[i] == '-' || IsDigit(d[i]);
    var t := d + " ";
    forall i | 0 <= i < |t| ensures NoUnitStart(t[i]) {
      if i < |d| {
        assert t[i] == d[i];
      }
    }
  }

  lemma EndingsArePlain()
    ensures Ending("s ago") && Ending(" ago") && Ending("s")
    ensures Plain("a ") && Plain("an ") && Plain("last ")
  {
  }

  /** A text whose first word is an integer, not "a" or "an" and not starting "last", counts that integer. */
  lemma CountFirstWord(w: string, rest: string, n: int)
    requires w != [] && NoSpace(w) && ParseInt(w) == Some(n)
    requires w[0] == '-' || IsDigit(w[0])
    ensures Count(w + " " + rest) == Some(n)
  {
    var text := w + " " + rest;
    SplitFirst(w, rest);
    NotArticle(w);
    NotLast(w, rest);
    CountOfFirst(text, Split(text), n);
  }

  lemma CountOfFirst(text: string, ws: seq<string>, n: int)
    requires |ws| > 0 && ParseInt(ws[0]) == Some(n) && ws[0] != "a" && ws[0] != "an" && !StartsWith(text, "last")
    ensures CountOf(text, ws) == Some(n)
  {
  }

  lemma NotArticle(w: string)
    requires w != [] && (w[0] == '-' || IsDigit(w[0]))
    ensures w != "a" && w != "an"
  {
    assert "a"[0] == 'a' && "an"[0] == 'a';
  }

  lemma NotLast(w: string, rest: string)
    requires w != [] && (w[0] == '-' || IsDigit(w[0]))
    ensures !StartsWith(w + " " + rest, "last")
  {
    var text := w + " " + rest;
    assert text[0] == w[0];
    if |text| >= 4 {
      assert text[..4][0] == w[0];
    }
  }

  lemma CountNumber(n: int, rest: string)
    ensures Count(IntToString(n) + " " + rest) == Some(n)
  {
    ParseIntRoundTrip(n);
    NumberIsPlain(n);
    CountFirstWord(IntToString(n), rest, n);
  }

  /** The words of "last <w> <tail>" begin with "last" and `w`. */
  lemma LastWords(w: string, tail: string)
    requires w != [] && NoSpace(w)
    ensures var ws := Split("last" + " " + (w + " " + tail)); |ws| >= 2 && ws[0] == "last" && ws[1] == w
  {
    var rest := w + " " + tail;
    SplitFirst("last", rest);
    SplitSpace(rest);
    SplitFirst(w, tail);
  }

  /** A text that starts with "last" counts its second word. */
  lemma CountSecondWord(w: string, tail: string, n: int)
    requires w != [] && NoSpace(w) && ParseInt(w) == Some(n)
    ensures Count("last " + w + " " + tail) == Some(n)
  {
    var text := "last " + w + " " + tail;
    assert text == "last" + " " + (w + " " + tail);
    LastWords(w, tail);
    assert text[..4] == "last";
    CountOfSecond(text, Split(text), n);
  }

  lemma CountOfSecond(text: string, ws: seq<string>, n: int)
    requires |ws| >= 2 && ws[0] == "last" && ParseInt(ws[1]) == Some(n) && StartsWith(text, "last")
    ensures CountOf(text, ws) == Some(n)
  {
  }

  lemma CountLast(n: int, tail: string)
    ensures Count("last " + IntToString(n) + " " + tail) == Some(n)
  {
    ParseIntRoundTrip(n);
    CountSecondWord(IntToString(n), tail, n);
  }

  /** A text that starts with "a" or "an" counts one. */
  lemma CountArticle(a: string, rest: string)
    requires a == "a" || a == "an"
    ensures Count(a + " " + rest) == Some(1)
  {
    SplitFirst(a, rest);
  }

  /** The estimate of a text whose count and unit are known. */
  lemma EstimateOf(text: string, now: Moment, n: int, u: Unit)
    requires Count(text) == Some(n) && UnitOf(text) == Some(u)
    ensures GetDatetime(text, now) == Some(Estimate(Truncated(now), Ago(u, n)))
  {
  }

  lemma Regroup(a: string, b: string, c: string, d: string)
    ensures a + b + c + d == a + b + (c + d)
  {
  }

  /** "<n> <unit>s ago" is n units back. */
  lemma NumberPhrase(n: int, u: Unit, now: Moment)
    ensures GetDatetime(IntToString(n) + " " + UnitWord(u) + "s ago", now) == Some(Estimate(Truncated(now), Ago(u, n)))
  {
    NumberCount(n, u);
    NumberUnit(n, u);
    EstimateOf(IntToString(n) + " " + UnitWord(u) + "s ago", now, n, u);
  }

  lemma NumberCount(n: int, u: Unit)
    ensures Count(IntToString(n) + " " + UnitWord(u) + "s ago") == Some(n)
  {
    var d := IntToString(n);
    var rest := UnitWord(u) + "s ago";
    Regroup(d, " ", UnitWord(u), "s ago");
    CountNumber(n, rest);
  }

  lemma NumberUnit(n: int, u: Unit)
    ensures UnitOf(IntToString(n) + " " + UnitWord(u) + "s ago") == Some(u)
  {
    var d := IntToString(n);
    NumberIsPlain(n);
    EndingsArePlain();
    UnitOfPhrase(d + " ", u, "s ago");
    assert d + " " + UnitWord(u) + "s ago" == (d + " ") + UnitWord(u) + "s ago";
  }

  /** "last <n> <unit>s" is n units back: the count is the second word. */
  lemma LastPhrase(n: int, u: Unit, now: Moment)
    ensures GetDatetime("last " + IntToString(n) + " " + UnitWord(u) + "s", now) == Some(Estimate(Truncated(now), Ago(u, n)))
  {
    LastCount(n, u);
    LastUnit(n, u);
    EstimateOf("last " + IntToString(n) + " " + UnitWord(u) + "s", now, n, u);
  }

  lemma LastCount(n: int, u: Unit)
    ensures Count("last " + IntToString(n) + " " + UnitWord(u) + "s") == Some(n)
  {
    var d := IntToString(n);
    var tail := UnitWord(u) + "s";
    Regroup("last " + d, " ", UnitWord(u), "s");
    CountLast(n, tail);
  }

  lemma LastUnit(n: int, u: Unit)
    ensures UnitOf("last " + IntToString(n) + " " + UnitWord(u) + "s") == Some(u)
  {
    var d := IntToString(n);
    NumberIsPlain(n);
    EndingsArePlain();
    var pre := "last " + d + " ";
    LastIsPlain(d);
    UnitOfPhrase(pre, u, "s");
    assert "last " + d + " " + UnitWord(u) + "s" == pre + UnitWord(u) + "s";
  }

  lemma LastIsPlain(d: string)
    requires Plain(d + " ")
    ensures Plain("last " + d + " ")
  {
    var pre := "last " + d + " ";
    forall i | 0 <= i < |pre| ensures NoUnitStart(pre[i]) {
      if i >= 5 {
        assert pre[i] == (d + " ")[i - 5];
      } else {
        assert pre[i] == "last "[i];
      }
    }
  }

  /** The article of the one-unit phrase. */
  function Article(u: Unit): string {
    if u == Hours then "an" else "a"
  }

  /** "a <unit> ago" and "an hour ago" are one unit back. */
  lemma ArticlePhrase(u: Unit, now: Moment)
    ensures GetDatetime(Article(u) + " " + UnitWord(u) + " ago", now) == Some(Estimate(Truncated(now), Ago(u, 1)))
  {
    ArticleCount(u);
    ArticleUnit(u);
    EstimateOf(Article(u) + " " + UnitWord(u) + " ago", now, 1, u);
  }

  lemma ArticleCount(u: Unit)
    ensures Count(Article(u) + " " + UnitWord(u) + " ago") == Some(1)
  {
    var a := Article(u);
    var rest := UnitWord(u) + " ago";
    Regroup(a, " ", UnitWord(u), " ago");
    CountArticle(a, rest);
  }

  lemma ArticleUnit(u: Unit)
    ensures UnitOf(Article(u) + " " + UnitWord(u) + " ago") == Some(u)
  {
    var a := Article(u);
    EndingsArePlain();
    UnitOfPhrase(a + " ", u, " ago");
    assert a + " " + UnitWord(u) + " ago" == (a + " ") + UnitWord(u) + " ago";
  }

  /** Text with no unit word gives the empty delta: the current minute itself. */
  lemma NoUnitNoDelta(text: string, now: Moment)
    requires Count(text).Some?
    requires forall u :: !Contains(text, UnitWord(u))
    ensures GetDatetime(text, now) == Some(Estimate(Truncated(now), NoDelta))
  {
    assert !Contains(text, UnitWord(Minutes)) && !Contains(text, UnitWord(Hours)) && !Contains(text, UnitWord(Days));
    assert !Contains(text, UnitWord(Weeks)) && !Contains(text, UnitWord(Months)) && !Contains(text, UnitWord(Years));
  }
}
