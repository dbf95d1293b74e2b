/**
 The pure parts of dumping a public calendar: following the event pages to the end,
 the file-name form of the target's e-mail address, the window of events shown, the
 three texts of each shown row and the other names the target's events carry.
 */
module Calendar {
  import opened Wrappers
  import opened PyText

  /** The calendar's identity, as the API returns it. */
  datatype CalendarInfo = CalendarInfo(id: string, summary: string, timeZone: string)

  /** A wall-clock moment (the events' datetimes are in UTC). */
  datatype Moment = Moment(year: int, month: int, day: int, hour: int, minute: int, second: int)

  /** The creator of an event; an absent e-mail or name reads as "". */
  datatype Person = Person(email: string, displayName: string)

  /** An event as the table and the names pass read it; an absent summary reads as "". */
  datatype Event = Event(summary: string, start: Option<Moment>, end: Option<Moment>, creator: Person)

  /** One page of events; an absent next-page token reads as "". */
  datatype EventsPage = EventsPage(items: seq<Event>, nextPageToken: string)

  // ---------------------------------------------------------------- fetching every page

  /** The items of the pages reached from `token` by following next-page tokens until one is
      empty, when that happens within `fuel` pages; `page` stands for the events request
      made with a page token. */
  function Follow(page: string -> EventsPage, token: string, fuel: nat): Option<seq<Event>>
    decreases fuel
  {
    if token == "" then Some([])
    else if fuel == 0 then None
    else match Follow(page, page(token).nextPageToken, fuel - 1)
      case None => None
      case Some(rest) => Some(page(token).items + rest)
  }

  /** The number of pages requested after the first when following from `token`. */
  function Requests(page: string -> EventsPage, token: string, fuel: nat): nat
    decreases fuel
  {
    if token == "" || fuel == 0 then 0 else 1 + Requests(page, page(token).nextPageToken, fuel - 1)
  }

  /** Once the chain ends within some bound, a larger bound changes nothing: the result is a
      property of the pages alone. */
  lemma {:induction false} FollowStable(page: string -> EventsPage, token: string, fuel: nat, more: nat)
    requires Follow(page, token, fuel).Some? && fuel <= more
    ensures Follow(page, token, more) == Follow(page, token, fuel)
    ensures Requests(page, token, more) == Requests(page, token, fuel)
    decreases fuel
  {
    if token != "" {
      FollowStable(page, page(token).nextPageToken, fuel - 1, more - 1);
    }
  }

  /** A chain that ends gathers the items of its first page first. */
  lemma {:induction false} FollowPages(page: string -> EventsPage, token: string, fuel: nat)
    requires Follow(page, token, fuel).Some?
    ensures |Follow(page, token, fuel).value| >= (if token == "" then 0 else |page(token).items|)
    ensures token != "" ==> Follow(page, token, fuel).value[..|page(token).items|] == page(token).items
  {
    if token != "" {
      var rest := Follow(page, page(token).nextPageToken, fuel - 1).value;
      assert (page(token).items + rest)[..|page(token).items|] == page(token).items;
    }
  }

  /** The events of a calendar, all pages in order, or None (the `False, None, None` answer)
      when the calendar is not found. */
  function AllEvents(found: bool, calendar: CalendarInfo, first: EventsPage, page: string -> EventsPage, fuel: nat)
    : Option<(CalendarInfo, seq<Event>)>
    requires Follow(page, first.nextPageToken, fuel).Some?
  {
    if !found then None else Some((calendar, first.items + Follow(page, first.nextPageToken, fuel).value))
  }

  /** `fetch_all`: when the calendar is found, takes the first page of events and then asks
      for the next page as long as the last one carried a token, appending its items.
      `bound` is any number of pages within which the token chain ends; the loop needs it to
      terminate, and by `FollowStable` the result does not depend on it. `requests` counts the
      event pages asked for. */
  method FetchAll(found: bool, calendar: CalendarInfo, first: EventsPage, page: string -> EventsPage, ghost bound: nat)
    returns (r: Option<(CalendarInfo, seq<Event>)>, requests: nat)
    requires Follow(page, first.nextPageToken, bound).Some?
    ensures r == AllEvents(found, calendar, first, page, bound)
    ensures requests == if found then 1 + Requests(page, first.nextPageToken, bound) else 0
  {
    if !found {
      return None, 0;
    }
    var items := first.items;
    requests := 1;
    var token := first.nextPageToken;
    ghost var fuel := bound;
    while token != ""
      invariant Follow(page, token, fuel).Some?
      invariant items + Follow(page, token, fuel).value == first.items + Follow(page, first.nextPageToken, bound).value
      invariant requests + Requests(page, token, fuel) == 1 + Requests(page, first.nextPageToken, bound)
      decreases fuel
    {
      var next := page(token);
      requests := requests + 1;
      assert items + next.items + Follow(page, next.nextPageToken, fuel - 1).value
          == items + (next.items + Follow(page, next.nextPageToken, fuel - 1).value);
      items := items + next.items;
      token := next.nextPageToken;
      fuel := fuel - 1;
    }
    assert items + [] == items;
    return Some((calendar, items)), requests;
  }

  // ---------------------------------------------------------------- the output file name

  /** The address with "@" spelled "_at_" and every "." replaced by "_". */
  function SanitizeEmail(email: string): (r: string)
    ensures '@' !in r && '.' !in r
    ensures forall c :: c in email && c != '@' && c != '.' ==> c in r
    ensures forall c :: c in r ==> c in email || c in "_at_"
    ensures '@' !in email && '.' !in email ==> r == email
  {
    var once := Replace(email, '@', "_at_");
    ReplaceKeeps(email, '@', "_at_");
    ReplaceKeeps(once, '.', "_");
    Replace(once, '.', "_")
  }

  /** Replacing a character keeps every other character that was there. */
  lemma {:induction false} ReplaceKeeps(s: string, c: char, sub: string)
    ensures forall x :: x in s && x != c ==> x in Replace(s, c, sub)
  {
    if s != [] {
      ReplaceKeeps(s[1..], c, sub);
      assert forall x :: x in s ==> x == s[0] || x in s[1..];
    }
  }

  // ---------------------------------------------------------------- the events shown

  /** Python's `xs[start:]` for any integer `start`: a negative start counts from the end,
      and a start past either end is clamped. */
  function SliceFrom<T>(xs: seq<T>, start: int): (r: seq<T>)
    ensures |r| <= |xs| && r == xs[|xs| - |r|..]
  {
    if start < 0 then (if -start >= |xs| then xs else xs[|xs| + start..])
    else if start >= |xs| then [] else xs[start..]
  }

  /** `items[-limit:]`. */
  function Window<T>(items: seq<T>, limit: int): (w: seq<T>)
    ensures |w| <= |items| && w == items[|items| - |w|..]
    ensures limit == 0 ==> w == items
    ensures limit > 0 ==> |w| == if limit < |items| then limit else |items|
    ensures limit < 0 ==> |w| == if -limit < |items| then |items| + limit else 0
  {
    SliceFrom(items, -limit)
  }

  /** The window holds the last `limit` events when there are more of them, and all of them
      otherwise. */
  lemma WindowLast<T>(items: seq<T>, limit: nat)
    requires limit > 0
    ensures limit < |items| ==> Window(items, limit) == items[|items| - limit..]
    ensures limit >= |items| ==> Window(items, limit) == items
  {
  }

  // ---------------------------------------------------------------- row texts

  /** The name column: the summary, or "/" when it is empty. */
  function Title(e: Event): (t: string)
    ensures t != []
    ensures e.summary != "" ==> t == e.summary
    ensures e.summary == "" ==> t == "/"
  {
    if e.summary != "" then e.summary else "/"
  }

  /** A number in 0..99 as two digits. */
  function Pad2(n: int): (s: string)
    requires 0 <= n < 100
    ensures |s| == 2 && IsDigit(s[0]) && IsDigit(s[1])
  {
    [DigitChar(n / 10), DigitChar(n % 10)]
  }

  predicate InRange(m: Moment) {
    1000 <= m.year <= 9999 && 1 <= m.month <= 12 && 1 <= m.day <= 31 &&
    0 <= m.hour < 24 && 0 <= m.minute < 60 && 0 <= m.second < 60
  }

  /** `strftime("%Y/%m/%d %H:%M:%S")` for a moment with a four-digit year. */
  function Stamp(m: Moment): (s: string)
    requires InRange(m)
    ensures |s| == 19
  {
    var y := IntToString(m.year);
    FourDigits(m.year);
    y + "/" + Pad2(m.month) + "/" + Pad2(m.day) + " " + Pad2(m.hour) + ":" + Pad2(m.minute) + ":" + Pad2(m.second)
  }

  lemma FourDigits(n: int)
    requires 1000 <= n <= 9999
    ensures |IntToString(n)| == 4
  {
    assert NatToString(n) == NatToString(n / 10) + [DigitChar(n % 10)];
    assert NatToString(n / 10) == NatToString(n / 100) + [DigitChar(n / 10 % 10)];
    assert NatToString(n / 100) == NatToString(n / 1000) + [DigitChar(n / 100 % 10)];
  }

  lemma {:induction false} Pad2Value(n: int)
    requires 0 <= n < 100
    ensures ParseInt(Pad2(n)) == Some(n)
  {
    var s := Pad2(n);
    assert s[..1] == [s[0]] && [s[0]][..0] == [];
    assert DigitRun(s);
    assert DigitsValue(s) == DigitsValue([s[0]]) * 10 + n % 10;
    assert DigitsValue([s[0]]) == n / 10;
  }

  /** The date column: the start as text, or "?" without a start. */
  function DateText(e: Event): (t: string)
    requires e.start.Some? ==> InRange(e.start.value)
    ensures e.start.None? <==> t == "?"
    ensures e.start.Some? ==> t == Stamp(e.start.value)
  {
    match e.start
    case None => "?"
    case Some(m) => Stamp(m)
  }

  /** Every field of a stamp reads back as the number it came from. */
  lemma StampFields(m: Moment)
    requires InRange(m)
    ensures var s := Stamp(m);
            s[4] == '/' && s[7] == '/' && s[10] == ' ' && s[13] == ':' && s[16] == ':' &&
            ParseInt(s[..4]) == Some(m.year) && ParseInt(s[5..7]) == Some(m.month) &&
            ParseInt(s[8..10]) == Some(m.day) && ParseInt(s[11..13]) == Some(m.hour) &&
            ParseInt(s[14..16]) == Some(m.minute) && ParseInt(s[17..19]) == Some(m.second)
  {
    var y := IntToString(m.year);
    FourDigits(m.year);
    ParseIntRoundTrip(m.year);
    var s := Stamp(m);
    assert s[..4] == y;
    assert s[5..7] == Pad2(m.month);
    assert s[8..10] == Pad2(m.day);
    assert s[11..13] == Pad2(m.hour);
    assert s[14..16] == Pad2(m.minute);
    assert s[17..19] == Pad2(m.second);
    Pad2Value(m.month);
    Pad2Value(m.day);
    Pad2Value(m.hour);
    Pad2Value(m.minute);
    Pad2Value(m.second);
  }

  /** Two moments with the same stamp are the same moment. */
  lemma StampInjective(m: Moment, n: Moment)
    requires InRange(m) && InRange(n) && Stamp(m) == Stamp(n)
    ensures m == n
  {
    StampFields(m);
    StampFields(n);
  }

  /** The parts of the span between two moments that the table reads, as `relativedelta`
      splits it; the span itself comes from the `span` parameter of `Duration`. */
  datatype Delta = Delta(years: int, months: int, days: int, hours: int, minutes: int, seconds: int)

  /** What the duration column holds: "?" without both endpoints, the text of the non-zero
      day, hour and minute parts, or the span object itself when those three are all zero. */
  datatype Shown = Unknown | Text(s: string) | Raw(d: Delta)

  /** One part of the duration text: empty when zero, the unit plural for more than one. */
  function Part(n: int, unit: string): (r: string)
    ensures n == 0 <==> r == ""
    ensures n == 1 ==> r == "1 " + unit
    ensures n > 1 ==> r == IntToString(n) + " " + unit + "s"
    ensures n < 0 ==> r == IntToString(n) + " " + unit
  {
    if n != 0 then IntToString(n) + " " + unit + (if n > 1 then "s" else "") else ""
  }

  /** The three parts separated by spaces, with the spaces at both ends stripped. */
  function DurationText(d: Delta): string {
    Strip(Part(d.days, "day") + " " + Part(d.hours, "hour") + " " + Part(d.minutes, "minute"), IsSpace)
  }

  /** The duration column of an event; `span` stands for `relativedelta(end, start)`. */
  function Duration(e: Event, span: (Moment, Moment) -> Delta): (r: Shown)
    ensures e.start.None? || e.end.None? <==> r == Unknown
    ensures r.Raw? ==> r.d.days == 0 && r.d.hours == 0 && r.d.minutes == 0
    ensures r.Text? <==>
      e.start.Some? && e.end.Some?
      && var d := span(e.end.value, e.start.value); d.days != 0 || d.hours != 0 || d.minutes != 0
    ensures r.Text? ==> r.s == DurationText(span(e.end.value, e.start.value))
    ensures r.Raw? ==> r.d == span(e.end.value, e.start.value)
  {
    if e.end.Some? && e.start.Some? then
      var d := span(e.end.value, e.start.value);
      if d.days != 0 || d.hours != 0 || d.minutes != 0 then Text(DurationText(d)) else Raw(d)
    else Unknown
  }

  /** Empty, or neither starting nor ending with whitespace. */
  predicate Edged(w: string) {
    w == [] || (!IsSpace(w[0]) && !IsSpace(w[|w| - 1]))
  }

  lemma PartEdged(n: int, unit: string)
    requires unit != [] && !IsSpace(unit[|unit| - 1])
    ensures Edged(Part(n, unit))
  {
    if n != 0 {
      var t := IntToString(n);
      if n > 0 {
        assert IsDigit(t[0]);
      } else {
        assert t[0] == '-';
      }
    }
  }

  /** The stripping of `a + " " + b + " " + c` for parts that are each empty or edged. */
  lemma StripParts(a: string, b: string, c: string)
    requires Edged(a) && Edged(b) && Edged(c)
    ensures Strip(a + " " + b + " " + c, IsSpace) == Squeezed(a, b, c)
  {
    var pre, mid, post := Layout(a, b, c);
    StripExact(pre, mid, post, IsSpace);
  }

  /** What stripping leaves of the three parts. */
  function Squeezed(a: string, b: string, c: string): string {
    if a != "" && c != "" then a + " " + b + " " + c
    else if a == "" && b == "" then c
    else if a == "" then b + (if c != "" then " " + c else "")
    else a + (if b != "" then " " + b else "")
  }

  /** How `a + " " + b + " " + c` splits into leading spaces, the kept text and trailing spaces. */
  lemma Layout(a: string, b: string, c: string) returns (pre: string, mid: string, post: string)
    requires Edged(a) && Edged(b) && Edged(c)
    ensures a + " " + b + " " + c == pre + mid + post
    ensures mid == Squeezed(a, b, c) && Edged(mid)
    ensures forall i :: 0 <= i < |pre| ==> IsSpace(pre[i])
    ensures forall i :: 0 <= i < |post| ==> IsSpace(post[i])
  {
    if a != "" && c != "" {
      pre, mid, post := "", a + " " + b + " " + c, "";
      assert mid[0] == a[0] && mid[|mid| - 1] == c[|c| - 1];
    } else if a == "" && b == "" {
      pre, mid, post := "  ", c, "";
    } else if a == "" {
      if c == "" {
        pre, mid, post := " ", b, " ";
      } else {
        pre, mid, post := " ", b + " " + c, "";
        assert mid[0] == b[0] && mid[|mid| - 1] == c[|c| - 1];
      }
    } else {
      if b == "" {
        pre, mid, post := "", a, "  ";
      } else {
        pre, mid, post := "", a + " " + b, " ";
        assert mid[0] == a[0] && mid[|mid| - 1] == b[|b| - 1];
      }
    }
  }

  /** The duration text holds exactly the non-zero parts, in order, one space between two
      neighbours and two spaces between days and minutes when the hours are zero. */
  lemma DurationWords(d: Delta)
    ensures var a, b, c := Part(d.days, "day"), Part(d.hours, "hour"), Part(d.minutes, "minute");
            var text := DurationText(d);
            (d.days != 0 && d.minutes != 0 ==> text == a + " " + b + " " + c) &&
            (d.days == 0 && d.hours == 0 ==> text == c) &&
            (d.days == 0 && d.hours != 0 ==> text == b + (if d.minutes != 0 then " " + c else "")) &&
            (d.days != 0 && d.minutes == 0 ==> text == a + (if d.hours != 0 then " " + b else ""))
  {
    PartEdged(d.days, "day");
    PartEdged(d.hours, "hour");
    PartEdged(d.minutes, "minute");
    StripParts(Part(d.days, "day"), Part(d.hours, "hour"), Part(d.minutes, "minute"));
  }

  // ---------------------------------------------------------------- other names

  /** An event names the target otherwise: its creator has the target's address and a
      non-empty display name different from the known one. */
  predicate OtherName(e: Event, email: string, displayName: string) {
    e.creator.email == email && e.creator.displayName != "" && e.creator.displayName != displayName
  }

  /** The names pass: collects the display names of the events that name the target otherwise. */
  method AlternativeNames(events: seq<Event>, email: string, displayName: string) returns (names: set<string>)
    ensures forall n :: n in names <==>
              exists i :: 0 <= i < |events| && OtherName(events[i], email, displayName) && events[i].creator.displayName == n
    ensures "" !in names && displayName !in names
  {
    names := {};
    var i := 0;
    while i < |events|
      invariant i <= |events|
      invariant forall n :: n in names <==>
                  exists k :: 0 <= k < i && OtherName(events[k], email, displayName) && events[k].creator.displayName == n
    {
      var e := events[i];
      if e.creator.email == email && e.creator.displayName != "" && e.creator.displayName != displayName {
        names := names + {e.creator.displayName};
      }
      i := i + 1;
    }
  }
}
