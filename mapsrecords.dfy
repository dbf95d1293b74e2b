/**
 The Maps records (places, reviews and photos) and the four per-entry extractors of
 `get_reviews`: new- and old-format reviews, new- and old-format photos. Each extractor
 maps one entry of the page's record list to Kept(record), to Skipped (the Python code's
 `continue`, or an exception its `except` clause catches), or to Raised (an exception the
 clause does not catch, which ends the whole fetch).
 */
module MapsRecords {
  import opened Wrappers
  import opened PyText
  import opened PyJson

  /** A latitude/longitude pair; the two are always read from the same sub-list. */
  datatype Coords = Coords(lat: Json, lon: Json)

  /** A MapsLocation. `position` None is the unset default position. */
  datatype Location = Location(
    id: Json, name: Json, address: Json, position: Option<Coords>,
    types: seq<Json>, tags: Json, costLevel: nat)

  /** A timestamp: unset, raw microseconds since the epoch, or a civil date and hour. */
  datatype When = Unset | Stamp(micros: int) | Wall(year: int, month: int, day: int, hour: int)

  datatype Review = Review(id: Json, date: When, rating: Json, comment: Json, location: Location)

  datatype Photo = Photo(id: Json, url: string, date: When, location: Location)

  /** What one entry of a page contributes. */
  datatype Entry<T> = Kept(record: T) | Skipped | Raised

  /** The default MapsLocation, before any field is set. */
  const Unplaced := Location(JStr(""), JStr(""), JStr(""), None, [], JArr([]), 0)

  const NoRating := JNum(0)
  const NoComment := JStr("")

  /** `datetime.utcfromtimestamp(j / 1000000)`, keeping the raw microseconds;
      None is the TypeError for a value that is not a number. */
  function FromMicros(j: Json): (r: Option<When>)
    ensures r.Some? <==> IsNumber(j)
  {
    if IsNumber(j) then Some(Stamp(NumValue(j))) else None
  }

  predicate IsLeap(y: int) {
    (y % 4 == 0 && y % 100 != 0) || y % 400 == 0
  }

  function DaysInMonth(y: int, m: int): int
    requires 1 <= m <= 12
  {
    if m == 2 then (if IsLeap(y) then 29 else 28)
    else if m == 4 || m == 6 || m == 9 || m == 11 then 30
    else 31
  }

  /** The ranges `datetime(year, month, day, hour)` accepts. */
  predicate ValidCivil(y: int, m: int, d: int, h: int) {
    1 <= y <= 9999 && 1 <= m <= 12 && 1 <= d <= DaysInMonth(y, m) && 0 <= h <= 23
  }

  /** `datetime(d[0], d[1], d[2], d[3])`; None is the TypeError for a non-integer
      argument or the ValueError for an out-of-range one. */
  function FromCivil(d: seq<Json>): (r: Option<When>)
    requires |d| >= 4
    ensures r.Some? ==> r.value.Wall? && ValidCivil(r.value.year, r.value.month, r.value.day, r.value.hour)
    ensures r.Some? <==>
      IsNumber(d[0]) && IsNumber(d[1]) && IsNumber(d[2]) && IsNumber(d[3])
      && ValidCivil(NumValue(d[0]), NumValue(d[1]), NumValue(d[2]), NumValue(d[3]))
    ensures r.Some? ==> r.value == Wall(NumValue(d[0]), NumValue(d[1]), NumValue(d[2]), NumValue(d[3]))
  {
    if IsNumber(d[0]) && IsNumber(d[1]) && IsNumber(d[2]) && IsNumber(d[3]) then
      var y, m, dd, h := NumValue(d[0]), NumValue(d[1]), NumValue(d[2]), NumValue(d[3]);
      if ValidCivil(y, m, dd, h) then Some(Wall(y, m, dd, h)) else None
    else None
  }

  /** The types and tags gathered from the entries of a new-format `place_info[9]`:
      a list entry longer than one gives the type `entry[1]` and the tag `entry[0]`,
      a string entry gives a type only, anything else gives nothing. */
  function TypesTags(es: seq<Json>): (r: (seq<Json>, seq<Json>))
    ensures |r.1| <= |r.0| <= |es|
  {
    if es == [] then ([], [])
    else
      var prev := TypesTags(es[..|es| - 1]);
      var e := es[|es| - 1];
      if e.JArr? && |e.items| > 1 then (prev.0 + [e.items[1]], prev.1 + [e.items[0]])
      else if e.JStr? then (prev.0 + [e], prev.1)
      else prev
  }

  /** The loop over `place_info[9]` that appends to `types` and `tags`. */
  method CollectTypeEntries(es: seq<Json>) returns (types: seq<Json>, tags: seq<Json>)
    ensures (types, tags) == TypesTags(es)
    ensures |tags| <= |types|
  {
    types, tags := [], [];
    for i := 0 to |es|
      invariant (types, tags) == TypesTags(es[..i])
    {
      var e := es[i];
      assert es[..i + 1][..i] == es[..i];
      if e.JArr? && |e.items| > 1 {
        types := types + [e.items[1]];
        tags := tags + [e.items[0]];
      } else if e.JStr? {
        types := types + [e];
      }
    }
    assert es[..|es|] == es;
  }

  /** There are exactly as many tags as list entries longer than one: a tag is added only
      together with a type, and never for a string entry. */
  lemma {:induction false} TagsComeWithTypes(es: seq<Json>)
    ensures var r := TypesTags(es);
      |r.1| == |set i | 0 <= i < |es| && es[i].JArr? && |es[i].items| > 1|
  {
    if es != [] {
      var init := es[..|es| - 1];
      TagsComeWithTypes(init);
      var e := es[|es| - 1];
      var before := set i | 0 <= i < |init| && init[i].JArr? && |init[i].items| > 1;
      var after := set i | 0 <= i < |es| && es[i].JArr? && |es[i].items| > 1;
      if e.JArr? && |e.items| > 1 {
        assert after == before + {|es| - 1};
      } else {
        assert after == before;
      }
    }
  }

  /** `[x for x in xs if x]`. */
  function TruthyOnly(xs: seq<Json>): (r: seq<Json>)
    ensures |r| <= |xs|
    ensures forall x :: x in r ==> Truthy(x) && x in xs
    ensures forall x :: x in xs && Truthy(x) ==> x in r
  {
    if xs == [] then []
    else (if Truthy(xs[0]) then [xs[0]] else []) + TruthyOnly(xs[1..])
  }

  /** The place of a new-format entry, read from `place_info` (a non-empty list).
      `idFromSlotOne` is the review extractor's fallback to `str(place_info[1])`.
      None is the TypeError of iterating a `place_info[9]` that is neither list nor string. */
  function NewPlace(pi: seq<Json>, idFromSlotOne: bool): Option<Location> {
    var id :=
      if |pi| > 14 && Truthy(pi[14]) then
        (if pi[14].JArr? && |pi[14].items| > 0 then pi[14].items[0] else JStr(Str(pi[14])))
      else if idFromSlotOne && |pi| > 1 then
        (if Truthy(pi[1]) then JStr(Str(pi[1])) else JStr(""))
      else Unplaced.id;
    var name := if |pi| > 4 then OrEmpty(pi[4]) else Unplaced.name;
    var address := if |pi| > 5 then OrEmpty(pi[5]) else Unplaced.address;
    var position :=
      if |pi| > 3 && pi[3].JArr? && |pi[3].items| >= 4 then Some(Coords(pi[3].items[2], pi[3].items[3]))
      else None;
    if |pi| > 9 && Truthy(pi[9]) then
      match Iterate(pi[9])
      case None => None
      case Some(es) =>
        var tt := TypesTags(es);
        Some(Location(id, name, address, position, tt.0, JArr(tt.1), Unplaced.costLevel))
    else Some(Location(id, name, address, position, Unplaced.types, Unplaced.tags, Unplaced.costLevel))
  }

  /** The place of a new-format entry from `place_wrapper[1]`, left at its default unless that is a non-empty list. */
  function NewPlaceOf(info: Json, idFromSlotOne: bool): Option<Location> {
    if info.JArr? && info.items != [] then NewPlace(info.items, idFromSlotOne) else Some(Unplaced)
  }

  /** The place of an old-format entry, read from `entry[1]`. `withCost` adds the photo
      extractor's `cost_level = len(p[31])`. None is a caught TypeError: `p[8]` that cannot
      be iterated, or `p[31]` without a length. */
  function OldPlace(p: seq<Json>, withCost: bool): Option<Location> {
    var id :=
      if |p| > 14 && Truthy(p[14]) && p[14].JArr? && |p[14].items| > 0 then p[14].items[0]
      else Unplaced.id;
    var name := if |p| > 2 then OrEmpty(p[2]) else Unplaced.name;
    var address := if |p| > 3 then OrEmpty(p[3]) else Unplaced.address;
    var tags := if |p| > 4 then (if Truthy(p[4]) then p[4] else JArr([])) else Unplaced.tags;
    var types := if |p| > 8 && Truthy(p[8]) then Iterate(p[8]) else Some(Unplaced.types);
    var position :=
      if |p| > 0 && Truthy(p[0]) && p[0].JArr? && |p[0].items| > 3 then Some(Coords(p[0].items[2], p[0].items[3]))
      else None;
    var cost := if withCost && |p| > 31 && Truthy(p[31]) then Len(p[31]) else Some(Unplaced.costLevel);
    if types.None? || cost.None? then None
    else
      Some(Location(id, name, address, position,
                    if |p| > 8 && Truthy(p[8]) then TruthyOnly(types.value) else types.value,
                    tags, cost.value))
  }

  /** The rating and comment held in `rating_comment`. `numberRating` adds the new format's
      acceptance of a bare number as `rating_comment[0]`. */
  function RatingComment(rc: seq<Json>, numberRating: bool): (Json, Json) {
    var rating :=
      if |rc| > 0 && rc[0].JArr? && |rc[0].items| > 0 then rc[0].items[0]
      else if numberRating && |rc| > 0 && IsNumber(rc[0]) then rc[0]
      else NoRating;
    var comment :=
      if |rc| > 15 && Truthy(rc[15]) && rc[15].JArr? && |rc[15].items| > 0
         && rc[15].items[0].JArr? && |rc[15].items[0].items| > 0
      then rc[15].items[0].items[0]
      else NoComment;
    (rating, comment)
  }

  /** One entry of a new-format review list: `[place_wrapper, review_wrapper, ...]`. */
  function NewReview(item: Json): Entry<Review> {
    if !item.JArr? || |item.items| < 2 then Skipped
    else
      var pw := item.items[0];
      var rw := item.items[1];
      if !Truthy(pw) || !pw.JArr? || |pw.items| < 2 then Skipped
      else if !Truthy(rw) || !rw.JArr? then Skipped
      else
        var w := rw.items;
        var date :=
          if |w| > 1 && w[1].JArr? && |w[1].items| > 2 && Truthy(w[1].items[2]) then FromMicros(w[1].items[2])
          else Some(Unset);
        var rc := if |w| > 2 && w[2].JArr? then RatingComment(w[2].items, true) else (NoRating, NoComment);
        var place := NewPlaceOf(pw.items[1], true);
        if date.None? || place.None? then Skipped
        else Kept(Review(OrEmpty(w[0]), date.value, rc.0, rc.1, place.value))
  }

  /** One entry of an old-format review list: the review block is `entry[6]`, the place `entry[1]`. */
  function OldReview(item: Json): Entry<Review> {
    if !item.JArr? || |item.items| < 7 then Skipped
    else
      var r6 := item.items[6];
      match Len(r6)
      case None => Skipped
      case Some(n6) =>
        var id := if n6 > 0 then At(r6, 0).value else JStr("");
        var date :=
          if n6 > 1 && At(r6, 1).value.JArr? && |At(r6, 1).value.items| > 3 then FromMicros(At(r6, 1).value.items[3])
          else Some(Unset);
        var rc := if n6 > 2 && At(r6, 2).value.JArr? then RatingComment(At(r6, 2).value.items, false) else (NoRating, NoComment);
        var place := if item.items[1].JArr? then OldPlace(item.items[1].items, false) else Some(Unplaced);
        if date.None? || place.None? then Skipped
        else Kept(Review(id, date.value, rc.0, rc.1, place.value))
  }

  /** One entry of a new-format photo list; its URL is empty and its date the current time `now`. */
  function NewPhoto(item: Json, now: int): Entry<Photo> {
    if !item.JArr? || |item.items| < 2 then Skipped
    else
      var pw := item.items[0];
      var phw := item.items[1];
      if !Truthy(pw) || !pw.JArr? || |pw.items| < 2 then Skipped
      else if !Truthy(phw) || !phw.JArr? then Skipped
      else
        var id := if Truthy(phw.items[0]) then JStr(Str(phw.items[0])) else JStr("");
        match NewPlaceOf(pw.items[1], false)
        case None => Skipped
        case Some(place) => Kept(Photo(id, "", Stamp(now), place))
  }

  /** The URL of an old-format photo: `q[6][0].split("=")[0]`; None is the AttributeError
      for a truthy value that is not a string, which the Python code's `except` does not catch. */
  function OldPhotoUrl(q: seq<Json>): Option<string> {
    if |q| > 6 && q[6].JArr? && |q[6].items| > 0 then
      var u := q[6].items[0];
      if !Truthy(u) then Some("")
      else if u.JStr? then Some(BeforeFirst(u.s, '='))
      else None
    else Some("")
  }

  /** The date of an old-format photo, from `q[21][6][8]`; None is a caught error of `datetime(...)`. */
  function OldPhotoDate(q: seq<Json>): Option<When> {
    if |q| > 21 && q[21].JArr? && |q[21].items| > 6 && q[21].items[6].JArr?
       && |q[21].items[6].items| > 8 && q[21].items[6].items[8].JArr? && |q[21].items[6].items[8].items| >= 4
    then FromCivil(q[21].items[6].items[8].items)
    else Some(Unset)
  }

  /** One entry of an old-format photo list: the photo block is `entry[0]`, the place `entry[1]`. */
  function OldPhoto(item: Json): Entry<Photo> {
    if !item.JArr? || |item.items| < 1 then Skipped
    else if !item.items[0].JArr? || |item.items[0].items| < 11 then Skipped
    else
      var q := item.items[0].items;
      match OldPhotoUrl(q)
      case None => Raised
      case Some(url) =>
        var date := OldPhotoDate(q);
        var place := if |item.items| > 1 && item.items[1].JArr? then OldPlace(item.items[1].items, true) else Some(Unplaced);
        if date.None? || place.None? then Skipped
        else Kept(Photo(q[10], url, date.value, place.value))
  }

  /** The wrappers a new-format entry must have: a list of at least two whose first element
      is a non-empty list of at least two and whose second is a non-empty list. */
  predicate NewShaped(item: Json) {
    item.JArr? && |item.items| >= 2
    && Truthy(item.items[0]) && item.items[0].JArr? && |item.items[0].items| >= 2
    && Truthy(item.items[1]) && item.items[1].JArr?
  }

  /** A new-format review entry with the wrong wrappers is skipped, and no new-format
      review ends the page. */
  lemma NewReviewShapes(item: Json)
    ensures !NewShaped(item) ==> NewReview(item) == Skipped
    ensures !NewReview(item).Raised?
  {
  }

  /** Likewise for a new-format photo entry. */
  lemma NewPhotoShapes(item: Json, now: int)
    ensures !NewShaped(item) ==> NewPhoto(item, now) == Skipped
    ensures !NewPhoto(item, now).Raised?
  {
  }

  /** An old-format review entry that is not a list of at least seven, or whose `entry[6]`
      has no length, is skipped; no old-format review ends the page. */
  lemma OldReviewShapes(item: Json)
    ensures !(item.JArr? && |item.items| >= 7 && (item.items[6].JArr? || item.items[6].JStr?)) ==> OldReview(item) == Skipped
    ensures !OldReview(item).Raised?
  {
  }

  /** An old-format photo entry that is not a list whose first element is a list of at least
      eleven is skipped; a well-shaped one ends the page exactly when its URL slot `q[6][0]`
      is truthy but not a string. */
  lemma OldPhotoShapes(item: Json)
    ensures var shaped := item.JArr? && |item.items| >= 1 && item.items[0].JArr? && |item.items[0].items| >= 11;
      !shaped ==> OldPhoto(item) == Skipped
    ensures OldPhoto(item).Raised? <==>
      item.JArr? && |item.items| >= 1 && item.items[0].JArr? && |item.items[0].items| >= 11
      && item.items[0].items[6].JArr? && |item.items[0].items[6].items| > 0
      && Truthy(item.items[0].items[6].items[0]) && !item.items[0].items[6].items[0].JStr?
  {
  }

  /** A new-format place never has more tags than types. */
  lemma NewPlaceTagsWithinTypes(pi: seq<Json>, idFromSlotOne: bool)
    requires NewPlace(pi, idFromSlotOne).Some?
    ensures var l := NewPlace(pi, idFromSlotOne).value;
      l.tags.JArr? && |l.tags.items| <= |l.types|
  {
  }

  /** Hence so do new-format reviews and photos. */
  lemma NewRecordsTagsWithinTypes(item: Json, now: int)
    ensures NewReview(item).Kept? ==>
      var l := NewReview(item).record.location; l.tags.JArr? && |l.tags.items| <= |l.types|
    ensures NewPhoto(item, now).Kept? ==>
      var l := NewPhoto(item, now).record.location; l.tags.JArr? && |l.tags.items| <= |l.types|
  {
    if item.JArr? && |item.items| >= 2 && item.items[0].JArr? && |item.items[0].items| >= 2 {
      var info := item.items[0].items[1];
      if info.JArr? && info.items != [] {
        if NewPlace(info.items, true).Some? {
          NewPlaceTagsWithinTypes(info.items, true);
        }
        if NewPlace(info.items, false).Some? {
          NewPlaceTagsWithinTypes(info.items, false);
        }
      }
    }
  }

  /** An old-format place holds no falsy type. */
  lemma OldPlaceTypesTruthy(p: seq<Json>, withCost: bool)
    requires OldPlace(p, withCost).Some?
    ensures forall x :: x in OldPlace(p, withCost).value.types ==> Truthy(x)
  {
  }

  /** A record's coordinates are both set, from one sub-list, or both left unset. */
  lemma OldPlacePosition(p: seq<Json>, withCost: bool)
    requires OldPlace(p, withCost).Some?
    ensures var pos := OldPlace(p, withCost).value.position;
      pos.Some? <==> (|p| > 0 && p[0].JArr? && |p[0].items| > 3)
    ensures var pos := OldPlace(p, withCost).value.position;
      pos.Some? ==> pos.value == Coords(p[0].items[2], p[0].items[3])
  {
  }

  lemma NewPlacePosition(pi: seq<Json>, idFromSlotOne: bool)
    requires NewPlace(pi, idFromSlotOne).Some?
    ensures var pos := NewPlace(pi, idFromSlotOne).value.position;
      pos.Some? <==> (|pi| > 3 && pi[3].JArr? && |pi[3].items| >= 4)
    ensures var pos := NewPlace(pi, idFromSlotOne).value.position;
      pos.Some? ==> pos.value == Coords(pi[3].items[2], pi[3].items[3])
  {
  }
}
