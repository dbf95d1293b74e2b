/**
 `get_reviews`: the stats gate, the page loop for reviews and then for photos, and the
 outcome. The network is the function `fetch` from a request to the decoded page; the
 loop is bounded by `maxPages` pages per category.
 */
module MapsFetch {
  import opened Wrappers
  import opened PyText
  import opened PyJson
  import opened MapsRecords
  import opened MapsLayout

  datatype Category = Reviews | Photos

  /** A request: the stats page, the first page of a category, or a later page by token. */
  datatype Request = StatsPage | First(category: Category) | Next(category: Category, token: string)

  /** How a category is read: where its entries are, how one entry becomes a record,
      and where the raw next-page token is. */
  datatype Kind<T> = Kind(
    category: Category,
    locate: Json -> Located,
    extract: Format -> Json -> Entry<T>,
    token: (Json, Format) -> Option<Json>)

  function ReviewExtractor(f: Format): Json -> Entry<Review> {
    if f == New then NewReview else OldReview
  }

  function PhotoExtractor(f: Format, now: int): Json -> Entry<Photo> {
    if f == New then (item: Json) => NewPhoto(item, now) else OldPhoto
  }

  function ReviewsKind(): Kind<Review> {
    Kind(Reviews, LocateReviews, ReviewExtractor, ReviewsToken)
  }

  /** `now` is the value of `datetime.utcnow()` that new-format photos receive. */
  function PhotosKind(now: int): Kind<Photo> {
    Kind(Photos, LocatePhotos, (f: Format) => PhotoExtractor(f, now), PhotosToken)
  }

  // ---------------------------------------------------------------- stats gate

  /** `sec[6]` when `sec` is a list longer than seven: a section that feeds the stats map. */
  function StatKey(sec: Json): Option<Json> {
    if sec.JArr? && |sec.items| > 7 then Some(sec.items[6]) else None
  }

  /** The stats loop from the map built so far; None is the TypeError of an unhashable key. */
  function AddSections(m: map<Json, Json>, secs: seq<Json>): Option<map<Json, Json>>
    decreases |secs|
  {
    if secs == [] then Some(m)
    else
      var sec := secs[0];
      if StatKey(sec).Some? then
        if Hashable(sec.items[6]) then AddSections(m[sec.items[6] := sec.items[7]], secs[1..])
        else None
      else AddSections(m, secs[1..])
  }

  /** The loop `for sec in data[16][8][0]: ... stats[sec[6]] = sec[7]`. */
  method ParseStats(secs: seq<Json>) returns (stats: Option<map<Json, Json>>)
    ensures stats == AddSections(map[], secs)
  {
    var m: map<Json, Json> := map[];
    for i := 0 to |secs|
      invariant AddSections(map[], secs) == AddSections(m, secs[i..])
    {
      assert secs[i..][1..] == secs[i + 1..];
      var sec := secs[i];
      if sec.JArr? && |sec.items| > 7 {
        if !Hashable(sec.items[6]) {
          return None;
        }
        m := m[sec.items[6] := sec.items[7]];
      }
    }
    assert secs[|secs|..] == [];
    return Some(m);
  }

  /** A key is in the stats map exactly when some section longer than seven carries it,
      and its value is the one of the last such section. */
  lemma StatsKeys(m0: map<Json, Json>, secs: seq<Json>)
    requires AddSections(m0, secs).Some?
    ensures var m := AddSections(m0, secs).value;
      && (forall k :: k in m <==> k in m0 || exists j :: 0 <= j < |secs| && StatKey(secs[j]) == Some(k))
      && (forall k, j :: 0 <= j < |secs| && StatKey(secs[j]) == Some(k)
            && (forall l :: j < l < |secs| ==> StatKey(secs[l]) != Some(k))
            ==> m[k] == secs[j].items[7])
      && (forall k :: k in m0 && (forall j :: 0 <= j < |secs| ==> StatKey(secs[j]) != Some(k)) ==> m[k] == m0[k])
  {
    StatsDomain(m0, secs);
    StatsLast(m0, secs);
    StatsKept(m0, secs);
  }

  /** One step of the stats loop. */
  lemma StatsStep(m0: map<Json, Json>, secs: seq<Json>)
    requires secs != [] && AddSections(m0, secs).Some?
    ensures var m1 := if StatKey(secs[0]).Some? then m0[secs[0].items[6] := secs[0].items[7]] else m0;
            AddSections(m0, secs) == AddSections(m1, secs[1..])
    ensures forall j :: 1 <= j < |secs| ==> secs[j] == secs[1..][j - 1]
  {
  }

  lemma {:induction false} StatsDomain(m0: map<Json, Json>, secs: seq<Json>)
    requires AddSections(m0, secs).Some?
    ensures forall k :: k in AddSections(m0, secs).value <==> k in m0 || exists j :: 0 <= j < |secs| && StatKey(secs[j]) == Some(k)
    decreases |secs|
  {
    if secs != [] {
      var sec := secs[0];
      var m1 := if StatKey(sec).Some? then m0[sec.items[6] := sec.items[7]] else m0;
      StatsStep(m0, secs);
      StatsDomain(m1, secs[1..]);
    }
  }

  lemma {:induction false} StatsLast(m0: map<Json, Json>, secs: seq<Json>)
    requires AddSections(m0, secs).Some?
    ensures forall k, j :: 0 <= j < |secs| && StatKey(secs[j]) == Some(k)
              && (forall l :: j < l < |secs| ==> StatKey(secs[l]) != Some(k))
              ==> k in AddSections(m0, secs).value && AddSections(m0, secs).value[k] == secs[j].items[7]
    decreases |secs|
  {
    if secs != [] {
      var sec := secs[0];
      var m1 := if StatKey(sec).Some? then m0[sec.items[6] := sec.items[7]] else m0;
      StatsStep(m0, secs);
      StatsLast(m1, secs[1..]);
      StatsKept(m1, secs[1..]);
      StatsDomain(m1, secs[1..]);
    }
  }

  lemma {:induction false} StatsKept(m0: map<Json, Json>, secs: seq<Json>)
    requires AddSections(m0, secs).Some?
    ensures forall k :: k in m0 && (forall j :: 0 <= j < |secs| ==> StatKey(secs[j]) != Some(k)) ==>
              k in AddSections(m0, secs).value && AddSections(m0, secs).value[k] == m0[k]
    decreases |secs|
  {
    if secs != [] {
      var sec := secs[0];
      var m1 := if StatKey(sec).Some? then m0[sec.items[6] := sec.items[7]] else m0;
      StatsStep(m0, secs);
      StatsKept(m1, secs[1..]);
    }
  }

  /** The stats map is refused exactly when some section's key cannot be hashed (is a list). */
  lemma {:induction false} StatsRaiseOnlyOnListKey(m0: map<Json, Json>, secs: seq<Json>)
    ensures AddSections(m0, secs).None? <==> exists j :: 0 <= j < |secs| && StatKey(secs[j]).Some? && !Hashable(StatKey(secs[j]).value)
    decreases |secs|
  {
    if secs != [] {
      var sec := secs[0];
      var m1 := if StatKey(sec).Some? then m0[sec.items[6] := sec.items[7]] else m0;
      StatsRaiseOnlyOnListKey(m1, secs[1..]);
      forall j | 1 <= j < |secs| ensures secs[j] == secs[1..][j - 1] { }
    }
  }

  /** `stats.get(key, 0)`. */
  function GetOrZero(m: map<Json, Json>, key: string): Json {
    if JStr(key) in m then m[JStr(key)] else JNum(0)
  }

  /** What the stats page allows: stop with "empty" (and the stats gathered), stop on an
      uncaught exception, or go on with the stats. */
  datatype Gate = Closed(stats: map<Json, Json>) | GateRaised | Open(stats: map<Json, Json>)

  /** The two structural tests on `data[16][8]` and the sum of Reviews, Ratings and Photos. */
  function StatsGate(data: Json): Gate {
    match Len(data)
    case None => GateRaised
    case Some(n) =>
      if n <= 16 || !Truthy(At(data, 16).value) then Closed(map[])
      else
        var d16 := At(data, 16).value;
        match Len(d16)
        case None => GateRaised
        case Some(n16) =>
          if n16 <= 8 || !Truthy(At(d16, 8).value) then Closed(map[])
          else
            var d168 := At(d16, 8).value;
            if !d168.JArr? || d168.items == [] || !d168.items[0].JArr? then Closed(map[])
            else
              match AddSections(map[], d168.items[0].items)
              case None => GateRaised
              case Some(stats) =>
                var sum := Add(GetOrZero(stats, "Reviews"), GetOrZero(stats, "Ratings"));
                if sum.None? then GateRaised
                else
                  var total := Add(sum.value, GetOrZero(stats, "Photos"));
                  if total.None? then GateRaised
                  else if !Truthy(total.value) then Closed(stats)
                  else Open(stats)
  }

  /** `data[16][8][0]` is reachable and a list: the shape the stats sections are read from. */
  predicate StatsShaped(data: Json) {
    data.JArr? && |data.items| > 16 && data.items[16].JArr? && |data.items[16].items| > 8
    && data.items[16].items[8].JArr? && data.items[16].items[8].items != []
    && data.items[16].items[8].items[0].JArr?
  }

  /** `len(data)` or `len(data[16])` on a value without a length raises, and only there does a
      badly shaped page raise; every other shape failure stops with "empty" and no stats.
      Only a well-shaped page can open the gate. */
  lemma GateShapes(data: Json)
    ensures !data.JArr? && !data.JStr? ==> StatsGate(data) == GateRaised
    ensures var lenRaises := Len(data).None? || (Len(data).value > 16 && Truthy(At(data, 16).value) && Len(At(data, 16).value).None?);
      !StatsShaped(data) ==> (StatsGate(data) == GateRaised <==> lenRaises)
    ensures !StatsShaped(data) ==> StatsGate(data) == Closed(map[]) || StatsGate(data) == GateRaised
    ensures StatsGate(data).Open? ==> StatsShaped(data)
  {
  }

  /** With numeric counts the gate opens exactly when Reviews + Ratings + Photos is not zero. */
  lemma GateOnCounts(data: Json, secs: seq<Json>, stats: map<Json, Json>)
    requires data.JArr? && |data.items| > 16 && data.items[16].JArr? && |data.items[16].items| > 8
    requires data.items[16].items[8].JArr? && |data.items[16].items[8].items| > 0
    requires data.items[16].items[8].items[0] == JArr(secs)
    requires AddSections(map[], secs) == Some(stats)
    requires IsNumber(GetOrZero(stats, "Reviews")) && IsNumber(GetOrZero(stats, "Ratings")) && IsNumber(GetOrZero(stats, "Photos"))
    ensures var total := NumValue(GetOrZero(stats, "Reviews")) + NumValue(GetOrZero(stats, "Ratings")) + NumValue(GetOrZero(stats, "Photos"));
      StatsGate(data) == if total == 0 then Closed(stats) else Open(stats)
  {
  }

  // ---------------------------------------------------------------- one page

  /** The records of a page's entries, in order; skipped entries contribute nothing and a
      Raised entry ends the page (None). */
  function Collect<T>(entries: seq<Json>, extract: Json -> Entry<T>): Option<seq<T>> {
    if entries == [] then Some([])
    else
      match extract(entries[0])
      case Raised => None
      case Skipped => Collect(entries[1..], extract)
      case Kept(r) =>
        var rest := Collect(entries[1..], extract);
        if rest.None? then None else Some([r] + rest.value)
  }

  /** `acc` followed by the records of `r`, when there are any. */
  function Prefixed<T>(acc: seq<T>, r: Option<seq<T>>): Option<seq<T>> {
    if r.None? then None else Some(acc + r.value)
  }

  /** The loop `for review_item in reviews_data: ... new_reviews.append(review)`. */
  method CollectPage<T>(entries: seq<Json>, extract: Json -> Entry<T>) returns (recs: Option<seq<T>>)
    ensures recs == Collect(entries, extract)
  {
    var acc: seq<T> := [];
    assert entries[0..] == entries;
    PrefixedEmpty(Collect(entries, extract));
    for i := 0 to |entries|
      invariant Collect(entries, extract) == Prefixed(acc, Collect(entries[i..], extract))
    {
      CollectUnfold(entries, i, extract);
      match extract(entries[i])
      case Kept(r) =>
        PrefixedKept(acc, r, Collect(entries[i + 1..], extract));
        acc := acc + [r];
      case Skipped =>
      case Raised =>
        return None;
    }
    assert entries[|entries|..] == [];
    assert acc + [] == acc;
    return Some(acc);
  }

  lemma PrefixedEmpty<T>(r: Option<seq<T>>)
    ensures Prefixed([], r) == r
  {
    if r.Some? {
      assert [] + r.value == r.value;
    }
  }

  lemma PrefixedKept<T>(acc: seq<T>, x: T, r: Option<seq<T>>)
    ensures Prefixed(acc, if r.None? then None else Some([x] + r.value)) == Prefixed(acc + [x], r)
  {
    if r.Some? {
      assert acc + ([x] + r.value) == (acc + [x]) + r.value;
    }
  }

  lemma CollectUnfold<T>(entries: seq<Json>, i: nat, extract: Json -> Entry<T>)
    requires i < |entries|
    ensures Collect(entries[i..], extract) == match extract(entries[i])
      case Raised => None
      case Skipped => Collect(entries[i + 1..], extract)
      case Kept(r) =>
        var rest := Collect(entries[i + 1..], extract);
        if rest.None? then None else Some([r] + rest.value)
  {
    assert entries[i..][0] == entries[i];
    assert entries[i..][1..] == entries[i + 1..];
  }

  /** A page is refused (None) exactly when one of its entries raises an uncaught exception. */
  lemma {:induction false} CollectNoneIffRaised<T>(entries: seq<Json>, extract: Json -> Entry<T>)
    ensures Collect(entries, extract).None? <==> exists i :: 0 <= i < |entries| && extract(entries[i]).Raised?
  {
    if entries != [] {
      CollectNoneIffRaised(entries[1..], extract);
      forall i | 1 <= i < |entries| ensures entries[i] == entries[1..][i - 1] { }
      if extract(entries[0]).Raised? {
        assert extract(entries[0]).Raised?;
      }
    }
  }

  /** The positions, offset by `from`, of the entries that yield a record. */
  function KeptIndices<T>(entries: seq<Json>, extract: Json -> Entry<T>, from: nat): seq<nat> {
    if entries == [] then []
    else (if extract(entries[0]).Kept? then [from] else []) + KeptIndices(entries[1..], extract, from + 1)
  }

  /** Record k of a page comes from entry `idx[k]` (positions offset by `from`). */
  lemma {:induction false} KeptIndicesMatch<T>(entries: seq<Json>, extract: Json -> Entry<T>, from: nat)
    requires Collect(entries, extract).Some?
    ensures IndicesMatch(entries, extract, from)
  {
    if entries != [] {
      KeptIndicesMatch(entries[1..], extract, from + 1);
      if extract(entries[0]).Kept? {
        KeptHeadMatch(entries, extract, from);
      } else {
        SkippedHeadMatch(entries, extract, from);
      }
    }
  }

  /** The records of a page are the entries at the kept positions, in order. */
  ghost predicate IndicesMatch<T>(entries: seq<Json>, extract: Json -> Entry<T>, from: nat)
    requires Collect(entries, extract).Some?
  {
    Matches(entries, extract, from, KeptIndices(entries, extract, from), Collect(entries, extract).value)
  }

  /** Record k is what entry `idx[k]` yields (positions offset by `from`). */
  ghost predicate Matches<T>(entries: seq<Json>, extract: Json -> Entry<T>, from: nat, idx: seq<nat>, vs: seq<T>) {
    && |idx| == |vs|
    && forall k :: 0 <= k < |idx| ==>
         from <= idx[k] < from + |entries| && extract(entries[idx[k] - from]) == Kept(vs[k])
  }

  lemma KeptHeadMatch<T>(entries: seq<Json>, extract: Json -> Entry<T>, from: nat)
    requires entries != [] && extract(entries[0]).Kept? && Collect(entries, extract).Some?
    requires Collect(entries[1..], extract).Some? && IndicesMatch(entries[1..], extract, from + 1)
    ensures IndicesMatch(entries, extract, from)
  {
    var ti := KeptIndices(entries[1..], extract, from + 1);
    var tv := Collect(entries[1..], extract).value;
    var r := extract(entries[0]).record;
    assert KeptIndices(entries, extract, from) == [from] + ti;
    assert Collect(entries, extract).value == [r] + tv;
    ShiftKept(entries, extract, from, r, ti, tv);
  }

  lemma SkippedHeadMatch<T>(entries: seq<Json>, extract: Json -> Entry<T>, from: nat)
    requires entries != [] && !extract(entries[0]).Kept? && Collect(entries, extract).Some?
    requires Collect(entries[1..], extract).Some? && IndicesMatch(entries[1..], extract, from + 1)
    ensures IndicesMatch(entries, extract, from)
  {
    var ti := KeptIndices(entries[1..], extract, from + 1);
    var tv := Collect(entries[1..], extract).value;
    assert KeptIndices(entries, extract, from) == ti;
    assert Collect(entries, extract).value == tv;
    ShiftSkipped(entries, extract, from, ti, tv);
  }

  /** Positions that match the records in the tail of a page match them in the page. */
  lemma ShiftSkipped<T>(entries: seq<Json>, extract: Json -> Entry<T>, from: nat, idx: seq<nat>, vs: seq<T>)
    requires entries != [] && Matches(entries[1..], extract, from + 1, idx, vs)
    ensures Matches(entries, extract, from, idx, vs)
  {
    forall k | 0 <= k < |idx|
      ensures from <= idx[k] < from + |entries| && extract(entries[idx[k] - from]) == Kept(vs[k])
    {
      assert entries[1..][idx[k] - (from + 1)] == entries[idx[k] - from];
    }
  }

  /** A record taken from the head of a page, followed by the matched positions of its tail. */
  lemma ShiftKept<T>(entries: seq<Json>, extract: Json -> Entry<T>, from: nat, r: T, idx: seq<nat>, vs: seq<T>)
    requires entries != [] && extract(entries[0]) == Kept(r) && Matches(entries[1..], extract, from + 1, idx, vs)
    ensures Matches(entries, extract, from, [from] + idx, [r] + vs)
  {
    ShiftSkipped(entries, extract, from, idx, vs);
    var idx' := [from] + idx;
    var vs' := [r] + vs;
    forall k | 0 <= k < |idx'|
      ensures from <= idx'[k] < from + |entries| && extract(entries[idx'[k] - from]) == Kept(vs'[k])
    {
      if k > 0 {
        assert idx'[k] == idx[k - 1] && vs'[k] == vs[k - 1];
      }
    }
  }

  /** The positions of the entries that yield records increase strictly. */
  lemma {:induction false} KeptIndicesIncrease<T>(entries: seq<Json>, extract: Json -> Entry<T>, from: nat)
    ensures forall k, l :: 0 <= k < l < |KeptIndices(entries, extract, from)| ==>
      KeptIndices(entries, extract, from)[k] < KeptIndices(entries, extract, from)[l]
  {
    if entries != [] {
      var tail := entries[1..];
      KeptIndicesIncrease(tail, extract, from + 1);
      KeptIndicesFrom(tail, extract, from + 1);
      var idx := KeptIndices(entries, extract, from);
      var ti := KeptIndices(tail, extract, from + 1);
      if extract(entries[0]).Kept? {
        assert idx == [from] + ti;
        forall k, l | 0 <= k < l < |idx| ensures idx[k] < idx[l] {
          assert idx[l] == ti[l - 1] && ti[l - 1] in ti;
          if k > 0 {
            assert idx[k] == ti[k - 1];
          }
        }
      } else {
        assert idx == ti;
      }
    }
  }

  lemma {:induction false} KeptIndicesFrom<T>(entries: seq<Json>, extract: Json -> Entry<T>, from: nat)
    ensures forall x :: x in KeptIndices(entries, extract, from) ==> from <= x
  {
    if entries != [] {
      KeptIndicesFrom(entries[1..], extract, from + 1);
    }
  }

  /** Every entry that yields a record is among the positions. */
  lemma {:induction false} KeptIndicesComplete<T>(entries: seq<Json>, extract: Json -> Entry<T>, from: nat)
    ensures forall i :: 0 <= i < |entries| && extract(entries[i]).Kept? ==> from + i in KeptIndices(entries, extract, from)
  {
    if entries != [] {
      var tail := entries[1..];
      KeptIndicesComplete(tail, extract, from + 1);
      forall i | 1 <= i < |entries| ensures entries[i] == tail[i - 1] { }
    }
  }

  /** The records of a page are the entries that yield one, in order: record k comes from
      entry `idx[k]`, the positions increase, every entry that yields a record is among
      them, and so there are at most as many records as entries. */
  lemma CollectIsSubsequence<T>(entries: seq<Json>, extract: Json -> Entry<T>)
    requires Collect(entries, extract).Some?
    ensures var rs := Collect(entries, extract).value;
      var idx := KeptIndices(entries, extract, 0);
      && |idx| == |rs| <= |entries|
      && (forall k :: 0 <= k < |idx| ==> idx[k] < |entries| && extract(entries[idx[k]]) == Kept(rs[k]))
      && (forall k, l :: 0 <= k < l < |idx| ==> idx[k] < idx[l])
      && (forall i :: 0 <= i < |entries| && extract(entries[i]).Kept? ==> i in idx)
  {
    KeptIndicesMatch(entries, extract, 0);
    KeptIndicesIncrease(entries, extract, 0);
    KeptIndicesComplete(entries, extract, 0);
    var idx := KeptIndices(entries, extract, 0);
    if |idx| > |entries| {
      var k := |entries|;
      assert forall j :: 0 <= j < k ==> j <= idx[j] by {
        forall j | 0 <= j < k ensures j <= idx[j] {
          IncreasingAboveIndex(idx, j);
        }
      }
      IncreasingAboveIndex(idx, k);
      assert false;
    }
  }

  lemma {:induction false} IncreasingAboveIndex(idx: seq<nat>, j: nat)
    requires j < |idx|
    requires forall k, l :: 0 <= k < l < |idx| ==> idx[k] < idx[l]
    ensures j <= idx[j]
  {
    if j > 0 {
      IncreasingAboveIndex(idx, j - 1);
    }
  }

  /** Extraction distributes over concatenated entry lists. */
  lemma {:induction false} CollectAppend<T>(a: seq<Json>, b: seq<Json>, extract: Json -> Entry<T>)
    ensures Collect(a + b, extract)
         == if Collect(a, extract).None? then None else Prefixed(Collect(a, extract).value, Collect(b, extract))
  {
    if a == [] {
      assert a + b == b;
      PrefixedEmpty(Collect(b, extract));
    } else {
      assert (a + b)[0] == a[0];
      assert (a + b)[1..] == a[1..] + b;
      CollectAppend(a[1..], b, extract);
      match extract(a[0])
      case Kept(r) =>
        if Collect(a[1..], extract).Some? {
          if Collect(b, extract).Some? {
            assert [r] + (Collect(a[1..], extract).value + Collect(b, extract).value)
                == ([r] + Collect(a[1..], extract).value) + Collect(b, extract).value;
          }
        }
      case Skipped =>
      case Raised =>
    }
  }

  /** A malformed entry the extractor skips never aborts the page: the page yields what it
      would yield without that entry. */
  lemma SkippedEntryIsInvisible<T>(a: seq<Json>, e: Json, b: seq<Json>, extract: Json -> Entry<T>)
    requires extract(e) == Skipped
    ensures Collect(a + [e] + b, extract) == Collect(a + b, extract)
  {
    CollectAppend(a, [e] + b, extract);
    CollectAppend(a, b, extract);
    assert a + [e] + b == a + ([e] + b);
    assert ([e] + b)[1..] == b;
  }

  /** What one page yields: no data for the category (GHunt returns "private"), an
      uncaught exception, or its records and the next token (None: the loop stops). */
  datatype Step<T> = NoData | Crash | Page(records: seq<T>, next: Option<string>)

  /** `token.strip("=")`. */
  function StripEq(token: string): string {
    Strip(token, (c: char) => c == '=')
  }

  function PageStep<T>(kind: Kind<T>, data: Json): Step<T> {
    match kind.locate(data)
    case Unsized => Crash
    case Absent => NoData
    case Found(f, entries) =>
      match Collect(entries, kind.extract(f))
      case None => Crash
      case Some(recs) =>
        if recs == [] then Page([], None)
        else
          match kind.token(data, f)
          case None => Page(recs, None)
          case Some(t) => if t.JStr? then Page(recs, Some(StripEq(t.s))) else Crash
  }

  /** A page that yields records and carries a string token continues with that token,
      stripped of `=` at both ends and nowhere else. */
  lemma PageToken<T>(kind: Kind<T>, data: Json, pre: string, mid: string, post: string)
    requires kind.locate(data).Found?
    requires var f := kind.locate(data).format;
      && Collect(kind.locate(data).entries, kind.extract(f)).Some?
      && Collect(kind.locate(data).entries, kind.extract(f)).value != []
      && kind.token(data, f) == Some(JStr(pre + mid + post))
    requires forall i :: 0 <= i < |pre| ==> pre[i] == '='
    requires forall i :: 0 <= i < |post| ==> post[i] == '='
    requires mid == [] || (mid[0] != '=' && mid[|mid| - 1] != '=')
    ensures PageStep(kind, data)
         == Page(Collect(kind.locate(data).entries, kind.extract(kind.locate(data).format)).value, Some(mid))
  {
    StripExact(pre, mid, post, (c: char) => c == '=');
  }

  /** A page that continues the loop yielded at least one record and a string token, and
      the next request carries that token without `=` at either end. */
  lemma ContinuingPage<T>(kind: Kind<T>, data: Json)
    requires PageStep(kind, data).Page? && PageStep(kind, data).next.Some?
    ensures var t := PageStep(kind, data).next.value;
      && PageStep(kind, data).records != []
      && kind.locate(data).Found?
      && kind.token(data, kind.locate(data).format).Some?
      && kind.token(data, kind.locate(data).format).value.JStr?
      && t == StripEq(kind.token(data, kind.locate(data).format).value.s)
      && (t == [] || (t[0] != '=' && t[|t| - 1] != '='))
  {
  }

  /** A reviews page whose `data[22]` holds a token but no card list, while `data[45]` holds the cards. */
  function SplitBlocksPage(): Json {
    var card := JArr([JArr([JNull, JNull]), JArr([JStr("r")])]);
    JArr(seq(46, (i: int) =>
      if i == 22 then JArr([JArr([]), JNull, JNull, JStr("tok")])
      else if i == 45 then JArr([JArr([card])])
      else JNull))
  }

  /** For new-format reviews the token is read from `data[22][3]` even when the records came
      from `data[45]`: on the page above the one review is taken from block 45 and the next
      request carries the token of block 22. */
  lemma TokenFromOtherBlock()
    ensures var data := SplitBlocksPage();
      && ReviewsLayout(data) == Some((New, data.items[45].items[0]))
      && ReviewsToken(data, New) == Some(data.items[22].items[3])
      && PageStep(ReviewsKind(), data) == Page([Review(JStr("r"), Unset, NoRating, NoComment, Unplaced)], Some("tok"))
  {
    var data := SplitBlocksPage();
    var card := JArr([JArr([JNull, JNull]), JArr([JStr("r")])]);
    assert data.items[22] == JArr([JArr([]), JNull, JNull, JStr("tok")]);
    assert data.items[45] == JArr([JArr([card])]);
    assert |data.items| == 46;
    assert Slot(data, 22, 0) == Some(JArr([]));
    assert Slot(data, 45, 0) == Some(JArr([card]));
    assert CardList(JArr([card]));
    assert ReviewsLayout(data) == Some((New, JArr([card])));
    assert TokenAt(data, 22) == Some(JStr("tok"));
    assert LocateReviews(data) == Found(New, [card]);
    assert NewReview(card) == Kept(Review(JStr("r"), Unset, NoRating, NoComment, Unplaced));
    var r := Review(JStr("r"), Unset, NoRating, NoComment, Unplaced);
    assert [card][1..] == [];
    assert Collect([card][1..], NewReview) == Some([]);
    assert [r] + [] == [r];
    assert Collect([card], NewReview) == Some([r]);
    var kind := ReviewsKind();
    assert kind.locate(data) == Found(New, [card]);
    assert kind.extract(New) == NewReview;
    assert Collect([card], kind.extract(New)) == Some([r]);
    assert kind.token(data, New) == Some(JStr("tok"));
    assert PageStep(kind, data) == Page([r], Some(StripEq("tok")));
    assert StripEq("tok") == "tok" by {
      StripExact([], "tok", [], (c: char) => c == '=');
    }
  }

  // ---------------------------------------------------------------- the page loop

  /** The end of one category's loop: all its records, "private", an uncaught exception,
      or the page bound was reached while GHunt would have fetched another page. */
  datatype Run<T> = Done(records: seq<T>) | Private | Crashed | OutOfPages

  /** The page loop of one category from request `req`, with at most `pages` more fetches. */
  function Drain<T>(kind: Kind<T>, fetch: Request -> Json, req: Request, pages: nat): Run<T>
    decreases pages
  {
    if pages == 0 then OutOfPages
    else
      match PageStep(kind, fetch(req))
      case NoData => Private
      case Crash => Crashed
      case Page(recs, next) =>
        if next.None? then Done(recs)
        else
          match Drain(kind, fetch, Next(kind.category, next.value), pages - 1)
          case Done(rest) => Done(recs + rest)
          case other => other
  }

  function After<T>(acc: seq<T>, r: Run<T>): Run<T> {
    if r.Done? then Done(acc + r.records) else r
  }

  /** One pass of the `while True` body: locate the entries, extract them, read the token. */
  method ReadPage<T>(kind: Kind<T>, data: Json) returns (step: Step<T>)
    ensures step == PageStep(kind, data)
  {
    var located := kind.locate(data);
    if located.Unsized? {
      return Crash;
    }
    if located.Absent? {
      return NoData;
    }
    var f := located.format;
    var newRecords := CollectPage(located.entries, kind.extract(f));
    if newRecords.None? {
      return Crash;
    }
    if newRecords.value == [] {
      return Page([], None);
    }
    var raw := kind.token(data, f);
    if raw.None? {
      return Page(newRecords.value, None);
    }
    if !raw.value.JStr? {
      return Crash;
    }
    return Page(newRecords.value, Some(StripEq(raw.value.s)));
  }

  /** The `while True` loop of one category: fetch a page, append its records, follow the token. */
  method FetchCategory<T>(kind: Kind<T>, fetch: Request -> Json, maxPages: nat) returns (run: Run<T>)
    ensures run == Drain(kind, fetch, First(kind.category), maxPages)
  {
    ghost var whole := Drain(kind, fetch, First(kind.category), maxPages);
    var agg: seq<T> := [];
    var req := First(kind.category);
    var left: nat := maxPages;
    AfterEmpty(whole);
    while true
      invariant whole == After(agg, Drain(kind, fetch, req, left))
      decreases left
    {
      if left == 0 {
        return OutOfPages;
      }
      var step := ReadPage(kind, fetch(req));
      if !step.Page? || step.next.None? {
        Finish(kind, fetch, req, left, agg, whole, step);
        return if step.NoData? then Private else if step.Crash? then Crashed else Done(agg + step.records);
      }
      Advance(kind, fetch, req, left, agg, whole, step);
      agg := agg + step.records;
      req := Next(kind.category, step.next.value);
      left := left - 1;
    }
  }

  /** The last turn of the page loop: "private", an uncaught exception, or the last page. */
  lemma Finish<T>(kind: Kind<T>, fetch: Request -> Json, req: Request, pages: nat, agg: seq<T>, whole: Run<T>, step: Step<T>)
    requires whole == After(agg, Drain(kind, fetch, req, pages)) && pages > 0
    requires step == PageStep(kind, fetch(req)) && (!step.Page? || step.next.None?)
    ensures whole == if step.NoData? then Private else if step.Crash? then Crashed else Done(agg + step.records)
  {
  }

  /** A turn of the page loop that follows the token keeps the remaining computation. */
  lemma Advance<T>(kind: Kind<T>, fetch: Request -> Json, req: Request, pages: nat, agg: seq<T>, whole: Run<T>, step: Step<T>)
    requires whole == After(agg, Drain(kind, fetch, req, pages)) && pages > 0
    requires step == PageStep(kind, fetch(req)) && step.Page? && step.next.Some?
    ensures whole == After(agg + step.records, Drain(kind, fetch, Next(kind.category, step.next.value), pages - 1))
  {
    AfterAfter(agg, step.records, Drain(kind, fetch, Next(kind.category, step.next.value), pages - 1));
  }

  lemma AfterEmpty<T>(r: Run<T>)
    ensures After([], r) == r
  {
    if r.Done? {
      assert [] + r.records == r.records;
    }
  }

  lemma AfterAfter<T>(agg: seq<T>, recs: seq<T>, r: Run<T>)
    ensures After(agg, After(recs, r)) == After(agg + recs, r)
  {
    if r.Done? {
      assert agg + (recs + r.records) == (agg + recs) + r.records;
    }
  }

  /** A page with zero records ends the category even when it carries a token. */
  lemma EmptyPageEnds<T>(kind: Kind<T>, fetch: Request -> Json, req: Request, pages: nat)
    requires pages > 0 && kind.locate(fetch(req)).Found?
    requires Collect(kind.locate(fetch(req)).entries, kind.extract(kind.locate(fetch(req)).format)) == Some([])
    ensures Drain(kind, fetch, req, pages) == Done([])
  {
  }

  /** A page without a token ends the category with what has been gathered. */
  lemma NoTokenEnds<T>(kind: Kind<T>, fetch: Request -> Json, req: Request, pages: nat, recs: seq<T>)
    requires pages > 0 && kind.locate(fetch(req)).Found?
    requires Collect(kind.locate(fetch(req)).entries, kind.extract(kind.locate(fetch(req)).format)) == Some(recs)
    requires kind.token(fetch(req), kind.locate(fetch(req)).format).None?
    ensures Drain(kind, fetch, req, pages) == Done(recs)
  {
  }

  /** The loop goes on exactly while a page yields records and a string token: a run that
      ends normally is the in-order concatenation of its pages' records. */
  lemma {:induction false} DrainPages<T>(kind: Kind<T>, fetch: Request -> Json, req: Request, pages: nat)
    requires Drain(kind, fetch, req, pages).Done?
    ensures pages > 0 && PageStep(kind, fetch(req)).Page?
    ensures var all := Drain(kind, fetch, req, pages).records;
      var step := PageStep(kind, fetch(req));
      && |step.records| <= |all| && all[..|step.records|] == step.records
      && (step.next.None? ==> all == step.records)
      && (step.next.Some? ==>
            Drain(kind, fetch, Next(kind.category, step.next.value), pages - 1)
            == Done(all[|step.records|..]))
  {
    var step := PageStep(kind, fetch(req));
    var all := Drain(kind, fetch, req, pages).records;
    if step.next.Some? {
      var rest := Drain(kind, fetch, Next(kind.category, step.next.value), pages - 1);
      assert all == step.records + rest.records;
      assert all[..|step.records|] == step.records;
      assert all[|step.records|..] == rest.records;
    }
  }

  /** Two pages, the first with a token and the second without: the records of both, in order. */
  lemma TwoPages<T>(kind: Kind<T>, fetch: Request -> Json, pages: nat, r1: seq<T>, t: string, r2: seq<T>)
    requires pages >= 2
    requires PageStep(kind, fetch(First(kind.category))) == Page(r1, Some(t))
    requires PageStep(kind, fetch(Next(kind.category, t))) == Page(r2, None)
    ensures Drain(kind, fetch, First(kind.category), pages) == Done(r1 + r2)
  {
    assert Drain(kind, fetch, Next(kind.category, t), pages - 1) == Done(r2);
  }

  /** A later page without the category's block ends the category with "private",
      discarding the records of the pages before it. */
  lemma {:induction false} LaterPrivateDiscards<T>(kind: Kind<T>, fetch: Request -> Json, pages: nat, r1: seq<T>, t: string)
    requires pages >= 2
    requires PageStep(kind, fetch(First(kind.category))) == Page(r1, Some(t))
    requires kind.locate(fetch(Next(kind.category, t))).Absent?
    ensures Drain(kind, fetch, First(kind.category), pages) == Private
  {
    assert PageStep(kind, fetch(Next(kind.category, t))) == NoData;
    assert Drain(kind, fetch, Next(kind.category, t), pages - 1) == Private;
  }

  // ---------------------------------------------------------------- get_reviews

  /** The status string GHunt returns: "failed", "empty", "private" or "". */
  datatype Status = Failed | Empty | PrivateProfile | Ok

  /** The result of `get_reviews`, or an exception it does not catch, or the page bound. */
  datatype Outcome =
    | Returned(status: Status, stats: map<Json, Json>, reviews: seq<Review>, photos: seq<Photo>)
    | Uncaught
    | PageBound

  /** `get_reviews`. `sorry` is the stats response being a 302 redirect to the sorry page. */
  function GetReviewsSpec(sorry: bool, fetch: Request -> Json, now: int, maxPages: nat): Outcome {
    if sorry then Returned(Failed, map[], [], [])
    else
      match StatsGate(fetch(StatsPage))
      case GateRaised => Uncaught
      case Closed(stats) => Returned(Empty, stats, [], [])
      case Open(stats) =>
        match Drain(ReviewsKind(), fetch, First(Reviews), maxPages)
        case Private => Returned(PrivateProfile, stats, [], [])
        case Crashed => Uncaught
        case OutOfPages => PageBound
        case Done(reviews) =>
          match Drain(PhotosKind(now), fetch, First(Photos), maxPages)
          case Private => Returned(PrivateProfile, stats, [], [])
          case Crashed => Uncaught
          case OutOfPages => PageBound
          case Done(photos) => Returned(Ok, stats, reviews, photos)
  }

  method GetReviews(sorry: bool, fetch: Request -> Json, now: int, maxPages: nat) returns (out: Outcome)
    ensures out == GetReviewsSpec(sorry, fetch, now, maxPages)
    ensures out.Returned? && out.status != Ok ==> out.reviews == [] && out.photos == []
  {
    if sorry {
      return Returned(Failed, map[], [], []);
    }
    var data := fetch(StatsPage);
    var gate := StatsGate(data);
    if gate.GateRaised? {
      return Uncaught;
    }
    if gate.Closed? {
      return Returned(Empty, gate.stats, [], []);
    }
    var stats := gate.stats;
    var reviews := FetchCategory(ReviewsKind(), fetch, maxPages);
    if !reviews.Done? {
      return if reviews.Private? then Returned(PrivateProfile, stats, [], [])
             else if reviews.Crashed? then Uncaught else PageBound;
    }
    var photos := FetchCategory(PhotosKind(now), fetch, maxPages);
    if !photos.Done? {
      return if photos.Private? then Returned(PrivateProfile, stats, [], [])
             else if photos.Crashed? then Uncaught else PageBound;
    }
    return Returned(Ok, stats, reviews.records, photos.records);
  }

  /** The redirect to the sorry page ends the call before any parsing. */
  lemma SorryFails(fetch: Request -> Json, now: int, maxPages: nat)
    ensures GetReviewsSpec(true, fetch, now, maxPages) == Returned(Failed, map[], [], [])
  {
  }

  /** "private" on a later review page hides the reviews of the earlier pages. */
  lemma {:induction false} PrivateHidesEarlierReviews(fetch: Request -> Json, now: int, maxPages: nat, stats: map<Json, Json>, r1: seq<Review>, t: string)
    requires StatsGate(fetch(StatsPage)) == Open(stats)
    requires maxPages >= 2 && r1 != []
    requires PageStep(ReviewsKind(), fetch(First(Reviews))) == Page(r1, Some(t))
    requires LocateReviews(fetch(Next(Reviews, t))).Absent?
    ensures GetReviewsSpec(false, fetch, now, maxPages) == Returned(PrivateProfile, stats, [], [])
  {
    LaterPrivateDiscards(ReviewsKind(), fetch, maxPages, r1, t);
  }

  /** A successful call returns the stats of the gate and the reviews and photos of the two loops. */
  lemma {:induction false} SuccessIsBothRuns(sorry: bool, fetch: Request -> Json, now: int, maxPages: nat)
    requires GetReviewsSpec(sorry, fetch, now, maxPages).Returned?
    requires GetReviewsSpec(sorry, fetch, now, maxPages).status == Ok
    ensures var out := GetReviewsSpec(sorry, fetch, now, maxPages);
      && !sorry
      && StatsGate(fetch(StatsPage)) == Open(out.stats)
      && Drain(ReviewsKind(), fetch, First(Reviews), maxPages) == Done(out.reviews)
      && Drain(PhotosKind(now), fetch, First(Photos), maxPages) == Done(out.photos)
  {
  }
}
