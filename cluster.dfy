/**
 The probable-location engine over the places of a target's reviews and photos:
 grouping each placed record with every record near it, ordering the groups by size,
 eliminating the groups whose points another group already holds, scoring the
 survivors, and reporting the best-scored areas with a confidence band.
 */
module Cluster {
  import opened Wrappers
  import opened PyJson
  import opened MapsRecords
  import opened Confidence

  /** A (latitude, longitude) pair as it was read from the page. */
  datatype Point = Point(lat: Json, lon: Json)

  /** What the engine reads of a review or a photo: the place id, the position and the
      date, the latter as an ordinal on the time line. */
  datatype GeoRecord = GeoRecord(id: Json, at: Point, date: int)

  /** The position of a location; an unset position reads as (0, 0). */
  function PointOf(loc: Location): Point {
    match loc.position
    case None => Point(JNum(0), JNum(0))
    case Some(c) => Point(c.lat, c.lon)
  }

  function ReviewRecord(r: Review, ordinal: When -> int): GeoRecord {
    GeoRecord(r.location.id, PointOf(r.location), ordinal(r.date))
  }

  function PhotoRecord(p: Photo, ordinal: When -> int): GeoRecord {
    GeoRecord(p.location.id, PointOf(p.location), ordinal(p.date))
  }

  /** A record takes part as a seed only when both coordinates are truthy. */
  predicate Placed(r: GeoRecord) {
    Truthy(r.at.lat) && Truthy(r.at.lon)
  }

  /** An area: the place id that seeded it, the dates and points of the records near its
      seeds (one entry per seed and near record), and the span of those dates. */
  datatype Group = Group(id: Json, dates: seq<int>, points: seq<Point>, span: int)

  function Size(g: Group): nat {
    |g.points|
  }

  function Max(s: seq<int>): (m: int)
    requires |s| > 0
    ensures m in s && forall x :: x in s ==> x <= m
  {
    if |s| == 1 then s[0]
    else
      var r := Max(s[1..]);
      assert forall x :: x in s ==> x == s[0] || x in s[1..];
      if s[0] >= r then s[0] else r
  }

  function Min(s: seq<int>): (m: int)
    requires |s| > 0
    ensures m in s && forall x :: x in s ==> m <= x
  {
    if |s| == 1 then s[0]
    else
      var r := Min(s[1..]);
      assert forall x :: x in s ==> x == s[0] || x in s[1..];
      if s[0] <= r then s[0] else r
  }

  // ---------------------------------------------------------------- grouping

  /** The dates of the records of `rs` that lie near `p`, in the order of `rs`. */
  function NearDates(rs: seq<GeoRecord>, p: Point, near: (Point, Point) -> bool): seq<int> {
    if rs == [] then []
    else NearDates(rs[..|rs| - 1], p, near) + (if near(p, rs[|rs| - 1].at) then [rs[|rs| - 1].date] else [])
  }

  /** The positions of the records of `rs` that lie near `p`, in the order of `rs`. */
  function NearPoints(rs: seq<GeoRecord>, p: Point, near: (Point, Point) -> bool): seq<Point> {
    if rs == [] then []
    else NearPoints(rs[..|rs| - 1], p, near) + (if near(p, rs[|rs| - 1].at) then [rs[|rs| - 1].at] else [])
  }

  lemma {:induction false} NearSameLength(rs: seq<GeoRecord>, p: Point, near: (Point, Point) -> bool)
    ensures |NearDates(rs, p, near)| == |NearPoints(rs, p, near)|
    decreases |rs|
  {
    if rs != [] {
      NearSameLength(rs[..|rs| - 1], p, near);
    }
  }

  /** Every point near `p` is the position of one of the records, and near `p`. */
  lemma {:induction false} NearPointsAreNear(rs: seq<GeoRecord>, p: Point, near: (Point, Point) -> bool)
    ensures forall k :: 0 <= k < |NearPoints(rs, p, near)| ==>
              near(p, NearPoints(rs, p, near)[k]) && exists i :: 0 <= i < |rs| && rs[i].at == NearPoints(rs, p, near)[k]
    decreases |rs|
  {
    if rs != [] {
      var init := rs[..|rs| - 1];
      NearPointsAreNear(init, p, near);
      var ps := NearPoints(rs, p, near);
      var early := NearPoints(init, p, near);
      forall k | 0 <= k < |ps|
        ensures near(p, ps[k]) && exists i :: 0 <= i < |rs| && rs[i].at == ps[k]
      {
        if k < |early| {
          var i :| 0 <= i < |init| && init[i].at == early[k];
          assert rs[i] == init[i];
        } else {
          assert ps[k] == rs[|rs| - 1].at;
        }
      }
    }
  }

  /** The position of the group with place id `id`, or `|gs|` when there is none. */
  function Find(gs: seq<Group>, id: Json): (k: nat)
    ensures k <= |gs|
    ensures k < |gs| ==> gs[k].id == id
    ensures forall i :: 0 <= i < k ==> gs[i].id != id
  {
    if gs == [] then 0
    else if gs[0].id == id then 0
    else 1 + Find(gs[1..], id)
  }

  /** The changed group after a seed, from its old state (or an empty one on first sight). */
  function Grown(g: Group, r: GeoRecord, rs: seq<GeoRecord>, near: (Point, Point) -> bool): Group
    requires g.dates + NearDates(rs, r.at, near) != []
  {
    var ds := g.dates + NearDates(rs, r.at, near);
    Group(r.id, ds, g.points + NearPoints(rs, r.at, near), Max(ds) - Min(ds))
  }

  /** One seed: an unplaced record is skipped; an unhashable place id raises; otherwise the
      seed's group (made on first sight) takes the date and position of every record near
      the seed, and its span becomes the spread of its dates (raising when it has none). */
  function AddSeed(gs: seq<Group>, r: GeoRecord, rs: seq<GeoRecord>, near: (Point, Point) -> bool): Option<seq<Group>> {
    if !Placed(r) then Some(gs)
    else if !Hashable(r.id) then None
    else
      var k := Find(gs, r.id);
      var g := if k < |gs| then gs[k] else Group(r.id, [], [], 0);
      if g.dates + NearDates(rs, r.at, near) == [] then None
      else Some(if k < |gs| then gs[k := Grown(g, r, rs, near)] else gs + [Grown(g, r, rs, near)])
  }

  /** The groups after the first `n` records have been used as seeds; None is the exception. */
  function GroupsUpTo(rs: seq<GeoRecord>, near: (Point, Point) -> bool, n: nat): Option<seq<Group>>
    requires n <= |rs|
  {
    if n == 0 then Some([])
    else match GroupsUpTo(rs, near, n - 1)
      case None => None
      case Some(gs) => AddSeed(gs, rs[n - 1], rs, near)
  }

  function Groups(rs: seq<GeoRecord>, near: (Point, Point) -> bool): Option<seq<Group>> {
    GroupsUpTo(rs, near, |rs|)
  }

  // Reference description of the groups.

  /** The place ids of the placed records among the first `n`, each once, in order of first sight. */
  function PlacedIds(rs: seq<GeoRecord>, n: nat): seq<Json>
    requires n <= |rs|
  {
    if n == 0 then []
    else
      var p := PlacedIds(rs, n - 1);
      if Placed(rs[n - 1]) && rs[n - 1].id !in p then p + [rs[n - 1].id] else p
  }

  /** The dates gathered for place id `x` by the first `n` seeds: the near dates of every placed seed with that id. */
  function SeedDates(rs: seq<GeoRecord>, near: (Point, Point) -> bool, x: Json, n: nat): seq<int>
    requires n <= |rs|
  {
    if n == 0 then []
    else SeedDates(rs, near, x, n - 1) + (if Placed(rs[n - 1]) && rs[n - 1].id == x then NearDates(rs, rs[n - 1].at, near) else [])
  }

  /** The points gathered for place id `x` by the first `n` seeds. */
  function SeedPoints(rs: seq<GeoRecord>, near: (Point, Point) -> bool, x: Json, n: nat): seq<Point>
    requires n <= |rs|
  {
    if n == 0 then []
    else SeedPoints(rs, near, x, n - 1) + (if Placed(rs[n - 1]) && rs[n - 1].id == x then NearPoints(rs, rs[n - 1].at, near) else [])
  }

  predicate DistinctIds(gs: seq<Group>) {
    forall i, j :: 0 <= i < j < |gs| ==> gs[i].id != gs[j].id
  }

  predicate Distinct(xs: seq<Json>) {
    forall i, j :: 0 <= i < j < |xs| ==> xs[i] != xs[j]
  }

  /** The place ids are listed once each. */
  lemma {:induction false} PlacedIdsDistinct(rs: seq<GeoRecord>, n: nat)
    requires n <= |rs|
    ensures Distinct(PlacedIds(rs, n))
  {
    if n > 0 {
      PlacedIdsDistinct(rs, n - 1);
    }
  }

  /** The place ids are exactly the ids of the placed records. */
  lemma {:induction false} PlacedIdsMembers(rs: seq<GeoRecord>, n: nat)
    requires n <= |rs|
    ensures forall x :: x in PlacedIds(rs, n) <==> exists i :: 0 <= i < n && Placed(rs[i]) && rs[i].id == x
  {
    if n > 0 {
      PlacedIdsMembers(rs, n - 1);
    }
  }

  /** The groups match the reference description: one per placed id, in order of first
      sight, each holding what its seeds gathered, with a non-empty date list and the
      spread of its dates as span. */
  predicate Shaped(gs: seq<Group>, rs: seq<GeoRecord>, near: (Point, Point) -> bool, n: nat)
    requires n <= |rs|
  {
    IdsAre(gs, PlacedIds(rs, n)) && Gathered(gs, rs, near, n) && Spanned(gs)
  }

  predicate IdsAre(gs: seq<Group>, ids: seq<Json>) {
    |gs| == |ids| && forall k :: 0 <= k < |gs| ==> gs[k].id == ids[k]
  }

  predicate Gathered(gs: seq<Group>, rs: seq<GeoRecord>, near: (Point, Point) -> bool, n: nat)
    requires n <= |rs|
  {
    forall k :: 0 <= k < |gs| ==> GatheredBy(gs[k], rs, near, n)
  }

  /** A group holds what the first `n` seeds with its id gathered. */
  predicate GatheredBy(g: Group, rs: seq<GeoRecord>, near: (Point, Point) -> bool, n: nat)
    requires n <= |rs|
  {
    g.dates == SeedDates(rs, near, g.id, n) && g.points == SeedPoints(rs, near, g.id, n)
  }

  predicate SpanOf(g: Group) {
    g.dates != [] && g.span == Max(g.dates) - Min(g.dates)
  }

  predicate Spanned(gs: seq<Group>) {
    forall k :: 0 <= k < |gs| ==> SpanOf(gs[k])
  }

  lemma GroupsShaped(rs: seq<GeoRecord>, near: (Point, Point) -> bool, n: nat)
    requires n <= |rs| && GroupsUpTo(rs, near, n).Some?
    ensures Shaped(GroupsUpTo(rs, near, n).value, rs, near, n)
  {
    GroupsIds(rs, near, n);
    GroupsGathered(rs, near, n);
    GroupsSpanned(rs, near, n);
  }

  // The three parts of the description, each by induction on the seeds.

  lemma {:induction false} GroupsIds(rs: seq<GeoRecord>, near: (Point, Point) -> bool, n: nat)
    requires n <= |rs| && GroupsUpTo(rs, near, n).Some?
    ensures IdsAre(GroupsUpTo(rs, near, n).value, PlacedIds(rs, n))
  {
    if n > 0 {
      GroupsIds(rs, near, n - 1);
      IdsStep(GroupsUpTo(rs, near, n - 1).value, rs, near, n);
    }
  }

  lemma {:induction false} GroupsGathered(rs: seq<GeoRecord>, near: (Point, Point) -> bool, n: nat)
    requires n <= |rs| && GroupsUpTo(rs, near, n).Some?
    ensures Gathered(GroupsUpTo(rs, near, n).value, rs, near, n)
  {
    if n > 0 {
      GroupsIds(rs, near, n - 1);
      GroupsGathered(rs, near, n - 1);
      GatheredStep(GroupsUpTo(rs, near, n - 1).value, rs, near, n);
    }
  }

  lemma {:induction false} GroupsSpanned(rs: seq<GeoRecord>, near: (Point, Point) -> bool, n: nat)
    requires n <= |rs| && GroupsUpTo(rs, near, n).Some?
    ensures Spanned(GroupsUpTo(rs, near, n).value)
  {
    if n > 0 {
      GroupsSpanned(rs, near, n - 1);
      SpannedStep(GroupsUpTo(rs, near, n - 1).value, rs[n - 1], rs, near);
    }
  }

  // What one seed does to the list of groups.

  lemma {:induction false} AddExisting(gs: seq<Group>, r: GeoRecord, rs: seq<GeoRecord>, near: (Point, Point) -> bool)
    requires Placed(r) && Find(gs, r.id) < |gs| && AddSeed(gs, r, rs, near).Some?
    ensures gs[Find(gs, r.id)].dates + NearDates(rs, r.at, near) != []
    ensures AddSeed(gs, r, rs, near).value == gs[Find(gs, r.id) := Grown(gs[Find(gs, r.id)], r, rs, near)]
  {
  }

  lemma {:induction false} AddNew(gs: seq<Group>, r: GeoRecord, rs: seq<GeoRecord>, near: (Point, Point) -> bool)
    requires Placed(r) && Find(gs, r.id) == |gs| && AddSeed(gs, r, rs, near).Some?
    ensures Group(r.id, [], [], 0).dates + NearDates(rs, r.at, near) != []
    ensures AddSeed(gs, r, rs, near).value == gs + [Grown(Group(r.id, [], [], 0), r, rs, near)]
  {
  }

  lemma {:induction false} IdsStep(gs: seq<Group>, rs: seq<GeoRecord>, near: (Point, Point) -> bool, n: nat)
    requires 0 < n <= |rs| && IdsAre(gs, PlacedIds(rs, n - 1)) && AddSeed(gs, rs[n - 1], rs, near).Some?
    ensures IdsAre(AddSeed(gs, rs[n - 1], rs, near).value, PlacedIds(rs, n))
  {
    var r := rs[n - 1];
    var ids := PlacedIds(rs, n - 1);
    if !Placed(r) {
      assert PlacedIds(rs, n) == ids;
    } else if Find(gs, r.id) < |gs| {
      AddExisting(gs, r, rs, near);
      assert r.id == ids[Find(gs, r.id)];
      assert PlacedIds(rs, n) == ids;
    } else {
      AddNew(gs, r, rs, near);
      assert r.id !in ids by {
        assert forall j :: 0 <= j < |ids| ==> ids[j] == gs[j].id;
      }
      assert PlacedIds(rs, n) == ids + [r.id];
    }
  }

  lemma {:induction false} SpannedStep(gs: seq<Group>, r: GeoRecord, rs: seq<GeoRecord>, near: (Point, Point) -> bool)
    requires Spanned(gs) && AddSeed(gs, r, rs, near).Some?
    ensures Spanned(AddSeed(gs, r, rs, near).value)
  {
    if Placed(r) {
      var k := Find(gs, r.id);
      if k < |gs| {
        AddExisting(gs, r, rs, near);
      } else {
        AddNew(gs, r, rs, near);
      }
    }
  }

  lemma {:induction false} GatheredStep(gs: seq<Group>, rs: seq<GeoRecord>, near: (Point, Point) -> bool, n: nat)
    requires 0 < n <= |rs| && IdsAre(gs, PlacedIds(rs, n - 1)) && Gathered(gs, rs, near, n - 1)
    requires AddSeed(gs, rs[n - 1], rs, near).Some?
    ensures Gathered(AddSeed(gs, rs[n - 1], rs, near).value, rs, near, n)
  {
    var r := rs[n - 1];
    if !Placed(r) {
      UnplacedGathered(gs, rs, near, n);
    } else if Find(gs, r.id) < |gs| {
      OnlyGroupPlaced(gs, rs, n - 1, Find(gs, r.id));
      FoundGathered(gs, rs, near, n, Find(gs, r.id));
    } else {
      UnfoundGathered(gs, rs, near, n);
    }
  }

  lemma {:induction false} UnplacedGathered(gs: seq<Group>, rs: seq<GeoRecord>, near: (Point, Point) -> bool, n: nat)
    requires 0 < n <= |rs| && Gathered(gs, rs, near, n - 1) && !Placed(rs[n - 1])
    ensures Gathered(gs, rs, near, n)
  {
    forall j | 0 <= j < |gs|
      ensures GatheredBy(gs[j], rs, near, n)
    {
      GatheredByOther(gs[j], rs, near, n);
    }
  }

  lemma {:induction false} FoundGathered(gs: seq<Group>, rs: seq<GeoRecord>, near: (Point, Point) -> bool, n: nat, k: nat)
    requires 0 < n <= |rs| && Gathered(gs, rs, near, n - 1)
    requires Placed(rs[n - 1]) && k == Find(gs, rs[n - 1].id) < |gs| && AddSeed(gs, rs[n - 1], rs, near).Some?
    requires forall j :: 0 <= j < |gs| && j != k ==> gs[j].id != gs[k].id
    ensures Gathered(AddSeed(gs, rs[n - 1], rs, near).value, rs, near, n)
  {
    AddExisting(gs, rs[n - 1], rs, near);
    ExistingGathered(gs, rs, near, n, k);
  }

  lemma {:induction false} UnfoundGathered(gs: seq<Group>, rs: seq<GeoRecord>, near: (Point, Point) -> bool, n: nat)
    requires 0 < n <= |rs| && IdsAre(gs, PlacedIds(rs, n - 1)) && Gathered(gs, rs, near, n - 1)
    requires Placed(rs[n - 1]) && Find(gs, rs[n - 1].id) == |gs| && AddSeed(gs, rs[n - 1], rs, near).Some?
    ensures Gathered(AddSeed(gs, rs[n - 1], rs, near).value, rs, near, n)
  {
    var r := rs[n - 1];
    AddNew(gs, r, rs, near);
    assert r.id !in PlacedIds(rs, n - 1) by {
      assert forall j :: 0 <= j < |gs| ==> PlacedIds(rs, n - 1)[j] == gs[j].id;
    }
    NewGathered(gs, rs, near, n);
  }

  /** A seed with another id leaves a group's gathering as it was. */
  lemma {:induction false} GatheredByOther(g: Group, rs: seq<GeoRecord>, near: (Point, Point) -> bool, n: nat)
    requires 0 < n <= |rs| && GatheredBy(g, rs, near, n - 1)
    requires g.id != rs[n - 1].id || !Placed(rs[n - 1])
    ensures GatheredBy(g, rs, near, n)
  {
  }

  /** The seed's own group takes what the seed gathered. */
  lemma {:induction false} GatheredBySeed(g: Group, rs: seq<GeoRecord>, near: (Point, Point) -> bool, n: nat)
    requires 0 < n <= |rs| && GatheredBy(g, rs, near, n - 1)
    requires g.id == rs[n - 1].id && Placed(rs[n - 1]) && g.dates + NearDates(rs, rs[n - 1].at, near) != []
    ensures GatheredBy(Grown(g, rs[n - 1], rs, near), rs, near, n)
  {
  }

  /** With distinct ids, the group found is the only one with its id. */
  lemma {:induction false} OnlyGroup(gs: seq<Group>, ids: seq<Json>, k: nat)
    requires IdsAre(gs, ids) && Distinct(ids) && k < |gs|
    ensures forall j :: 0 <= j < |gs| && j != k ==> gs[j].id != gs[k].id
  {
    forall j | 0 <= j < |gs| && j != k
      ensures gs[j].id != gs[k].id
    {
      if j < k {
        assert ids[j] != ids[k];
      } else {
        assert ids[k] != ids[j];
      }
    }
  }

  lemma {:induction false} OnlyGroupPlaced(gs: seq<Group>, rs: seq<GeoRecord>, n: nat, k: nat)
    requires n <= |rs| && IdsAre(gs, PlacedIds(rs, n)) && k < |gs|
    ensures forall j :: 0 <= j < |gs| && j != k ==> gs[j].id != gs[k].id
  {
    PlacedIdsDistinct(rs, n);
    OnlyGroup(gs, PlacedIds(rs, n), k);
  }

  lemma {:induction false} ExistingGathered(gs: seq<Group>, rs: seq<GeoRecord>, near: (Point, Point) -> bool, n: nat, k: nat)
    requires 0 < n <= |rs| && Gathered(gs, rs, near, n - 1) && Placed(rs[n - 1])
    requires k < |gs| && gs[k].id == rs[n - 1].id && gs[k].dates + NearDates(rs, rs[n - 1].at, near) != []
    requires forall j :: 0 <= j < |gs| && j != k ==> gs[j].id != gs[k].id
    ensures Gathered(gs[k := Grown(gs[k], rs[n - 1], rs, near)], rs, near, n)
  {
    var hs := gs[k := Grown(gs[k], rs[n - 1], rs, near)];
    forall j | 0 <= j < |hs|
      ensures GatheredBy(hs[j], rs, near, n)
    {
      if j == k {
        GatheredBySeed(gs[k], rs, near, n);
      } else {
        GatheredByOther(gs[j], rs, near, n);
      }
    }
  }

  lemma {:induction false} NewGathered(gs: seq<Group>, rs: seq<GeoRecord>, near: (Point, Point) -> bool, n: nat)
    requires 0 < n <= |rs| && IdsAre(gs, PlacedIds(rs, n - 1)) && Gathered(gs, rs, near, n - 1)
    requires rs[n - 1].id !in PlacedIds(rs, n - 1) && Placed(rs[n - 1]) && NearDates(rs, rs[n - 1].at, near) != []
    ensures Gathered(gs + [Grown(Group(rs[n - 1].id, [], [], 0), rs[n - 1], rs, near)], rs, near, n)
  {
    var r := rs[n - 1];
    var ids := PlacedIds(rs, n - 1);
    SeedsOfUnseen(rs, near, r.id, n - 1);
    var e := Group(r.id, [], [], 0);
    var g := Grown(e, r, rs, near);
    var hs := gs + [g];
    forall j | 0 <= j < |hs|
      ensures GatheredBy(hs[j], rs, near, n)
    {
      if j == |gs| {
        GatheredBySeed(e, rs, near, n);
      } else {
        assert gs[j].id == ids[j];
        GatheredByOther(gs[j], rs, near, n);
      }
    }
  }

  /** An id no placed record has gathered nothing. */
  lemma {:induction false} SeedsOfUnseen(rs: seq<GeoRecord>, near: (Point, Point) -> bool, x: Json, n: nat)
    requires n <= |rs| && x !in PlacedIds(rs, n)
    ensures SeedDates(rs, near, x, n) == [] && SeedPoints(rs, near, x, n) == []
  {
    if n > 0 {
      assert forall y :: y in PlacedIds(rs, n - 1) ==> y in PlacedIds(rs, n);
      SeedsOfUnseen(rs, near, x, n - 1);
    }
  }

  /** The seed at position `i` raises: a placed record whose id cannot be a key, or whose
      group is new and finds no record near it (so `max` meets an empty list). */
  predicate SeedFails(rs: seq<GeoRecord>, near: (Point, Point) -> bool, i: nat)
    requires i < |rs|
  {
    Placed(rs[i]) && (!Hashable(rs[i].id) || (rs[i].id !in PlacedIds(rs, i) && NearDates(rs, rs[i].at, near) == []))
  }

  /** Grouping raises exactly when some seed fails. */
  lemma {:induction false} GroupsNoneIff(rs: seq<GeoRecord>, near: (Point, Point) -> bool, n: nat)
    requires n <= |rs|
    ensures GroupsUpTo(rs, near, n).None? <==> exists i :: 0 <= i < n && SeedFails(rs, near, i)
  {
    if n > 0 {
      GroupsNoneIff(rs, near, n - 1);
      if GroupsUpTo(rs, near, n - 1).Some? {
        var gs := GroupsUpTo(rs, near, n - 1).value;
        GroupsIds(rs, near, n - 1);
        GroupsSpanned(rs, near, n - 1);
        SeedStepFails(gs, rs, near, n);
      }
    }
  }

  lemma {:induction false} SeedStepFails(gs: seq<Group>, rs: seq<GeoRecord>, near: (Point, Point) -> bool, n: nat)
    requires 0 < n <= |rs| && IdsAre(gs, PlacedIds(rs, n - 1)) && Spanned(gs)
    ensures AddSeed(gs, rs[n - 1], rs, near).None? <==> SeedFails(rs, near, n - 1)
  {
    var r := rs[n - 1];
    if Placed(r) && Hashable(r.id) {
      var k := Find(gs, r.id);
      var ids := PlacedIds(rs, n - 1);
      if k < |gs| {
        assert gs[k].dates != [];
        assert r.id in ids by {
          assert ids[k] == r.id;
        }
      } else {
        assert r.id !in ids by {
          assert forall j :: 0 <= j < |ids| ==> ids[j] == gs[j].id;
        }
        assert Group(r.id, [], [], 0).dates + NearDates(rs, r.at, near) == NearDates(rs, r.at, near);
      }
    }
  }

  /** When every placed record has a hashable id and lies near itself, grouping succeeds. */
  lemma GroupsSucceed(rs: seq<GeoRecord>, near: (Point, Point) -> bool)
    requires forall i :: 0 <= i < |rs| && Placed(rs[i]) ==> Hashable(rs[i].id) && near(rs[i].at, rs[i].at)
    ensures Groups(rs, near).Some?
  {
    GroupsNoneIff(rs, near, |rs|);
    if Groups(rs, near).None? {
      var i :| 0 <= i < |rs| && SeedFails(rs, near, i);
      NearIncludesSelf(rs, i, near);
    }
  }

  /** A record near its own position contributes its date to that position's near dates. */
  lemma {:induction false} NearIncludesSelf(rs: seq<GeoRecord>, i: nat, near: (Point, Point) -> bool)
    requires i < |rs| && near(rs[i].at, rs[i].at)
    ensures NearDates(rs, rs[i].at, near) != []
    decreases |rs|
  {
    var init := rs[..|rs| - 1];
    if i < |rs| - 1 {
      assert init[i] == rs[i];
      NearIncludesSelf(init, i, near);
    }
  }

  /** Once grouping has raised, later seeds do not matter. */
  lemma {:induction false} RaisedStays(rs: seq<GeoRecord>, near: (Point, Point) -> bool, a: nat, b: nat)
    requires a <= b <= |rs| && GroupsUpTo(rs, near, a).None?
    ensures GroupsUpTo(rs, near, b).None?
    decreases b - a
  {
    if a < b {
      RaisedStays(rs, near, a + 1, b);
    }
  }

  lemma {:induction false} NearStep(rs: seq<GeoRecord>, j: nat, p: Point, near: (Point, Point) -> bool)
    requires j < |rs|
    ensures NearDates(rs[..j + 1], p, near) == NearDates(rs[..j], p, near) + (if near(p, rs[j].at) then [rs[j].date] else [])
    ensures NearPoints(rs[..j + 1], p, near) == NearPoints(rs[..j], p, near) + (if near(p, rs[j].at) then [rs[j].at] else [])
  {
    assert rs[..j + 1][..j] == rs[..j];
  }

  lemma {:induction false} SeedIs(rs: seq<GeoRecord>, near: (Point, Point) -> bool, i: nat, gs: seq<Group>)
    requires i < |rs| && GroupsUpTo(rs, near, i) == Some(gs)
    ensures GroupsUpTo(rs, near, i + 1) == AddSeed(gs, rs[i], rs, near)
  {
  }

  lemma {:induction false} SeedOutcome(gs: seq<Group>, r: GeoRecord, rs: seq<GeoRecord>, near: (Point, Point) -> bool, k: nat, g: Group)
    requires Placed(r) && Hashable(r.id) && k == Find(gs, r.id)
    requires g == if k < |gs| then gs[k] else Group(r.id, [], [], 0)
    ensures g.dates + NearDates(rs, r.at, near) == [] ==> AddSeed(gs, r, rs, near) == None
    ensures g.dates + NearDates(rs, r.at, near) != [] ==>
              AddSeed(gs, r, rs, near) == Some(if k < |gs| then gs[k := Grown(g, r, rs, near)] else gs + [Grown(g, r, rs, near)])
  {
  }

  /** The inner walk over every record, keeping the dates and positions of those near `p`. */
  method GatherNear(rs: seq<GeoRecord>, p: Point, near: (Point, Point) -> bool) returns (dates: seq<int>, points: seq<Point>)
    ensures dates == NearDates(rs, p, near) && points == NearPoints(rs, p, near)
  {
    dates, points := [], [];
    var j := 0;
    while j < |rs|
      invariant 0 <= j <= |rs|
      invariant dates == NearDates(rs[..j], p, near) && points == NearPoints(rs[..j], p, near)
    {
      NearStep(rs, j, p, near);
      if near(p, rs[j].at) {
        dates := dates + [rs[j].date];
        points := points + [rs[j].at];
      }
      j := j + 1;
    }
    assert rs[..|rs|] == rs;
  }

  /** The grouping loop: for each placed seed, look up or open its group, then walk every
      record and append the date and position of those near the seed. */
  method BuildGroups(rs: seq<GeoRecord>, near: (Point, Point) -> bool) returns (r: Option<seq<Group>>)
    ensures r == Groups(rs, near)
  {
    var gs: seq<Group> := [];
    var i := 0;
    while i < |rs|
      invariant 0 <= i <= |rs| && GroupsUpTo(rs, near, i) == Some(gs)
    {
      var seed := rs[i];
      SeedIs(rs, near, i, gs);
      if Placed(seed) {
        if !Hashable(seed.id) {
          RaisedStays(rs, near, i + 1, |rs|);
          return None;
        }
        var k := Find(gs, seed.id);
        var g := if k < |gs| then gs[k] else Group(seed.id, [], [], 0);
        var nearDates, nearPoints := GatherNear(rs, seed.at, near);
        var dates := g.dates + nearDates;
        var points := g.points + nearPoints;
        SeedOutcome(gs, seed, rs, near, k, g);
        if dates == [] {
          RaisedStays(rs, near, i + 1, |rs|);
          return None;
        }
        var grown := Group(seed.id, dates, points, Max(dates) - Min(dates));
        assert grown == Grown(g, seed, rs, near);
        gs := if k < |gs| then gs[k := grown] else gs + [grown];
      }
      i := i + 1;
    }
    return Some(gs);
  }

  /** The groups have distinct ids, as dictionary keys do. */
  lemma GroupsDistinct(rs: seq<GeoRecord>, near: (Point, Point) -> bool)
    requires Groups(rs, near).Some?
    ensures DistinctIds(Groups(rs, near).value)
  {
    var gs := Groups(rs, near).value;
    GroupsIds(rs, near, |rs|);
    PlacedIdsDistinct(rs, |rs|);
    assert forall j :: 0 <= j < |gs| ==> gs[j].id == PlacedIds(rs, |rs|)[j];
  }

  // ---------------------------------------------------------------- ordering by size

  /** Places `g` before the first group that is not larger, so equal sizes keep their order. */
  function Insert(g: Group, gs: seq<Group>): seq<Group> {
    if gs == [] || Size(gs[0]) <= Size(g) then [g] + gs else [gs[0]] + Insert(g, gs[1..])
  }

  /** `sorted(groups, key = number of points, reverse = True)`, which is stable. */
  function SortBySize(gs: seq<Group>): seq<Group> {
    if gs == [] then [] else Insert(gs[0], SortBySize(gs[1..]))
  }

  predicate SortedDesc(gs: seq<Group>) {
    forall i, j :: 0 <= i < j < |gs| ==> Size(gs[i]) >= Size(gs[j])
  }

  /** The groups of a given size, in order. */
  function OfSize(gs: seq<Group>, n: nat): seq<Group> {
    if gs == [] then [] else (if Size(gs[0]) == n then [gs[0]] else []) + OfSize(gs[1..], n)
  }

  lemma {:induction false} InsertPerm(g: Group, gs: seq<Group>)
    ensures multiset(Insert(g, gs)) == multiset([g]) + multiset(gs)
  {
    if gs != [] && Size(gs[0]) > Size(g) {
      InsertPerm(g, gs[1..]);
      assert gs == [gs[0]] + gs[1..];
    }
  }

  /** The groups after insertion are `g` and the groups given. */
  lemma {:induction false} InsertElems(g: Group, gs: seq<Group>)
    ensures forall x :: x in Insert(g, gs) <==> x == g || x in gs
  {
    if gs != [] && Size(gs[0]) > Size(g) {
      InsertElems(g, gs[1..]);
      assert gs == [gs[0]] + gs[1..];
    }
  }

  /** A sorted list's first group is at least as large as every later one. */
  lemma HeadLargest(gs: seq<Group>)
    requires gs != [] && SortedDesc(gs)
    ensures forall x :: x in gs[1..] ==> Size(gs[0]) >= Size(x)
  {
    forall x | x in gs[1..]
      ensures Size(gs[0]) >= Size(x)
    {
      var m :| 0 <= m < |gs[1..]| && gs[1..][m] == x;
      assert gs[m + 1] == x;
    }
  }

  /** A group at least as large as all those of a sorted list can go in front of it. */
  lemma ConsSorted(x: Group, u: seq<Group>)
    requires SortedDesc(u) && forall y :: y in u ==> Size(x) >= Size(y)
    ensures SortedDesc([x] + u)
  {
    var v := [x] + u;
    forall i, j | 0 <= i < j < |v|
      ensures Size(v[i]) >= Size(v[j])
    {
      assert v[j] == u[j - 1];
      if i > 0 {
        assert v[i] == u[i - 1];
      } else {
        assert u[j - 1] in u;
      }
    }
  }

  lemma {:induction false} InsertSorted(g: Group, gs: seq<Group>)
    requires SortedDesc(gs)
    ensures SortedDesc(Insert(g, gs))
  {
    if gs == [] || Size(gs[0]) <= Size(g) {
      HeadAbove(g, gs);
    } else {
      var t := gs[1..];
      assert SortedDesc(t) by {
        forall i, j | 0 <= i < j < |t| ensures Size(t[i]) >= Size(t[j]) {
          assert t[i] == gs[i + 1] && t[j] == gs[j + 1];
        }
      }
      InsertSorted(g, t);
      InsertElems(g, t);
      HeadLargest(gs);
      ConsSorted(gs[0], Insert(g, t));
    }
  }

  /** A group no smaller than the head of a sorted list can go in front of it. */
  lemma HeadAbove(g: Group, gs: seq<Group>)
    requires SortedDesc(gs) && (gs == [] || Size(gs[0]) <= Size(g))
    ensures SortedDesc([g] + gs)
  {
    if gs != [] {
      HeadLargest(gs);
      assert gs == [gs[0]] + gs[1..];
      assert forall y :: y in gs ==> y == gs[0] || y in gs[1..];
    }
    ConsSorted(g, gs);
  }

  lemma OfSizeCons(x: Group, t: seq<Group>, n: nat)
    ensures OfSize([x] + t, n) == (if Size(x) == n then [x] else []) + OfSize(t, n)
  {
    assert ([x] + t)[1..] == t;
  }

  /** Insertion adds `g` in front of the groups of its size. */
  lemma {:induction false} InsertOfSize(g: Group, gs: seq<Group>, n: nat)
    ensures OfSize(Insert(g, gs), n) == (if Size(g) == n then [g] else []) + OfSize(gs, n)
  {
    if gs == [] || Size(gs[0]) <= Size(g) {
      OfSizeCons(g, gs, n);
    } else {
      var t := gs[1..];
      InsertOfSize(g, t, n);
      OfSizeCons(gs[0], Insert(g, t), n);
      OfSizeCons(gs[0], t, n);
      assert gs == [gs[0]] + t;
      var head := if Size(gs[0]) == n then [gs[0]] else [];
      var mine := if Size(g) == n then [g] else [];
      assert mine != [] ==> head == [];
      assert head + (mine + OfSize(t, n)) == mine + (head + OfSize(t, n));
    }
  }

  lemma {:induction false} InsertDistinct(g: Group, gs: seq<Group>)
    requires DistinctIds(gs) && forall x :: x in gs ==> x.id != g.id
    ensures DistinctIds(Insert(g, gs))
  {
    if gs == [] || Size(gs[0]) <= Size(g) {
      ConsDistinct(g, gs);
    } else {
      var t := gs[1..];
      DistinctTail(gs);
      InsertDistinct(g, t);
      InsertElems(g, t);
      assert gs[0].id != g.id;
      assert forall x :: x in t ==> x.id != gs[0].id by {
        DistinctHead(gs);
      }
      ConsDistinct(gs[0], Insert(g, t));
    }
  }

  lemma ConsDistinct(x: Group, u: seq<Group>)
    requires DistinctIds(u) && forall y :: y in u ==> y.id != x.id
    ensures DistinctIds([x] + u)
  {
    var v := [x] + u;
    forall i, j | 0 <= i < j < |v|
      ensures v[i].id != v[j].id
    {
      assert v[j] == u[j - 1];
      if i > 0 {
        assert v[i] == u[i - 1];
      } else {
        assert u[j - 1] in u;
      }
    }
  }

  lemma DistinctTail(gs: seq<Group>)
    requires gs != [] && DistinctIds(gs)
    ensures DistinctIds(gs[1..])
  {
    var t := gs[1..];
    forall i, j | 0 <= i < j < |t|
      ensures t[i].id != t[j].id
    {
      assert t[i] == gs[i + 1] && t[j] == gs[j + 1];
    }
  }

  lemma DistinctHead(gs: seq<Group>)
    requires gs != [] && DistinctIds(gs)
    ensures forall x :: x in gs[1..] ==> x.id != gs[0].id
  {
    forall x | x in gs[1..]
      ensures x.id != gs[0].id
    {
      var m :| 0 <= m < |gs[1..]| && gs[1..][m] == x;
      assert gs[m + 1] == x;
    }
  }

  /** The order: sizes never increase, the groups are those given, and groups of equal
      size keep the order they had. */
  lemma {:induction false} SortBySizeFacts(gs: seq<Group>)
    ensures SortedDesc(SortBySize(gs))
    ensures multiset(SortBySize(gs)) == multiset(gs)
    ensures forall n: nat :: OfSize(SortBySize(gs), n) == OfSize(gs, n)
  {
    if gs != [] {
      SortBySizeFacts(gs[1..]);
      InsertSorted(gs[0], SortBySize(gs[1..]));
      InsertPerm(gs[0], SortBySize(gs[1..]));
      forall n: nat
        ensures OfSize(SortBySize(gs), n) == OfSize(gs, n)
      {
        InsertOfSize(gs[0], SortBySize(gs[1..]), n);
      }
      assert gs == [gs[0]] + gs[1..];
    }
  }

  /** Ordering keeps the ids distinct. */
  lemma {:induction false} SortKeepsDistinct(gs: seq<Group>)
    requires DistinctIds(gs)
    ensures DistinctIds(SortBySize(gs))
  {
    if gs != [] {
      var t := gs[1..];
      SortKeepsDistinct(t);
      SortBySizeFacts(t);
      forall x | x in SortBySize(t)
        ensures x.id != gs[0].id
      {
        assert x in multiset(t);
        var m :| 0 <= m < |t| && t[m] == x;
        assert gs[m + 1] == x;
      }
      InsertDistinct(gs[0], SortBySize(t));
    }
  }

  // ---------------------------------------------------------------- elimination

  /** Every point of `small` is among the points of `big`. */
  predicate Within(small: seq<Point>, big: seq<Point>) {
    forall x :: x in small ==> x in big
  }

  lemma WithinTrans(a: seq<Point>, b: seq<Point>, c: seq<Point>)
    requires Within(a, b) && Within(b, c)
    ensures Within(a, c)
  {
  }

  /** The inner pass of the group at position `k` over the positions below `m`, from the
      deletion list `del`: a group not yet deleted, other than `k`'s, whose points all lie
      among `k`'s points is added to the list. */
  function ScanUpTo(gs: seq<Group>, k: nat, del: seq<Json>, m: nat): seq<Json>
    requires k < |gs| && m <= |gs|
  {
    if m == 0 then del
    else
      var d := ScanUpTo(gs, k, del, m - 1);
      var c := gs[m - 1];
      if c.id in d || c.id == gs[k].id then d
      else if Within(c.points, gs[k].points) then d + [c.id]
      else d
  }

  /** The deletion list after the outer pass has visited the positions below `t`; a group
      already deleted does not delete others. */
  function SweepUpTo(gs: seq<Group>, t: nat): seq<Json>
    requires t <= |gs|
  {
    if t == 0 then []
    else
      var d := SweepUpTo(gs, t - 1);
      if gs[t - 1].id in d then d else ScanUpTo(gs, t - 1, d, |gs|)
  }

  function Deleted(gs: seq<Group>): seq<Json> {
    SweepUpTo(gs, |gs|)
  }

  /** The groups whose ids are not in `del`, in order. */
  function Survivors(gs: seq<Group>, del: seq<Json>): (r: seq<Group>)
    ensures forall x :: x in r <==> x in gs && x.id !in del
  {
    if gs == [] then []
    else
      var rest := Survivors(gs[1..], del);
      assert forall x :: x in gs <==> x == gs[0] || x in gs[1..];
      (if gs[0].id in del then [] else [gs[0]]) + rest
  }

  lemma {:induction false} ScanFacts(gs: seq<Group>, k: nat, del: seq<Json>, m: nat)
    requires k < |gs| && m <= |gs|
    ensures forall x :: x in del ==> x in ScanUpTo(gs, k, del, m)
    ensures forall x :: x in ScanUpTo(gs, k, del, m) && x !in del ==>
              exists c :: 0 <= c < m && gs[c].id == x && x != gs[k].id && Within(gs[c].points, gs[k].points)
    ensures forall c :: 0 <= c < m ==>
              gs[c].id in ScanUpTo(gs, k, del, m) || gs[c].id == gs[k].id || !Within(gs[c].points, gs[k].points)
  {
    if m > 0 {
      ScanFacts(gs, k, del, m - 1);
    }
  }

  lemma {:induction false} SweepGrows(gs: seq<Group>, a: nat, b: nat)
    requires a <= b <= |gs|
    ensures forall x :: x in SweepUpTo(gs, a) ==> x in SweepUpTo(gs, b)
    decreases b - a
  {
    if a < b {
      SweepGrows(gs, a + 1, b);
      if gs[a].id !in SweepUpTo(gs, a) {
        ScanFacts(gs, a, SweepUpTo(gs, a), |gs|);
      }
    }
  }

  /** An id that joins the list while the outer pass is at `t` was deleted by `t`'s group,
      which was itself not deleted then. */
  lemma {:induction false} SweepAdded(gs: seq<Group>, t: nat, x: Json)
    requires t < |gs| && x in SweepUpTo(gs, t + 1) && x !in SweepUpTo(gs, t)
    ensures gs[t].id !in SweepUpTo(gs, t)
    ensures exists c :: 0 <= c < |gs| && gs[c].id == x && x != gs[t].id && Within(gs[c].points, gs[t].points)
  {
    ScanFacts(gs, t, SweepUpTo(gs, t), |gs|);
  }

  /** When `t`'s group is not deleted at its turn, every other group within it is deleted then. */
  lemma {:induction false} SweepChecked(gs: seq<Group>, t: nat)
    requires t < |gs| && gs[t].id !in SweepUpTo(gs, t)
    ensures forall c :: 0 <= c < |gs| ==>
              gs[c].id in SweepUpTo(gs, t + 1) || gs[c].id == gs[t].id || !Within(gs[c].points, gs[t].points)
  {
    ScanFacts(gs, t, SweepUpTo(gs, t), |gs|);
  }

  /** An id missing from an earlier list and present in a later one joined it at some step. */
  lemma {:induction false} JoinedAt(gs: seq<Group>, x: Json, a: nat, b: nat) returns (t: nat)
    requires a <= b <= |gs| && x !in SweepUpTo(gs, a) && x in SweepUpTo(gs, b)
    ensures a <= t < b && x !in SweepUpTo(gs, t) && x in SweepUpTo(gs, t + 1)
    decreases b - a
  {
    if x in SweepUpTo(gs, a + 1) {
      t := a;
    } else {
      t := JoinedAt(gs, x, a + 1, b);
    }
  }

  /** No surviving group has all its points inside another survivor. */
  lemma SurvivorsIndependent(gs: seq<Group>)
    ensures forall p, q :: p in Survivors(gs, Deleted(gs)) && q in Survivors(gs, Deleted(gs)) && p.id != q.id ==>
              !Within(q.points, p.points)
  {
    var d := Deleted(gs);
    forall p, q | p in Survivors(gs, d) && q in Survivors(gs, d) && p.id != q.id
      ensures !Within(q.points, p.points)
    {
      var i :| 0 <= i < |gs| && gs[i] == p;
      var j :| 0 <= j < |gs| && gs[j] == q;
      SweepGrows(gs, i, |gs|);
      SweepGrows(gs, i + 1, |gs|);
      SweepChecked(gs, i);
    }
  }

  /** A group deleted at step `t` lies within some survivor. */
  lemma {:induction false} CoveredFrom(gs: seq<Group>, m: nat, t: nat)
    requires DistinctIds(gs) && m < |gs| && t < |gs|
    requires gs[m].id in SweepUpTo(gs, t + 1) && gs[m].id !in SweepUpTo(gs, t)
    ensures exists i :: 0 <= i < |gs| && gs[i].id !in Deleted(gs) && Within(gs[m].points, gs[i].points)
    decreases |gs| - t
  {
    SweepAdded(gs, t, gs[m].id);
    var c :| 0 <= c < |gs| && gs[c].id == gs[m].id && gs[m].id != gs[t].id && Within(gs[c].points, gs[t].points);
    assert c == m;
    if gs[t].id in Deleted(gs) {
      var t' := JoinedAt(gs, gs[t].id, t, |gs|);
      if t' == t {
        SweepAdded(gs, t, gs[t].id);
        assert false;
      }
      CoveredFrom(gs, t, t');
      var i :| 0 <= i < |gs| && gs[i].id !in Deleted(gs) && Within(gs[t].points, gs[i].points);
      WithinTrans(gs[m].points, gs[t].points, gs[i].points);
    }
  }

  /** Of two areas with the same points at most one survives. */
  lemma TwinsAtMostOne(gs: seq<Group>, p: Group, q: Group)
    requires p in Survivors(gs, Deleted(gs)) && q in Survivors(gs, Deleted(gs)) && p.id != q.id
    ensures !(Within(p.points, q.points) && Within(q.points, p.points))
  {
    SurvivorsIndependent(gs);
  }

  /** Both twins can go: an earlier area holding their points deletes the two of them. */
  lemma TwinsBothDeleted(gs: seq<Group>)
    requires |gs| == 3 && gs[0].id != gs[1].id && gs[0].id != gs[2].id && gs[1].id != gs[2].id
    requires gs[1].points == gs[2].points && Within(gs[1].points, gs[0].points)
    ensures Survivors(gs, Deleted(gs)) == [gs[0]]
  {
    var d := [gs[1].id, gs[2].id];
    TwinsFirstScan(gs);
    assert SweepUpTo(gs, 1) == d;
    assert SweepUpTo(gs, 2) == d;
    assert SweepUpTo(gs, 3) == d;
    TwinsSurvivors(gs, d);
  }

  /** The first area deletes both twins. */
  lemma TwinsFirstScan(gs: seq<Group>)
    requires |gs| == 3 && gs[0].id != gs[1].id && gs[0].id != gs[2].id && gs[1].id != gs[2].id
    requires gs[1].points == gs[2].points && Within(gs[1].points, gs[0].points)
    ensures ScanUpTo(gs, 0, [], 3) == [gs[1].id, gs[2].id]
  {
    assert ScanUpTo(gs, 0, [], 1) == [];
    assert ScanUpTo(gs, 0, [], 2) == [gs[1].id];
  }

  lemma TwinsSurvivors(gs: seq<Group>, d: seq<Json>)
    requires |gs| == 3 && d == [gs[1].id, gs[2].id] && gs[0].id != gs[1].id && gs[0].id != gs[2].id
    ensures Survivors(gs, d) == [gs[0]]
  {
    assert gs[1..][1..][1..] == [];
    assert Survivors(gs[1..][1..], d) == [];
    assert Survivors(gs[1..], d) == [];
  }

  /** Every deleted group lies within a surviving one. */
  lemma SurvivorsCover(gs: seq<Group>)
    requires DistinctIds(gs)
    ensures forall q :: q in gs && q.id in Deleted(gs) ==>
              exists p :: p in Survivors(gs, Deleted(gs)) && Within(q.points, p.points)
  {
    forall q | q in gs && q.id in Deleted(gs)
      ensures exists p :: p in Survivors(gs, Deleted(gs)) && Within(q.points, p.points)
    {
      var m :| 0 <= m < |gs| && gs[m] == q;
      var t := JoinedAt(gs, q.id, 0, |gs|);
      CoveredFrom(gs, m, t);
      var i :| 0 <= i < |gs| && gs[i].id !in Deleted(gs) && Within(gs[m].points, gs[i].points);
      assert gs[i] in Survivors(gs, Deleted(gs));
    }
  }

  /** Some group always survives. */
  lemma SurvivorsNonEmpty(gs: seq<Group>)
    requires DistinctIds(gs) && gs != []
    ensures Survivors(gs, Deleted(gs)) != []
  {
    if gs[0].id in Deleted(gs) {
      SurvivorsCover(gs);
      assert gs[0] in gs;
    } else {
      assert gs[0] in Survivors(gs, Deleted(gs));
    }
  }

  lemma {:induction false} ScanDistinct(gs: seq<Group>, k: nat, del: seq<Json>, m: nat)
    requires k < |gs| && m <= |gs| && Distinct(del)
    ensures Distinct(ScanUpTo(gs, k, del, m))
  {
    if m > 0 {
      ScanDistinct(gs, k, del, m - 1);
    }
  }

  /** The deletion list names each id once, and only ids of groups, so deleting its entries
      one by one never misses a key. */
  lemma {:induction false} SweepListsGroups(gs: seq<Group>, t: nat)
    requires t <= |gs|
    ensures Distinct(SweepUpTo(gs, t))
    ensures forall x :: x in SweepUpTo(gs, t) ==> exists c :: 0 <= c < |gs| && gs[c].id == x
  {
    if t > 0 {
      var d := SweepUpTo(gs, t - 1);
      SweepListsGroups(gs, t - 1);
      if gs[t - 1].id !in d {
        ScanDistinct(gs, t - 1, d, |gs|);
        ScanFacts(gs, t - 1, d, |gs|);
      }
    }
  }

  lemma {:induction false} SurvivorsOfNone(gs: seq<Group>)
    ensures Survivors(gs, []) == gs
  {
    if gs != [] {
      SurvivorsOfNone(gs[1..]);
    }
  }

  /** Survivors is the in-order filter: it keeps a single group exactly when its id is not
      deleted, and it distributes over concatenation. */
  lemma SurvivorsOne(g: Group, del: seq<Json>)
    ensures Survivors([g], del) == if g.id in del then [] else [g]
  {
    assert [g][1..] == [];
  }

  lemma {:induction false} SurvivorsAppend(a: seq<Group>, b: seq<Group>, del: seq<Json>)
    ensures Survivors(a + b, del) == Survivors(a, del) + Survivors(b, del)
    decreases |a|
  {
    if a == [] {
      assert a + b == b;
    } else {
      assert (a + b)[0] == a[0] && (a + b)[1..] == a[1..] + b;
      SurvivorsAppend(a[1..], b, del);
    }
  }

  /** Deleting one more id from the survivors is filtering by the longer list. */
  lemma {:induction false} SurvivorsSnoc(gs: seq<Group>, del: seq<Json>, x: Json)
    ensures Survivors(Survivors(gs, del), [x]) == Survivors(gs, del + [x])
  {
    if gs != [] {
      SurvivorsSnoc(gs[1..], del, x);
      var rest := Survivors(gs[1..], del);
      if gs[0].id in del {
        assert Survivors(gs, del) == rest;
      } else {
        assert Survivors(gs, del) == [gs[0]] + rest;
        assert ([gs[0]] + rest)[1..] == rest;
      }
    }
  }

  /** The redundancy pass: for each group not yet deleted, every other group whose points all
      lie among its points is put on the deletion list. */
  method Eliminate(gs: seq<Group>) returns (del: seq<Json>)
    ensures del == Deleted(gs)
  {
    del := [];
    var t := 0;
    while t < |gs|
      invariant t <= |gs| && del == SweepUpTo(gs, t)
    {
      if gs[t].id !in del {
        ghost var before := del;
        var m := 0;
        while m < |gs|
          invariant m <= |gs| && del == ScanUpTo(gs, t, before, m)
        {
          var c := gs[m];
          if c.id in del || c.id == gs[t].id {
          } else if Within(c.points, gs[t].points) {
            del := del + [c.id];
          }
          m := m + 1;
        }
      }
      t := t + 1;
    }
  }

  /** Deletes the listed ids from the groups, one at a time. */
  method DropDeleted(gs: seq<Group>, del: seq<Json>) returns (rest: seq<Group>)
    ensures rest == Survivors(gs, del)
  {
    rest := gs;
    SurvivorsOfNone(gs);
    var i := 0;
    while i < |del|
      invariant i <= |del| && rest == Survivors(gs, del[..i])
    {
      SurvivorsSnoc(gs, del[..i], del[i]);
      assert del[..i + 1] == del[..i] + [del[i]];
      rest := Survivors(rest, [del[i]]);
      i := i + 1;
    }
    assert del[..i] == del;
  }

  lemma {:induction false} SurvivorsDistinct(gs: seq<Group>, del: seq<Json>)
    requires DistinctIds(gs)
    ensures DistinctIds(Survivors(gs, del))
  {
    if gs != [] {
      SurvivorsDistinct(gs[1..], del);
      var rest := Survivors(gs[1..], del);
      assert forall x :: x in rest ==> x.id != gs[0].id by {
        forall x | x in rest ensures x.id != gs[0].id {
          var j :| 0 <= j < |gs[1..]| && gs[1..][j] == x;
          assert gs[j + 1] == x;
        }
      }
      var r := (if gs[0].id in del then [] else [gs[0]]) + rest;
      forall i, j | 0 <= i < j < |r| ensures r[i].id != r[j].id {
        if gs[0].id !in del && i == 0 {
          assert r[j] in rest;
        }
      }
    }
  }

  // ---------------------------------------------------------------- scoring

  /** The score is counted in steps of four; the largest possible total is 4 + 8 + 12 + 16. */
  const ScoreStep := 4
  const MaxScore := ScoreStep * 1 + ScoreStep * 2 + ScoreStep * 3 + ScoreStep * 4
  /** Fewest surviving areas for the majority bonus, and fewest points for the last bonus. */
  const MinGroups := 3
  const MinPoints := 3

  function Sizes(ls: seq<Group>): (r: seq<int>)
    ensures |r| == |ls| && forall i :: 0 <= i < |ls| ==> r[i] == Size(ls[i])
  {
    seq(|ls|, i requires 0 <= i < |ls| => Size(ls[i]))
  }

  function Spans(ls: seq<Group>): (r: seq<int>)
    ensures |r| == |ls| && forall i :: 0 <= i < |ls| ==> r[i] == ls[i].span
  {
    seq(|ls|, i requires 0 <= i < |ls| => ls[i].span)
  }

  /** The number of points of the areas other than `id`'s. */
  function Others(ls: seq<Group>, id: Json): nat {
    if ls == [] then 0 else (if ls[0].id != id then Size(ls[0]) else 0) + Others(ls[1..], id)
  }

  /** The score of the area at position `i` among the survivors `ls`: sixteen for holding the
      most points, twelve for the widest spread of dates, eight for holding more points than
      all the others together when there are at least three areas, four for holding at least
      three points. */
  function Score(ls: seq<Group>, i: nat): (s: int)
    requires i < |ls|
    ensures 0 <= s <= MaxScore && s % ScoreStep == 0
    ensures Size(ls[i]) == Max(Sizes(ls)) ==> s >= ScoreStep * 4
  {
    var g := ls[i];
    (if Size(g) == Max(Sizes(ls)) then ScoreStep * 4 else 0)
    + (if g.span == Max(Spans(ls)) then ScoreStep * 3 else 0)
    + (if |ls| >= MinGroups && Size(g) > Others(ls, g.id) then ScoreStep * 2 else 0)
    + (if Size(g) >= MinPoints then ScoreStep else 0)
  }

  function Scores(ls: seq<Group>): (r: seq<int>)
    ensures |r| == |ls| && forall i :: 0 <= i < |ls| ==> r[i] == Score(ls, i)
  {
    seq(|ls|, i requires 0 <= i < |ls| => Score(ls, i))
  }

  /** A full score takes all four bonuses. */
  lemma ScoreFull(ls: seq<Group>, i: nat)
    requires i < |ls|
    ensures Score(ls, i) == MaxScore <==>
              Size(ls[i]) == Max(Sizes(ls)) && ls[i].span == Max(Spans(ls)) &&
              |ls| >= MinGroups && Size(ls[i]) > Others(ls, ls[i].id) && Size(ls[i]) >= MinPoints
  {
  }

  /** Another area's points are counted among the others. */
  lemma {:induction false} OthersAtLeast(ls: seq<Group>, id: Json, j: nat)
    requires j < |ls| && ls[j].id != id
    ensures Others(ls, id) >= Size(ls[j])
  {
    if j > 0 {
      OthersAtLeast(ls[1..], id, j - 1);
    }
  }

  /** An area holding more points than all the others together holds the most points. */
  lemma {:induction false} MajorityIsLargest(ls: seq<Group>, i: nat)
    requires DistinctIds(ls) && i < |ls| && Size(ls[i]) > Others(ls, ls[i].id)
    ensures Size(ls[i]) == Max(Sizes(ls))
  {
    var sizes := Sizes(ls);
    var top := Max(sizes);
    assert sizes[i] <= top by {
      assert sizes[i] in sizes;
    }
    var j :| 0 <= j < |sizes| && sizes[j] == top;
    if j != i {
      assert ls[j].id != ls[i].id;
      OthersAtLeast(ls, ls[i].id, j);
    }
  }

  /** At most one area takes the majority bonus. */
  lemma {:induction false} MajorityUnique(ls: seq<Group>, i: nat, j: nat)
    requires DistinctIds(ls) && i < |ls| && j < |ls|
    requires Size(ls[i]) > Others(ls, ls[i].id) && Size(ls[j]) > Others(ls, ls[j].id)
    ensures i == j
  {
    if i != j {
      assert ls[j].id != ls[i].id;
      OthersAtLeast(ls, ls[i].id, j);
      OthersAtLeast(ls, ls[j].id, i);
    }
  }

  /** The score loop: each surviving area gets its score. */
  method ScoreAll(ls: seq<Group>) returns (scores: seq<int>)
    requires ls != []
    ensures scores == Scores(ls)
  {
    var maxRange := Max(Spans(ls));
    var maxLen := Max(Sizes(ls));
    scores := [];
    var i := 0;
    while i < |ls|
      invariant i <= |ls| && |scores| == i
      invariant forall k :: 0 <= k < i ==> scores[k] == Score(ls, k)
    {
      var loc := ls[i];
      var score := 0;
      if Size(loc) == maxLen {
        score := score + ScoreStep * 4;
      }
      if loc.span == maxRange {
        score := score + ScoreStep * 3;
      }
      if |ls| >= MinGroups {
        var others := Others(ls, loc.id);
        if Size(loc) > others {
          score := score + ScoreStep * 2;
        }
      }
      if Size(loc) >= MinPoints {
        score := score + ScoreStep;
      }
      scores := scores + [score];
      i := i + 1;
    }
  }

  // ---------------------------------------------------------------- the best panel

  /** The areas whose score is `top`, in order. */
  function Leaders(ls: seq<Group>, scores: seq<int>, top: int): (r: seq<Group>)
    requires |scores| == |ls|
    ensures forall g :: g in r <==> exists i :: 0 <= i < |ls| && ls[i] == g && scores[i] == top
  {
    if ls == [] then []
    else
      var rest := Leaders(ls[1..], scores[1..], top);
      assert forall i :: 1 <= i < |ls| ==> ls[i] == ls[1..][i - 1] && scores[i] == scores[1..][i - 1];
      (if scores[0] == top then [ls[0]] else []) + rest
  }

  /** The panel value of the best score: halved when the first leading area holds a single
      point, and halved again when there are fewer than four records in all. */
  function Panel(top: int, first: Group, records: nat): (p: real)
    ensures Size(first) != 1 && records >= 4 ==> p == top as real
    ensures 0 <= top ==> top as real / 4.0 <= p <= top as real
    ensures 0 <= top && (Size(first) == 1 || records < 4) ==> p <= top as real / 2.0
    ensures (Size(first) == 1) != (records < 4) ==> p == top as real / 2.0
    ensures Size(first) == 1 && records < 4 ==> p == top as real / 4.0
  {
    var p := top as real;
    var once := if Size(first) == 1 then p / 2.0 else p;
    if records < 4 then once / 2.0 else once
  }

  /** The band of a panel, as a share of the largest possible score. */
  function PanelBand(top: int, first: Group, records: nat): Band {
    TranslateConfidence(Panel(top, first, records) / MaxScore as real * 100.0)
  }

  lemma PanelBandFloor(top: int, first: Group, records: nat)
    requires ScoreStep * 4 <= top
    ensures PanelBand(top, first, records).Rank() >= 1
  {
  }

  lemma PanelBandCeiling(top: int, first: Group, records: nat)
    requires 0 <= top <= ScoreStep * 8
    ensures PanelBand(top, first, records).Rank() <= 5
  {
  }

  lemma PanelBandTop(top: int, first: Group, records: nat)
    requires 0 <= top <= MaxScore
    ensures PanelBand(top, first, records) == ExtremelyHigh <==> top == MaxScore && Size(first) != 1 && records >= 4
  {
  }

  /** Leaders is the in-order filter by score: one area is kept exactly when its score is
      `top`, and the filter distributes over concatenation. */
  lemma LeadersOne(g: Group, score: int, top: int)
    ensures Leaders([g], [score], top) == if score == top then [g] else []
  {
    assert [g][1..] == [] && [score][1..] == [];
  }

  lemma {:induction false} LeadersAppend(a: seq<Group>, sa: seq<int>, b: seq<Group>, sb: seq<int>, top: int)
    requires |sa| == |a| && |sb| == |b|
    ensures Leaders(a + b, sa + sb, top) == Leaders(a, sa, top) + Leaders(b, sb, top)
    decreases |a|
  {
    if a == [] {
      assert a + b == b && sa + sb == sb;
    } else {
      var ab, sab := a + b, sa + sb;
      assert ab[0] == a[0] && ab[1..] == a[1..] + b;
      assert sab[0] == sa[0] && sab[1..] == sa[1..] + sb;
      LeadersAppend(a[1..], sa[1..], b, sb, top);
      var head := if sa[0] == top then [a[0]] else [];
      var x, y := Leaders(a[1..], sa[1..], top), Leaders(b, sb, top);
      assert Leaders(ab, sab, top) == head + (x + y);
      assert Leaders(a, sa, top) == head + x;
      LeadersAssoc(head, x, y);
    }
  }

  lemma LeadersAssoc(a: seq<Group>, b: seq<Group>, c: seq<Group>)
    ensures (a + b) + c == a + (b + c)
  {
  }

  /** The first leader is the first area, in order, whose score is `top`. */
  lemma {:induction false} LeadersHead(ls: seq<Group>, scores: seq<int>, top: int) returns (i: nat)
    requires |scores| == |ls| && Leaders(ls, scores, top) != []
    ensures i < |ls| && ls[i] == Leaders(ls, scores, top)[0] && scores[i] == top
    ensures forall j :: 0 <= j < i ==> scores[j] != top
  {
    if scores[0] == top {
      i := 0;
    } else {
      var k := LeadersHead(ls[1..], scores[1..], top);
      i := k + 1;
    }
  }

  lemma LeadersNonEmpty(ls: seq<Group>)
    requires ls != []
    ensures Leaders(ls, Scores(ls), Max(Scores(ls))) != []
  {
    var scores := Scores(ls);
    var k :| 0 <= k < |scores| && scores[k] == Max(scores);
    assert ls[k] in Leaders(ls, scores, Max(scores));
  }

  /** The first leading area, found at position `i`, has the best score. */
  lemma FirstLeader(ls: seq<Group>) returns (i: nat)
    requires ls != []
    ensures Leaders(ls, Scores(ls), Max(Scores(ls))) != []
    ensures i < |ls| && ls[i] == Leaders(ls, Scores(ls), Max(Scores(ls)))[0] && Scores(ls)[i] == Max(Scores(ls))
    ensures forall j :: 0 <= j < i ==> Scores(ls)[j] < Max(Scores(ls))
  {
    var scores := Scores(ls);
    LeadersNonEmpty(ls);
    i := LeadersHead(ls, scores, Max(scores));
    assert forall j :: 0 <= j < i ==> scores[j] in scores;
  }

  /** The confidence band of the best panel among the survivors `ls`. */
  function BandOf(ls: seq<Group>, records: nat): (b: Band)
    requires ls != []
  {
    var scores := Scores(ls);
    var top := Max(scores);
    var lead := Leaders(ls, scores, top);
    LeadersNonEmpty(ls);
    PanelBand(top, lead[0], records)
  }
  /** The place reported for each leading area: the sanitized address of its points; `lookup`
      stands for averaging the points and geocoding the average until it succeeds. */
  function Places(lead: seq<Group>, lookup: seq<Point> -> map<string, string>): (r: seq<Option<map<string, string>>>)
    ensures |r| == |lead| && forall i :: 0 <= i < |lead| ==> r[i] == SanitizeLocation(lookup(lead[i].points))
  {
    seq(|lead|, i requires 0 <= i < |lead| => SanitizeLocation(lookup(lead[i].points)))
  }

  /** The surviving areas of the groups: ordered by size, then cleared of redundant ones. */
  function Standing(gs: seq<Group>): (ls: seq<Group>)
    requires DistinctIds(gs)
    ensures DistinctIds(ls)
    ensures gs != [] ==> ls != []
  {
    var sorted := SortBySize(gs);
    SortBySizeFacts(gs);
    SortKeepsDistinct(gs);
    assert |sorted| == |multiset(sorted)| == |gs|;
    SurvivorsDistinct(sorted, Deleted(sorted));
    if sorted != [] then SurvivorsNonEmpty(sorted); Survivors(sorted, Deleted(sorted))
    else Survivors(sorted, Deleted(sorted))
  }

  /** The whole engine: None is the exception raised while grouping or the `max` of no
      scores when no record is placed; otherwise the band and the places of the leaders. */
  function ProbableLocation(rs: seq<GeoRecord>, near: (Point, Point) -> bool, lookup: seq<Point> -> map<string, string>)
    : Option<(Band, seq<Option<map<string, string>>>)>
  {
    match Groups(rs, near)
    case None => None
    case Some(gs) =>
      if gs == [] then None
      else
        GroupsDistinct(rs, near);
        var ls := Standing(gs);
        var scores := Scores(ls);
        Some((BandOf(ls, |rs|), Places(Leaders(ls, scores, Max(scores)), lookup)))
  }

  /** The band is never "Extremely low": the largest area always scores at least sixteen. */
  lemma {:induction false} ConfidenceFloor(ls: seq<Group>, records: nat)
    requires ls != []
    ensures BandOf(ls, records).Rank() >= 1
  {
    var scores := Scores(ls);
    LeadersNonEmpty(ls);
    var j :| 0 <= j < |ls| && Sizes(ls)[j] == Max(Sizes(ls));
    assert scores[j] >= ScoreStep * 4;
    assert scores[j] in scores;
    PanelBandFloor(Max(scores), Leaders(ls, scores, Max(scores))[0], records);
  }

  /** With fewer than three surviving areas no one takes the majority bonus, so the band is
      at most "Very high". */
  lemma {:induction false} ConfidenceFewAreas(ls: seq<Group>, records: nat)
    requires ls != [] && |ls| < MinGroups
    ensures BandOf(ls, records).Rank() <= 5
  {
    var scores := Scores(ls);
    var i :| 0 <= i < |scores| && scores[i] == Max(scores);
    assert Max(scores) <= ScoreStep * 8;
    LeadersNonEmpty(ls);
    PanelBandCeiling(Max(scores), Leaders(ls, scores, Max(scores))[0], records);
  }

  /** "Extremely high" is given exactly when some area takes the full score and there are at
      least four records. */
  lemma {:induction false} ExtremelyHighIff(ls: seq<Group>, records: nat)
    requires ls != []
    ensures BandOf(ls, records) == ExtremelyHigh <==>
              records >= 4 && exists i :: 0 <= i < |ls| && Score(ls, i) == MaxScore
  {
    var scores := Scores(ls);
    var top := Max(scores);
    var i := FirstLeader(ls);
    var first := Leaders(ls, scores, top)[0];
    var k :| 0 <= k < |scores| && scores[k] == top;
    PanelBandTop(top, first, records);
    if top == MaxScore {
      ScoreFull(ls, i);
    }
    if exists m :: 0 <= m < |ls| && Score(ls, m) == MaxScore {
      var m :| 0 <= m < |ls| && Score(ls, m) == MaxScore;
      assert scores[m] in scores;
    }
  }

  /** The engine raises exactly when a seed fails or when no record is placed. */
  lemma ProbableNoneIff(rs: seq<GeoRecord>, near: (Point, Point) -> bool, lookup: seq<Point> -> map<string, string>)
    ensures ProbableLocation(rs, near, lookup).None? <==>
              (exists i :: 0 <= i < |rs| && SeedFails(rs, near, i)) || (forall i :: 0 <= i < |rs| ==> !Placed(rs[i]))
  {
    GroupsNoneIff(rs, near, |rs|);
    if Groups(rs, near).Some? {
      var gs := Groups(rs, near).value;
      GroupsIds(rs, near, |rs|);
      PlacedIdsMembers(rs, |rs|);
      var ids := PlacedIds(rs, |rs|);
      NoPlacedIds(rs, |rs|);
    }
  }

  lemma {:induction false} NoPlacedIds(rs: seq<GeoRecord>, n: nat)
    requires n <= |rs|
    ensures PlacedIds(rs, n) == [] <==> forall i :: 0 <= i < n ==> !Placed(rs[i])
  {
    if n > 0 {
      NoPlacedIds(rs, n - 1);
    }
  }

  /** A reported band is never "Extremely low", and "Extremely high" needs at least four records. */
  lemma ProbableBand(rs: seq<GeoRecord>, near: (Point, Point) -> bool, lookup: seq<Point> -> map<string, string>)
    requires ProbableLocation(rs, near, lookup).Some?
    ensures ProbableLocation(rs, near, lookup).value.0.Rank() >= 1
    ensures ProbableLocation(rs, near, lookup).value.0 == ExtremelyHigh ==> |rs| >= 4
  {
    var gs := Groups(rs, near).value;
    GroupsDistinct(rs, near);
    var ls := Standing(gs);
    ConfidenceFloor(ls, |rs|);
    ExtremelyHighIff(ls, |rs|);
  }

  /** The reporting stage over the surviving areas `ls` and the number of records: scores the
      areas, takes the best panel, derives its band and looks up the place of each leader. */
  method Report(ls: seq<Group>, records: nat, lookup: seq<Point> -> map<string, string>)
    returns (band: Band, places: seq<Option<map<string, string>>>)
    requires ls != []
    ensures band == BandOf(ls, records)
    ensures places == Places(Leaders(ls, Scores(ls), Max(Scores(ls))), lookup)
  {
    var scores := ScoreAll(ls);
    var top := Max(scores);
    var lead := Leaders(ls, scores, top);
    LeadersNonEmpty(ls);
    var panel := top as real;
    if Size(lead[0]) == 1 {
      panel := panel / 2.0;
    }
    if records < 4 {
      panel := panel / 2.0;
    }
    assert panel == Panel(top, lead[0], records);
    band := TranslateConfidence(panel / MaxScore as real * 100.0);
    assert band == PanelBand(top, lead[0], records);
    places := LookUpPlaces(lead, lookup);
  }

  /** The reverse lookup and sanitizing of each leading area, in order. */
  method LookUpPlaces(lead: seq<Group>, lookup: seq<Point> -> map<string, string>)
    returns (places: seq<Option<map<string, string>>>)
    ensures places == Places(lead, lookup)
  {
    places := [];
    var nb := 0;
    while nb < |lead|
      invariant nb <= |lead| && |places| == nb
      invariant forall k :: 0 <= k < nb ==> places[k] == SanitizeLocation(lookup(lead[k].points))
    {
      var address := lookup(lead[nb].points);
      places := places + [SanitizeLocation(address)];
      nb := nb + 1;
    }
  }

  /** `calculate_probable_location`: groups, orders, eliminates and scores the areas, then
      reports the band of the best panel and the place of each area in it. */
  method CalculateProbableLocation(rs: seq<GeoRecord>, near: (Point, Point) -> bool, lookup: seq<Point> -> map<string, string>)
    returns (r: Option<(Band, seq<Option<map<string, string>>>)>)
    ensures r == ProbableLocation(rs, near, lookup)
  {
    var built := BuildGroups(rs, near);
    if built.None? {
      return None;
    }
    var gs := built.value;
    if gs == [] {
      return None;
    }
    GroupsDistinct(rs, near);
    var sorted := SortBySize(gs);
    var del := Eliminate(sorted);
    var ls := DropDeleted(sorted, del);
    assert ls == Standing(gs);
    var band, places := Report(ls, |rs|, lookup);
    return Some((band, places));
  }
}
