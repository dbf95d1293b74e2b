/**
 Where a Maps page keeps its reviews and photos. The layout is chosen by probing fixed
 positions of the page in a fixed order; the first candidate that passes its probe
 decides both the format ("new" or "old") and the list of entries.
 */
module MapsLayout {
  import opened Wrappers
  import opened PyJson

  datatype Format = New | Old

  /** The new-format probe: a non-empty list whose first element is a list of at least two items. */
  predicate CardList(j: Json) {
    j.JArr? && |j.items| > 0 && j.items[0].JArr? && |j.items[0].items| >= 2
  }

  /** The two probes GHunt applies to a candidate position. */
  datatype Probe = Cards | AnyList

  predicate Passes(p: Probe, j: Json) {
    match p
    case Cards => CardList(j)
    case AnyList => j.JArr?
  }

  /** A candidate position: the format it stands for, the value found there (None when
      the enclosing block is missing or too short) and the probe it must pass. */
  datatype Candidate = Candidate(format: Format, slot: Option<Json>, probe: Probe)

  predicate Accepts(c: Candidate) {
    c.slot.Some? && Passes(c.probe, c.slot.value)
  }

  /** The reference rule: try the candidates in order; the first accepted one wins. */
  function FirstPassing(cs: seq<Candidate>): (r: Option<(Format, Json)>)
    ensures r.None? <==> forall k :: 0 <= k < |cs| ==> !Accepts(cs[k])
    ensures r.Some? ==> exists k :: 0 <= k < |cs| && Accepts(cs[k]) && r.value == (cs[k].format, cs[k].slot.value)
                                 && forall i :: 0 <= i < k ==> !Accepts(cs[i])
  {
    if cs == [] then None
    else if Accepts(cs[0]) then Some((cs[0].format, cs[0].slot.value))
    else
      var r := FirstPassing(cs[1..]);
      assert forall k :: 1 <= k < |cs| ==> cs[k] == cs[1..][k - 1];
      r
  }

  /** Reviews: `data[22][0]` and then `data[45][0]` as new format, then `data[24][0]` as old format. */
  function ReviewCandidates(data: Json): seq<Candidate> {
    [Candidate(New, Slot(data, 22, 0), Cards),
     Candidate(New, Slot(data, 45, 0), Cards),
     Candidate(Old, Slot(data, 24, 0), AnyList)]
  }

  /** Photos: `data[22][0]` as new format, then `data[22][1]` as old format. */
  function PhotoCandidates(data: Json): seq<Candidate> {
    [Candidate(New, Slot(data, 22, 0), Cards),
     Candidate(Old, Slot(data, 22, 1), AnyList)]
  }

  /** The reviews probe of GHunt, written as its cascade of `if not reviews_data` tests. */
  function ReviewsLayout(data: Json): Option<(Format, Json)> {
    if Slot(data, 22, 0).Some? && CardList(Slot(data, 22, 0).value) then Some((New, Slot(data, 22, 0).value))
    else if Slot(data, 45, 0).Some? && CardList(Slot(data, 45, 0).value) then Some((New, Slot(data, 45, 0).value))
    else if Slot(data, 24, 0).Some? && Slot(data, 24, 0).value.JArr? then Some((Old, Slot(data, 24, 0).value))
    else None
  }

  /** The photos probe of GHunt. */
  function PhotosLayout(data: Json): Option<(Format, Json)> {
    if Slot(data, 22, 0).Some? && CardList(Slot(data, 22, 0).value) then Some((New, Slot(data, 22, 0).value))
    else if Slot(data, 22, 1).Some? && Slot(data, 22, 1).value.JArr? then Some((Old, Slot(data, 22, 1).value))
    else None
  }

  /** The reviews cascade is the first-passing rule over its three candidates. */
  lemma ReviewsLayoutFirstPassing(data: Json)
    ensures ReviewsLayout(data) == FirstPassing(ReviewCandidates(data))
  {
    var cs := ReviewCandidates(data);
    assert cs[1..][1..] == [cs[2]];
    assert FirstPassing([cs[2]]) == if Accepts(cs[2]) then Some((Old, cs[2].slot.value)) else None by {
      assert [cs[2]][1..] == [];
    }
  }

  /** The photos cascade is the first-passing rule over its two candidates. */
  lemma PhotosLayoutFirstPassing(data: Json)
    ensures PhotosLayout(data) == FirstPassing(PhotoCandidates(data))
  {
    var cs := PhotoCandidates(data);
    assert cs[1..][1..] == [];
  }

  /** What a page offers for one category. `Unsized` is a page on which the first `len(data)`
      raises; `Absent` is the Python code's `not reviews_data` (no candidate passed, or the
      old-format list is empty). */
  datatype Located = Unsized | Absent | Found(format: Format, entries: seq<Json>)

  function Locate(data: Json, layout: Option<(Format, Json)>): Located {
    if Len(data).None? then Unsized
    else match layout
      case None => Absent
      case Some(fl) => if fl.1.JArr? && fl.1.items != [] then Found(fl.0, fl.1.items) else Absent
  }

  function LocateReviews(data: Json): Located {
    Locate(data, ReviewsLayout(data))
  }

  function LocatePhotos(data: Json): Located {
    Locate(data, PhotosLayout(data))
  }

  /** `data[k][3]` when `data[k]` is a list longer than three and that item is truthy. */
  function TokenAt(data: Json, k: nat): (r: Option<Json>)
    ensures r.Some? ==> Truthy(r.value) && r == Slot(data, k, 3)
    ensures r.Some? <==> Slot(data, k, 3).Some? && Truthy(Slot(data, k, 3).value)
  {
    var s := Slot(data, k, 3);
    if s.Some? && Truthy(s.value) then s else None
  }

  /** The raw next-page token of a reviews page: in the new format `data[22][3]` in preference
      to `data[45][3]`, whichever block the entries came from; in the old format `data[24][3]`. */
  function ReviewsToken(data: Json, f: Format): Option<Json> {
    match f
    case New => if TokenAt(data, 22).Some? then TokenAt(data, 22) else TokenAt(data, 45)
    case Old => TokenAt(data, 24)
  }

  /** The raw next-page token of a photos page: `data[22][3]` in both formats. */
  function PhotosToken(data: Json, f: Format): Option<Json> {
    TokenAt(data, 22)
  }
}
