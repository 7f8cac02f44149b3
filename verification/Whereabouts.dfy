// Where each foreign payment was made (whereabouts/whereabouts.go): runs of payments in one
// currency are trips, a trip's named places give time zones, and the payments between them
// take theirs.
module Whereabouts {
  import opened Wrappers
  import opened Text
  import Ordering

  const HOUR := 3_600_000_000_000                    // in nanoseconds
  const TRIP_GAP := 72 * HOUR
  const TRIP_MARGIN := 12 * HOUR
  const EDGE_REACH := 24 * HOUR
  const NEAR_REACH := HOUR
  const MIN_PLACED := 2

  datatype Row = Row(uuid: string, at: int, currency: string, payee: string)

  datatype Local = Local(zone: string, place: string)

  datatype Place = Place(parts: seq<string>)

  datatype City = City(name: string, zone: string)

  datatype Ask = Ask(key: string, name: string, context: string)

  // The tables and the resolver, as they answer during one call. load gives a zone's own name.
  datatype Atlas = Atlas(
    placeOf: string -> Option<Place>,
    cityOf: (Place, string) -> Option<City>,
    currencyZone: string -> Option<string>,
    load: string -> Option<string>,
    key: Place -> string,
    text: Place -> string,
    context: seq<Place> -> string,
    zoneName: string -> string,
    resolve: (string, seq<Ask>) -> map<string, string>)

  // ---- filling from around ------------------------------------------------------------------

  // The nearest anchored payment before i, and after it; -1 for none.
  function AnchorBefore(anchors: seq<Option<string>>, i: nat): (j: int)
    requires i <= |anchors|
    ensures -1 <= j < i && (j >= 0 ==> anchors[j].Some?)
  {
    if i == 0 then -1 else if anchors[i - 1].Some? then i - 1 else AnchorBefore(anchors, i - 1)
  }

  function AnchorAfter(anchors: seq<Option<string>>, i: nat): (j: int)
    requires i < |anchors|
    ensures -1 <= j < |anchors| && (j >= 0 ==> i < j && anchors[j].Some?)
    decreases |anchors| - i
  {
    if i + 1 == |anchors| then -1 else if anchors[i + 1].Some? then i + 1 else AnchorAfter(anchors, i + 1)
  }

  // Nothing anchored lies between.
  lemma {:induction false} NoneNearer(anchors: seq<Option<string>>, i: nat, k: nat)
    requires i < |anchors| && k < |anchors|
    ensures AnchorBefore(anchors, i) < k < i ==> anchors[k].None?
    ensures i < k && (AnchorAfter(anchors, i) >= 0 ==> k < AnchorAfter(anchors, i)) ==> anchors[k].None?
  {
    NoneNearerBefore(anchors, i, k);
    NoneNearerAfter(anchors, i, k);
  }

  lemma {:induction false} NoneNearerBefore(anchors: seq<Option<string>>, i: nat, k: nat)
    requires i <= |anchors| && k < |anchors|
    ensures AnchorBefore(anchors, i) < k < i ==> anchors[k].None?
  {
    if i > 0 && anchors[i - 1].None? {
      NoneNearerBefore(anchors, i - 1, k);
    }
  }

  lemma {:induction false} NoneNearerAfter(anchors: seq<Option<string>>, i: nat, k: nat)
    requires i < |anchors| && k < |anchors|
    ensures i < k && (AnchorAfter(anchors, i) >= 0 ==> k < AnchorAfter(anchors, i)) ==> anchors[k].None?
    decreases |anchors| - i
  {
    if i + 1 < |anchors| && anchors[i + 1].None? {
      NoneNearerAfter(anchors, i + 1, k);
    }
  }

  // A payment's zone, from the trip's times and the zones its named places anchor alone.
  function Filled(trip: seq<Row>, anchors: seq<Option<string>>, i: nat): Option<string>
    requires |trip| == |anchors| && i < |trip|
  {
    var b, a := AnchorBefore(anchors, i), AnchorAfter(anchors, i);
    if anchors[i].Some? then anchors[i]
    else if b >= 0 && a >= 0 then
      var sinceBefore, untilAfter := trip[i].at - trip[b].at, trip[a].at - trip[i].at;
      if anchors[b] == anchors[a] then anchors[b]
      else if sinceBefore <= NEAR_REACH && untilAfter > NEAR_REACH then anchors[b]
      else if untilAfter <= NEAR_REACH && sinceBefore > NEAR_REACH then anchors[a]
      else None
    else if b >= 0 then if trip[i].at - trip[b].at <= EDGE_REACH then anchors[b] else None
    else if a >= 0 then if trip[a].at - trip[i].at <= EDGE_REACH then anchors[a] else None
    else None
  }

  lemma AnchoredStays(trip: seq<Row>, anchors: seq<Option<string>>, i: nat)
    requires |trip| == |anchors| && i < |trip| && anchors[i].Some?
    ensures Filled(trip, anchors, i) == anchors[i]
  {
  }

  // An anchored payment with none between, who is within the edge's reach or agrees with the
  // nearest one on the other side.
  predicate Neighbours(trip: seq<Row>, anchors: seq<Option<string>>, i: nat, j: nat)
    requires |trip| == |anchors| && i < |trip| && j < |trip|
  {
    && anchors[j].Some?
    && (forall k | 0 <= k < |anchors| && (j < k <= i || i <= k < j) :: anchors[k].None?)
    && (-EDGE_REACH <= trip[i].at - trip[j].at <= EDGE_REACH
        || exists l | 0 <= l < |anchors| :: (l < i) != (j < i) && anchors[l] == anchors[j])
  }

  // A zone that is filled is that of such a neighbour.
  lemma FilledFromANeighbour(trip: seq<Row>, anchors: seq<Option<string>>, i: nat)
    requires |trip| == |anchors| && i < |trip| && anchors[i].None? && Filled(trip, anchors, i).Some?
    requires forall k, l | 0 <= k < l < |trip| :: trip[k].at <= trip[l].at
    ensures exists j | 0 <= j < |anchors| :: anchors[j] == Filled(trip, anchors, i) && Neighbours(trip, anchors, i, j)
  {
    var b, a := AnchorBefore(anchors, i), AnchorAfter(anchors, i);
    forall k | 0 <= k < |anchors|
      ensures (b < k <= i ==> anchors[k].None?) && (i <= k && (a >= 0 ==> k < a) ==> anchors[k].None?)
    {
      NoneNearer(anchors, i, k);
    }
    if b >= 0 && (a < 0 || anchors[a] == anchors[b] || trip[i].at - trip[b].at <= NEAR_REACH) && anchors[b] == Filled(trip, anchors, i) {
      assert Neighbours(trip, anchors, i, b);
    } else {
      assert Neighbours(trip, anchors, i, a);
    }
  }

  // fillFromAround works in place, front to back, over zones it has partly filled already; yet
  // each zone it writes is the pointwise function of the zones that were anchored to begin
  // with: what it fills never feeds another.
  method FillFromAround(trip: seq<Row>, zones: array<Option<string>>, anchored: array<bool>)
    requires zones.Length == anchored.Length == |trip|
    requires forall i | 0 <= i < |trip| :: anchored[i] <==> zones[i].Some?
    modifies zones
    ensures forall i | 0 <= i < |trip| :: zones[i] == Filled(trip, old(zones[..]), i)
  {
    ghost var anchors := zones[..];
    for i := 0 to |trip|
      invariant forall k | 0 <= k < i :: zones[k] == Filled(trip, anchors, k)
      invariant forall k | 0 <= k < |trip| && (i <= k || anchored[k]) :: zones[k] == anchors[k]
    {
      if zones[i].None? {
        var zone := ZoneFromAround(trip, zones, anchored, i, anchors);
        zones[i] := zone;
      }
    }
  }

  // The zone of a payment without one, from the anchored payments beside it.
  method ZoneFromAround(trip: seq<Row>, zones: array<Option<string>>, anchored: array<bool>, i: nat, ghost anchors: seq<Option<string>>)
    returns (zone: Option<string>)
    requires zones.Length == anchored.Length == |trip| == |anchors| && i < |trip| && anchors[i].None?
    requires forall k | 0 <= k < |trip| :: (anchored[k] <==> anchors[k].Some?) && (anchored[k] ==> zones[k] == anchors[k])
    ensures zone == Filled(trip, anchors, i)
  {
    var before, after := FindAnchors(anchored, i, anchors);
    if before >= 0 && after >= 0 {
      var sinceBefore, untilAfter := trip[i].at - trip[before].at, trip[after].at - trip[i].at;
      if zones[before] == zones[after] {
        return zones[before];
      }
      if sinceBefore <= NEAR_REACH && untilAfter > NEAR_REACH {
        return zones[before];
      }
      if untilAfter <= NEAR_REACH && sinceBefore > NEAR_REACH {
        return zones[after];
      }
    } else if before >= 0 {
      if trip[i].at - trip[before].at <= EDGE_REACH {
        return zones[before];
      }
    } else if after >= 0 {
      if trip[after].at - trip[i].at <= EDGE_REACH {
        return zones[after];
      }
    }
    return None;
  }

  // The two scans outward from a payment.
  method FindAnchors(anchored: array<bool>, i: nat, ghost anchors: seq<Option<string>>) returns (before: int, after: int)
    requires i < anchored.Length == |anchors| && forall k | 0 <= k < |anchors| :: anchored[k] <==> anchors[k].Some?
    ensures before == AnchorBefore(anchors, i) && after == AnchorAfter(anchors, i)
  {
    before := i - 1;
    while before >= 0 && !anchored[before]
      invariant -1 <= before < i && AnchorBefore(anchors, i) == AnchorBefore(anchors, before + 1)
    {
      before := before - 1;
    }
    after := i + 1;
    while after < anchored.Length && !anchored[after]
      invariant i < after <= anchored.Length && AnchorAfter(anchors, i) == AnchorAfter(anchors, after - 1)
    {
      after := after + 1;
    }
    if after == anchored.Length {
      after := -1;
    }
  }

  // ---- what to call a zone -----------------------------------------------------------------------

  predicate NamesCity(zones: seq<Option<string>>, cities: seq<string>, i: nat, zone: string)
    requires |zones| == |cities| && i < |zones|
  {
    zones[i] == Some(zone) && cities[i] != ""
  }

  // How often a city is named in a zone among the first n payments.
  function CityCount(zones: seq<Option<string>>, cities: seq<string>, zone: string, city: string, n: nat): nat
    requires |zones| == |cities| && n <= |zones|
  {
    if n == 0 then 0
    else CityCount(zones, cities, zone, city, n - 1)
         + if NamesCity(zones, cities, n - 1, zone) && cities[n - 1] == city then 1 else 0
  }

  // The payment whose city is named most in the zone, the first such; scanned to n.
  function MostNamed(zones: seq<Option<string>>, cities: seq<string>, zone: string, n: nat): (best: int)
    requires |zones| == |cities| && n <= |zones|
    ensures -1 <= best < n && (best >= 0 ==> NamesCity(zones, cities, best, zone))
  {
    if n == 0 then -1
    else
      var best := MostNamed(zones, cities, zone, n - 1);
      if NamesCity(zones, cities, n - 1, zone)
         && (best < 0 || CityCount(zones, cities, zone, cities[n - 1], |zones|) > CityCount(zones, cities, zone, cities[best], |zones|))
      then n - 1 else best
  }

  function ZoneCalled(atlas: Atlas, zones: seq<Option<string>>, cities: seq<string>, zone: string): string
    requires |zones| == |cities|
  {
    var best := MostNamed(zones, cities, zone, |zones|);
    if best < 0 then atlas.zoneName(zone) else cities[best]
  }

  // A zone goes by the city named most in it, by the earlier of two named as often, and by its
  // own name exactly when no city is named in it.
  lemma {:induction false} CalledByTheMostNamed(zones: seq<Option<string>>, cities: seq<string>, zone: string, n: nat, i: nat)
    requires |zones| == |cities| && i < n <= |zones| && NamesCity(zones, cities, i, zone)
    ensures var best := MostNamed(zones, cities, zone, n);
      && best >= 0
      && CityCount(zones, cities, zone, cities[i], |zones|) <= CityCount(zones, cities, zone, cities[best], |zones|)
      && (CityCount(zones, cities, zone, cities[i], |zones|) == CityCount(zones, cities, zone, cities[best], |zones|) ==> best <= i)
  {
    if i < n - 1 {
      CalledByTheMostNamed(zones, cities, zone, n - 1, i);
    } else if MostNamed(zones, cities, zone, n - 1) >= 0 {
      CalledByTheMostNamed(zones, cities, zone, n - 1, MostNamed(zones, cities, zone, n - 1));
    }
  }

  // The payments among the first n that are in a zone and name this city.
  function Naming(zones: seq<Option<string>>, cities: seq<string>, zone: string, city: string, n: nat): set<int>
    requires |zones| == |cities| && n <= |zones|
  {
    set i | 0 <= i < n && zones[i] == Some(zone) && cities[i] == city
  }

  lemma {:induction false} CountsTheNaming(zones: seq<Option<string>>, cities: seq<string>, zone: string, city: string, n: nat)
    requires |zones| == |cities| && n <= |zones| && city != ""
    ensures CityCount(zones, cities, zone, city, n) == |Naming(zones, cities, zone, city, n)|
  {
    if n == 0 {
      assert Naming(zones, cities, zone, city, 0) == {};
    } else {
      CountsTheNaming(zones, cities, zone, city, n - 1);
      var earlier := Naming(zones, cities, zone, city, n - 1);
      assert Naming(zones, cities, zone, city, n)
          == if zones[n - 1] == Some(zone) && cities[n - 1] == city then earlier + {n - 1} else earlier;
    }
  }

  // What a zone is called: where no payment in it names a city, by its own name; else by a city no other
  // is named by more payments than, and any named by as many first at a later one.
  lemma CalledMeans(atlas: Atlas, zones: seq<Option<string>>, cities: seq<string>, zone: string) returns (best: int)
    requires |zones| == |cities|
    ensures (forall i | 0 <= i < |zones| && zones[i] == Some(zone) :: cities[i] == "") ==>
      ZoneCalled(atlas, zones, cities, zone) == atlas.zoneName(zone)
    ensures forall i | 0 <= i < |zones| && zones[i] == Some(zone) && cities[i] != "" ::
      && 0 <= best < |zones| && zones[best] == Some(zone) && ZoneCalled(atlas, zones, cities, zone) == cities[best]
      && var these, most := |Naming(zones, cities, zone, cities[i], |zones|)|, |Naming(zones, cities, zone, cities[best], |zones|)|;
      these < most || (these == most && best <= i)
  {
    best := MostNamed(zones, cities, zone, |zones|);
    forall i | 0 <= i < |zones| && zones[i] == Some(zone) && cities[i] != "" ensures
      && best >= 0
      && var these, most := |Naming(zones, cities, zone, cities[i], |zones|)|, |Naming(zones, cities, zone, cities[best], |zones|)|;
      these < most || (these == most && best <= i)
    {
      CalledByTheMostNamed(zones, cities, zone, |zones|, i);
      CountsTheNaming(zones, cities, zone, cities[i], |zones|);
      CountsTheNaming(zones, cities, zone, cities[best], |zones|);
    }
  }

  // ---- one trip -----------------------------------------------------------------------------------

  function NamedIn(atlas: Atlas, trip: seq<Row>): (named: seq<Option<Place>>)
    ensures |named| == |trip| && forall i | 0 <= i < |trip| :: named[i] == atlas.placeOf(trip[i].payee)
  {
    seq(|trip|, i requires 0 <= i < |trip| => atlas.placeOf(trip[i].payee))
  }

  // The payments of the first n that name a place.
  function PlacedIn(named: seq<Option<Place>>, n: nat): (placed: seq<nat>)
    requires n <= |named|
    ensures forall k | 0 <= k < |placed| :: placed[k] < n && named[placed[k]].Some?
    ensures forall k, l | 0 <= k < l < |placed| :: placed[k] < placed[l]
    ensures forall i | 0 <= i < n && named[i].Some? :: i in placed
  {
    if n == 0 then [] else PlacedIn(named, n - 1) + if named[n - 1].Some? then [n - 1] else []
  }

  // A named place the tables know, in a zone that loads: the city, with the zone's own name.
  function KnownCity(atlas: Atlas, cur: string, p: Place): Option<City> {
    match atlas.cityOf(p, cur)
    case None => None
    case Some(c) => if atlas.load(c.zone).Some? then Some(City(c.name, atlas.load(c.zone).value)) else None
  }

  // The places to ask about among the first n payments, each key once, by its first name.
  function Asks(atlas: Atlas, cur: string, named: seq<Option<Place>>, context: string, n: nat): seq<Ask>
    requires n <= |named|
  {
    if n == 0 then [] else
    var earlier := Asks(atlas, cur, named, context, n - 1);
    match named[n - 1]
    case None => earlier
    case Some(p) =>
      if KnownCity(atlas, cur, p).Some? || exists a | a in earlier :: a.key == atlas.key(p) then earlier
      else earlier + [Ask(atlas.key(p), atlas.text(p), context)]
  }

  function PlacesOf(named: seq<Option<Place>>, n: nat): seq<Place>
    requires n <= |named|
  {
    if n == 0 then [] else PlacesOf(named, n - 1) + if named[n - 1].Some? then [named[n - 1].value] else []
  }

  function Answers(atlas: Atlas, cur: string, named: seq<Option<Place>>): map<string, string> {
    var asks := Asks(atlas, cur, named, atlas.context(PlacesOf(named, |named|)), |named|);
    if asks == [] then map[] else atlas.resolve(cur, asks)
  }

  function Answered(atlas: Atlas, answers: map<string, string>, key: string): Option<string> {
    if key in answers && answers[key] != "" then atlas.load(Trim(answers[key])) else None
  }

  // The zone a payment's own place anchors: by the tables, else by the resolver's answer.
  function Anchor(atlas: Atlas, cur: string, named: Option<Place>, answers: map<string, string>): Option<string> {
    match named
    case None => None
    case Some(p) =>
      match KnownCity(atlas, cur, p)
      case Some(c) => Some(c.zone)
      case None => Answered(atlas, answers, atlas.key(p))
  }

  function ZonesOf(atlas: Atlas, cur: string, trip: seq<Row>): (zones: seq<Option<string>>)
    ensures |zones| == |trip|
  {
    match atlas.currencyZone(cur)
    case Some(z) => seq(|trip|, i => Some(z))
    case None =>
      var named := NamedIn(atlas, trip);
      var answers := Answers(atlas, cur, named);
      var anchors := seq(|trip|, i requires 0 <= i < |trip| => Anchor(atlas, cur, named[i], answers));
      seq(|trip|, i requires 0 <= i < |trip| => Filled(trip, anchors, i))
  }

  // The city a payment's place is in: in a currency of one zone, when it is in that zone.
  function CityNamed(atlas: Atlas, cur: string, named: Option<Place>): string {
    match named
    case None => ""
    case Some(p) =>
      match atlas.currencyZone(cur)
      case Some(z) =>
        (match atlas.cityOf(p, cur)
         case None => ""
         case Some(c) => if c.zone == z then c.name else "")
      case None =>
        match KnownCity(atlas, cur, p)
        case None => ""
        case Some(c) => c.name
  }

  function CitiesOf(atlas: Atlas, cur: string, trip: seq<Row>): (cities: seq<string>)
    ensures |cities| == |trip|
  {
    seq(|trip|, i requires 0 <= i < |trip| => CityNamed(atlas, cur, atlas.placeOf(trip[i].payee)))
  }

  predicate IsATrip(atlas: Atlas, trip: seq<Row>) { |PlacedIn(NamedIn(atlas, trip), |trip|)| >= MIN_PLACED }

  // Within the margin of a trip's first and last named places.
  predicate InWindow(atlas: Atlas, trip: seq<Row>, i: nat)
    requires IsATrip(atlas, trip) && i < |trip|
  {
    var placed := PlacedIn(NamedIn(atlas, trip), |trip|);
    trip[placed[0]].at - TRIP_MARGIN <= trip[i].at <= trip[placed[|placed| - 1]].at + TRIP_MARGIN
  }

  // Where a trip puts one of its payments, if it does.
  function Spot(atlas: Atlas, cur: string, trip: seq<Row>, i: nat): Option<Local>
    requires IsATrip(atlas, trip) && i < |trip|
  {
    var zones := ZonesOf(atlas, cur, trip);
    if zones[i].Some? && InWindow(atlas, trip, i)
    then Some(Local(zones[i].value, ZoneCalled(atlas, zones, CitiesOf(atlas, cur, trip), zones[i].value)))
    else None
  }

  function Spots(atlas: Atlas, cur: string, trip: seq<Row>): (spots: seq<Option<Local>>)
    requires IsATrip(atlas, trip)
    ensures |spots| == |trip|
  {
    seq(|trip|, i requires 0 <= i < |trip| => Spot(atlas, cur, trip, i))
  }

  function Placements(trip: seq<Row>, spots: seq<Option<Local>>, n: nat): map<string, Local>
    requires n <= |trip| == |spots|
  {
    if n == 0 then map[] else
    var earlier := Placements(trip, spots, n - 1);
    if spots[n - 1].Some? then earlier[trip[n - 1].uuid := spots[n - 1].value] else earlier
  }

  function TripPlaced(atlas: Atlas, cur: string, trip: seq<Row>): map<string, Local> {
    if IsATrip(atlas, trip) then Placements(trip, Spots(atlas, cur, trip), |trip|) else map[]
  }

  method ZoneNames(atlas: Atlas, zones: seq<Option<string>>, cities: seq<string>) returns (names: map<string, string>)
    requires |zones| == |cities|
    ensures forall i | 0 <= i < |zones| && zones[i].Some? ::
      zones[i].value in names && names[zones[i].value] == ZoneCalled(atlas, zones, cities, zones[i].value)
  {
    names := map[];
    for i := 0 to |zones|
      invariant forall k | 0 <= k < i && zones[k].Some? :: zones[k].value in names
      invariant forall zone | zone in names :: names[zone] == ZoneCalled(atlas, zones, cities, zone)
    {
      if zones[i].Some? && zones[i].value !in names {
        var zone := zones[i].value;
        var best := -1;
        for k := 0 to |zones|
          invariant best == MostNamed(zones, cities, zone, k)
        {
          if NamesCity(zones, cities, k, zone)
             && (best < 0 || CityCount(zones, cities, zone, cities[k], |zones|) > CityCount(zones, cities, zone, cities[best], |zones|)) {
            best := k;
          }
        }
        names := names[zone := if best < 0 then atlas.zoneName(zone) else cities[best]];
      }
    }
  }

  // The zones and the cities of a trip's payments, as locateTrip's arrays hold them in the end.
  method PlaceTrip(atlas: Atlas, cur: string, trip: seq<Row>) returns (zones: seq<Option<string>>, cities: seq<string>)
    ensures zones == ZonesOf(atlas, cur, trip) && cities == CitiesOf(atlas, cur, trip)
  {
    cities := CitiesOf(atlas, cur, trip);
    if atlas.currencyZone(cur).Some? {
      zones := ZonesOf(atlas, cur, trip);
      return;
    }
    var named := NamedIn(atlas, trip);
    var answers := Answers(atlas, cur, named);
    var zone, anchored := new Option<string>[|trip|], new bool[|trip|];
    for i := 0 to |trip|
      invariant forall k | 0 <= k < i :: zone[k] == Anchor(atlas, cur, named[k], answers) && (anchored[k] <==> zone[k].Some?)
    {
      zone[i] := Anchor(atlas, cur, named[i], answers);
      anchored[i] := zone[i].Some?;
    }
    ghost var anchors := seq(|trip|, i requires 0 <= i < |trip| => Anchor(atlas, cur, named[i], answers));
    assert zone[..] == anchors;
    FillFromAround(trip, zone, anchored);
    zones := zone[..];
    assert zones == ZonesOf(atlas, cur, trip);
  }

  // The last loop of locateTrip: what has a zone and is not too early or too late is placed.
  method PlaceWithin(trip: seq<Row>, zones: seq<Option<string>>, names: map<string, string>, from: int, to: int,
                     ghost spots: seq<Option<Local>>) returns (local: map<string, Local>)
    requires |zones| == |trip| == |spots| && forall i | 0 <= i < |zones| && zones[i].Some? :: zones[i].value in names
    requires forall i | 0 <= i < |trip| ::
      spots[i] == if zones[i].Some? && from <= trip[i].at <= to then Some(Local(zones[i].value, names[zones[i].value])) else None
    ensures local == Placements(trip, spots, |trip|)
  {
    local := map[];
    for i := 0 to |trip|
      invariant local == Placements(trip, spots, i)
    {
      if zones[i].None? || trip[i].at < from || trip[i].at > to {
        continue;
      }
      local := local[trip[i].uuid := Local(zones[i].value, names[zones[i].value])];
    }
  }

  lemma SpotIs(atlas: Atlas, cur: string, trip: seq<Row>, zones: seq<Option<string>>, cities: seq<string>, i: nat)
    requires IsATrip(atlas, trip) && i < |trip| && zones == ZonesOf(atlas, cur, trip) && cities == CitiesOf(atlas, cur, trip)
    ensures Spots(atlas, cur, trip)[i]
         == if zones[i].Some? && InWindow(atlas, trip, i)
            then Some(Local(zones[i].value, ZoneCalled(atlas, zones, cities, zones[i].value))) else None
  {
  }

  lemma SpotsAre(atlas: Atlas, cur: string, trip: seq<Row>, zones: seq<Option<string>>, cities: seq<string>,
                 names: map<string, string>, from: int, to: int)
    requires IsATrip(atlas, trip) && zones == ZonesOf(atlas, cur, trip) && cities == CitiesOf(atlas, cur, trip)
    requires forall i: nat | i < |trip| :: from <= trip[i].at <= to <==> InWindow(atlas, trip, i)
    requires forall i | 0 <= i < |zones| && zones[i].Some? ::
      zones[i].value in names && names[zones[i].value] == ZoneCalled(atlas, zones, cities, zones[i].value)
    ensures forall i | 0 <= i < |trip| ::
      Spots(atlas, cur, trip)[i]
      == if zones[i].Some? && from <= trip[i].at <= to then Some(Local(zones[i].value, names[zones[i].value])) else None
  {
    forall i | 0 <= i < |trip| ensures Spots(atlas, cur, trip)[i]
      == if zones[i].Some? && from <= trip[i].at <= to then Some(Local(zones[i].value, names[zones[i].value])) else None {
      SpotIs(atlas, cur, trip, zones, cities, i);
    }
  }

  method LocateTrip(atlas: Atlas, cur: string, trip: seq<Row>) returns (local: map<string, Local>)
    ensures local == TripPlaced(atlas, cur, trip)
  {
    var placed := PlacedIn(NamedIn(atlas, trip), |trip|);
    if |placed| < MIN_PLACED {
      return map[];
    }
    var zones, cities := PlaceTrip(atlas, cur, trip);
    var from, to := trip[placed[0]].at - TRIP_MARGIN, trip[placed[|placed| - 1]].at + TRIP_MARGIN;
    var names := ZoneNames(atlas, zones, cities);
    ghost var spots := Spots(atlas, cur, trip);
    SpotsAre(atlas, cur, trip, zones, cities, names, from, to);
    local := PlaceWithin(trip, zones, names, from, to, spots);
  }

  // ---- all of them ---------------------------------------------------------------------------------

  predicate Earlier(a: Row, b: Row) { a.at < b.at || (a.at == b.at && Less(a.uuid, b.uuid)) }

  // Each row with its currency as it is compared.
  function Canonical(rows: seq<Row>): (canon: seq<Row>)
    ensures |canon| == |rows|
    ensures forall i | 0 <= i < |rows| :: canon[i] == rows[i].(currency := Upper(Trim(rows[i].currency)))
  {
    seq(|rows|, i requires 0 <= i < |rows| => rows[i].(currency := Upper(Trim(rows[i].currency))))
  }

  predicate Foreign(row: Row) { row.currency != "" && row.currency != "INR" }

  function InCurrency(canon: seq<Row>, cur: string): seq<Row> {
    if canon == [] then [] else
    var last := canon[|canon| - 1];
    InCurrency(canon[..|canon| - 1], cur) + if Foreign(last) && last.currency == cur then [last] else []
  }

  function Currencies(canon: seq<Row>): seq<string> {
    if canon == [] then [] else
    var earlier, last := Currencies(canon[..|canon| - 1]), canon[|canon| - 1];
    if Foreign(last) && last.currency !in earlier then earlier + [last.currency] else earlier
  }

  // A payment within the gap of the one before joins its trip; one beyond it starts another.
  function Joined(earlier: seq<seq<Row>>, front: seq<Row>, last: Row): seq<seq<Row>> {
    if front != [] && earlier != [] && last.at - front[|front| - 1].at <= TRIP_GAP
    then earlier[..|earlier| - 1] + [earlier[|earlier| - 1] + [last]]
    else earlier + [[last]]
  }

  // The trips of one currency's payments in time order.
  function Trips(sorted: seq<Row>): seq<seq<Row>> {
    if sorted == [] then [] else
    var front := sorted[..|sorted| - 1];
    Joined(Trips(front), front, sorted[|sorted| - 1])
  }

  function TripsPlaced(atlas: Atlas, cur: string, trips: seq<seq<Row>>): map<string, Local> {
    if trips == [] then map[]
    else TripsPlaced(atlas, cur, trips[..|trips| - 1]) + TripPlaced(atlas, cur, trips[|trips| - 1])
  }

  function TripsIn(canon: seq<Row>, cur: string): seq<seq<Row>> { Trips(Ordering.Sorted(InCurrency(canon, cur), Earlier)) }

  function PlacedOver(atlas: Atlas, canon: seq<Row>, curs: seq<string>): map<string, Local> {
    if curs == [] then map[]
    else PlacedOver(atlas, canon, curs[..|curs| - 1])
         + TripsPlaced(atlas, curs[|curs| - 1], TripsIn(canon, curs[|curs| - 1]))
  }

  function Located(atlas: Atlas, rows: seq<Row>): map<string, Local> {
    PlacedOver(atlas, Canonical(rows), Ordering.Sorted(Currencies(Canonical(rows)), Less))
  }

  lemma TripsOfMore(front: seq<Row>, last: Row)
    ensures Trips(front + [last]) == Joined(Trips(front), front, last)
  {
    assert (front + [last])[..|front|] == front;
  }

  lemma TripsUpTo(sorted: seq<Row>, i: nat, trips: seq<seq<Row>>, run: seq<Row>)
    requires 0 < i < |sorted| && Trips(sorted[..i]) == trips + [run]
    ensures Trips(sorted[..i + 1])
         == if sorted[i].at - sorted[i - 1].at <= TRIP_GAP then trips + [run + [sorted[i]]] else trips + [run] + [[sorted[i]]]
  {
    TripsOfMore(sorted[..i], sorted[i]);
    assert sorted[..i + 1] == sorted[..i] + [sorted[i]];
    assert (trips + [run])[..|trips|] == trips;
  }

  lemma TripsOfOne(sorted: seq<Row>)
    requires sorted != []
    ensures Trips(sorted[..1]) == [] + [sorted[0..1]]
  {
    TripsOfMore([], sorted[0]);
    assert [] + [sorted[0]] == sorted[..1] == sorted[0..1];
  }

  lemma RunGrows(sorted: seq<Row>, start: nat, i: nat)
    requires start <= i < |sorted|
    ensures sorted[start..i + 1] == sorted[start..i] + [sorted[i]] && sorted[i..i + 1] == [sorted[i]]
  {
  }

  // The loop over a currency's payments: `start` is where the current trip began.
  method SplitTrips(sorted: seq<Row>) returns (trips: seq<seq<Row>>)
    ensures trips == Trips(sorted)
  {
    trips := [];
    if |sorted| == 0 {
      return;
    }
    var start := 0;
    ghost var split := Trips(sorted[..1]);
    TripsOfOne(sorted);
    for i := 1 to |sorted|
      invariant start < i && split == Trips(sorted[..i]) && split == trips + [sorted[start..i]]
    {
      TripsUpTo(sorted, i, trips, sorted[start..i]);
      RunGrows(sorted, start, i);
      split := Trips(sorted[..i + 1]);
      if sorted[i].at - sorted[i - 1].at > TRIP_GAP {
        trips := trips + [sorted[start..i]];
        start := i;
      }
    }
    assert sorted[..|sorted|] == sorted;
    trips := trips + [sorted[start..|sorted|]];
  }

  method LocateCurrency(atlas: Atlas, cur: string, sorted: seq<Row>) returns (local: map<string, Local>)
    ensures local == TripsPlaced(atlas, cur, Trips(sorted))
  {
    var trips := SplitTrips(sorted);
    local := map[];
    for i := 0 to |trips|
      invariant local == TripsPlaced(atlas, cur, trips[..i])
    {
      assert trips[..i + 1][..i] == trips[..i];
      var placed := LocateTrip(atlas, cur, trips[i]);
      local := local + placed;
    }
    assert trips[..|trips|] == trips;
  }

  function Kept(byCur: map<string, seq<Row>>, cur: string): seq<Row> { if cur in byCur then byCur[cur] else [] }

  ghost predicate Grouped(canon: seq<Row>, byCur: map<string, seq<Row>>, curs: seq<string>) {
    && curs == Currencies(canon)
    && (forall cur :: cur in byCur <==> cur in curs)
    && (forall cur :: Kept(byCur, cur) == InCurrency(canon, cur))
  }

  lemma GroupGrows(front: seq<Row>, row: Row, byCur: map<string, seq<Row>>, curs: seq<string>)
    requires Grouped(front, byCur, curs)
    ensures !Foreign(row) ==> Grouped(front + [row], byCur, curs)
    ensures Foreign(row) ==>
      Grouped(front + [row], byCur[row.currency := Kept(byCur, row.currency) + [row]],
              if row.currency in byCur then curs else curs + [row.currency])
  {
    CurrenciesOfMore(front, row);
    var byCur' := if Foreign(row) then byCur[row.currency := Kept(byCur, row.currency) + [row]] else byCur;
    forall cur ensures Kept(byCur', cur) == InCurrency(front + [row], cur) {
      InCurrencyOfMore(front, row, cur);
      assert Kept(byCur, cur) == InCurrency(front, cur);
    }
  }

  lemma InCurrencyOfMore(front: seq<Row>, row: Row, cur: string)
    ensures InCurrency(front + [row], cur)
         == InCurrency(front, cur) + if Foreign(row) && row.currency == cur then [row] else []
  {
    assert (front + [row])[..|front|] == front;
  }

  lemma CurrenciesOfMore(front: seq<Row>, row: Row)
    ensures Currencies(front + [row])
         == if Foreign(row) && row.currency !in Currencies(front) then Currencies(front) + [row.currency] else Currencies(front)
  {
    assert (front + [row])[..|front|] == front;
  }

  // The payments of each foreign currency, in the order they came.
  method Group(rows: seq<Row>) returns (byCur: map<string, seq<Row>>, curs: seq<string>)
    ensures Grouped(Canonical(rows), byCur, curs)
  {
    ghost var canon := Canonical(rows);
    byCur, curs := map[], [];
    for i := 0 to |rows|
      invariant Grouped(canon[..i], byCur, curs)
    {
      var row := rows[i].(currency := Upper(Trim(rows[i].currency)));
      GroupGrows(canon[..i], row, byCur, curs);
      assert canon[..i + 1] == canon[..i] + [row];
      if Foreign(row) {
        if row.currency !in byCur {
          curs := curs + [row.currency];
        }
        byCur := byCur[row.currency := Kept(byCur, row.currency) + [row]];
      }
    }
    assert canon[..|rows|] == canon;
  }

  lemma SortedKeepsMembers(curs: seq<string>, cur: string)
    ensures cur in Ordering.Sorted(curs, Less) <==> cur in curs
  {
    Ordering.SortedHolds(curs, Less, cur);
  }

  lemma PlacedStep(atlas: Atlas, canon: seq<Row>, curs: seq<string>, i: nat)
    requires i < |curs|
    ensures PlacedOver(atlas, canon, curs[..i + 1])
         == PlacedOver(atlas, canon, curs[..i]) + TripsPlaced(atlas, curs[i], TripsIn(canon, curs[i]))
  {
    assert curs[..i + 1][..i] == curs[..i];
  }

  // The loop over the currencies.
  method LocateAll(atlas: Atlas, byCur: map<string, seq<Row>>, curs: seq<string>, ghost canon: seq<Row>)
    returns (local: map<string, Local>)
    requires forall cur | cur in curs :: cur in byCur && byCur[cur] == InCurrency(canon, cur)
    ensures local == PlacedOver(atlas, canon, curs)
  {
    local := map[];
    for i := 0 to |curs|
      invariant local == PlacedOver(atlas, canon, curs[..i])
    {
      PlacedStep(atlas, canon, curs, i);
      assert curs[i] in curs;
      var placed := LocateCurrency(atlas, curs[i], Ordering.Sorted(byCur[curs[i]], Earlier));
      local := local + placed;
    }
    assert curs[..|curs|] == curs;
  }

  method Locate(atlas: Atlas, rows: seq<Row>) returns (local: map<string, Local>)
    ensures local == Located(atlas, rows)
  {
    var byCur, curs := Group(rows);
    ghost var canon := Canonical(rows);
    var sorted := Ordering.Sorted(curs, Less);
    forall cur | cur in sorted ensures cur in byCur && byCur[cur] == InCurrency(canon, cur) {
      SortedKeepsMembers(curs, cur);
      assert Kept(byCur, cur) == InCurrency(canon, cur);
    }
    local := LocateAll(atlas, byCur, sorted, canon);
  }

  // ---- what Locate promises -------------------------------------------------------------------------

  // A row per uuid, as the table keeps them.
  ghost predicate OneRowEach(rows: seq<Row>) { forall i, j | 0 <= i < j < |rows| :: rows[i].uuid != rows[j].uuid }

  lemma OrdersAreStrict()
    ensures Ordering.Strict(Less) && Ordering.Strict(Earlier)
  {
    forall a, b, c ensures !(Less(a, b) && Less(b, a)) && (Less(a, b) && Less(b, c) ==> Less(a, c)) {
      LessIsAnOrder(a, b);
      if Less(a, b) && Less(b, c) {
        LessChains(a, b, c);
      }
    }
    forall a, b, c ensures !(Earlier(a, b) && Earlier(b, a)) && (Earlier(a, b) && Earlier(b, c) ==> Earlier(a, c)) {
      assert !(Less(a.uuid, b.uuid) && Less(b.uuid, a.uuid));
      assert Less(a.uuid, b.uuid) && Less(b.uuid, c.uuid) ==> Less(a.uuid, c.uuid);
    }
  }

  lemma {:induction false} InCurrencyHolds(canon: seq<Row>, cur: string, x: Row)
    ensures x in InCurrency(canon, cur) <==> Foreign(x) && x.currency == cur && x in canon
  {
    if canon != [] {
      assert canon == canon[..|canon| - 1] + [canon[|canon| - 1]];
      InCurrencyHolds(canon[..|canon| - 1], cur, x);
    }
  }

  lemma {:induction false} CurrenciesHold(canon: seq<Row>, c: string)
    ensures c in Currencies(canon) <==> exists r | r in canon :: Foreign(r) && r.currency == c
  {
    if canon != [] {
      var front, last := canon[..|canon| - 1], canon[|canon| - 1];
      assert canon == front + [last];
      CurrenciesHold(front, c);
      assert (exists r | r in canon :: Foreign(r) && r.currency == c)
        <==> (Foreign(last) && last.currency == c) || exists r | r in front :: Foreign(r) && r.currency == c;
    }
  }

  lemma {:induction false} CurrenciesAreApart(canon: seq<Row>)
    ensures Ordering.ToldApart(Currencies(canon), Less)
  {
    if canon != [] {
      var earlier, last := Currencies(canon[..|canon| - 1]), canon[|canon| - 1].currency;
      CurrenciesAreApart(canon[..|canon| - 1]);
      forall i | 0 <= i < |earlier| ensures earlier[i] == last || Less(earlier[i], last) || Less(last, earlier[i]) {
        LessIsAnOrder(earlier[i], last);
      }
    }
  }

  lemma {:induction false} PaymentsAreApart(canon: seq<Row>, cur: string)
    requires OneRowEach(canon)
    ensures Ordering.ToldApart(InCurrency(canon, cur), Earlier)
  {
    if canon != [] {
      var front, last := canon[..|canon| - 1], canon[|canon| - 1];
      var earlier := InCurrency(front, cur);
      PaymentsAreApart(front, cur);
      forall i | 0 <= i < |earlier| ensures Earlier(earlier[i], last) || Earlier(last, earlier[i]) {
        InCurrencyHolds(front, cur, earlier[i]);
        LessIsAnOrder(earlier[i].uuid, last.uuid);
      }
    }
  }

  // The same rows in any order are placed the same.
  lemma OrderDoesNotMatter(atlas: Atlas, a: seq<Row>, b: seq<Row>)
    requires OneRowEach(a) && OneRowEach(b) && forall r :: r in a <==> r in b
    ensures Located(atlas, a) == Located(atlas, b)
  {
    var a', b' := Canonical(a), Canonical(b);
    assert OneRowEach(a') && OneRowEach(b');
    forall r ensures r in a' <==> r in b' {
      CanonicalHolds(a, b, r);
      CanonicalHolds(b, a, r);
    }
    OrdersAreStrict();
    forall c ensures c in Currencies(a') <==> c in Currencies(b') {
      CurrenciesHold(a', c);
      CurrenciesHold(b', c);
    }
    CurrenciesAreApart(a');
    CurrenciesAreApart(b');
    Ordering.SortForgetsOrder(Currencies(a'), Currencies(b'), Less);
    forall cur ensures TripsIn(a', cur) == TripsIn(b', cur) {
      SameTrips(a', b', cur);
    }
    SamePlacements(atlas, a', b', Ordering.Sorted(Currencies(a'), Less));
  }

  lemma CanonicalHolds(a: seq<Row>, b: seq<Row>, r: Row)
    requires forall x :: x in a ==> x in b
    ensures r in Canonical(a) ==> r in Canonical(b)
  {
    if r in Canonical(a) {
      var i :| 0 <= i < |a| && Canonical(a)[i] == r;
      assert a[i] in b;
      var j :| 0 <= j < |b| && b[j] == a[i];
      assert Canonical(b)[j] == r;
    }
  }

  lemma SameTrips(a: seq<Row>, b: seq<Row>, cur: string)
    requires OneRowEach(a) && OneRowEach(b) && forall r :: r in a <==> r in b
    ensures TripsIn(a, cur) == TripsIn(b, cur)
  {
    OrdersAreStrict();
    forall x ensures x in InCurrency(a, cur) <==> x in InCurrency(b, cur) {
      InCurrencyHolds(a, cur, x);
      InCurrencyHolds(b, cur, x);
    }
    PaymentsAreApart(a, cur);
    PaymentsAreApart(b, cur);
    Ordering.SortForgetsOrder(InCurrency(a, cur), InCurrency(b, cur), Earlier);
  }

  lemma {:induction false} SamePlacements(atlas: Atlas, a: seq<Row>, b: seq<Row>, curs: seq<string>)
    requires forall cur :: TripsIn(a, cur) == TripsIn(b, cur)
    ensures PlacedOver(atlas, a, curs) == PlacedOver(atlas, b, curs)
  {
    if curs != [] {
      SamePlacements(atlas, a, b, curs[..|curs| - 1]);
    }
  }

  function Flat(trips: seq<seq<Row>>): seq<Row> {
    if trips == [] then [] else Flat(trips[..|trips| - 1]) + trips[|trips| - 1]
  }

  predicate IsRun(trip: seq<Row>) {
    trip != [] && forall i | 0 <= i < |trip| - 1 :: trip[i + 1].at - trip[i].at <= TRIP_GAP
  }

  // The maximal runs of the payments: they cover them in order, no two neighbours of one are
  // more than 72 hours apart, and each starts more than that after the one before it ends.
  predicate MaximalRuns(trips: seq<seq<Row>>, sorted: seq<Row>) {
    && Flat(trips) == sorted
    && (forall t | 0 <= t < |trips| :: IsRun(trips[t]))
    && (forall t | 0 <= t < |trips| - 1 :: trips[t + 1][0].at - trips[t][|trips[t]| - 1].at > TRIP_GAP)
  }

  lemma FlatEnds(trips: seq<seq<Row>>)
    requires trips != [] && IsRun(trips[|trips| - 1])
    ensures Flat(trips) != [] && Flat(trips)[|Flat(trips)| - 1] == trips[|trips| - 1][|trips[|trips| - 1]| - 1]
  {
  }

  lemma FlatOfMore(before: seq<seq<Row>>, run: seq<Row>)
    ensures Flat(before + [run]) == Flat(before) + run
  {
    assert (before + [run])[..|before|] == before;
  }

  lemma RunIsLonger(run: seq<Row>, last: Row)
    requires IsRun(run) && last.at - run[|run| - 1].at <= TRIP_GAP
    ensures IsRun(run + [last])
  {
  }

  lemma RunsGrow(before: seq<seq<Row>>, run: seq<Row>, front: seq<Row>, last: Row)
    requires MaximalRuns(before + [run], front) && run != [] && last.at - run[|run| - 1].at <= TRIP_GAP
    ensures MaximalRuns(before + [run + [last]], front + [last])
  {
    var earlier, now := before + [run], before + [run + [last]];
    FlatOfMore(before, run);
    FlatOfMore(before, run + [last]);
    assert front + [last] == Flat(before) + (run + [last]);
    assert IsRun(earlier[|before|]);
    RunIsLonger(run, last);
    forall t | 0 <= t < |now| ensures IsRun(now[t]) && now[t][0] == earlier[t][0] && (t < |before| ==> now[t] == earlier[t]) {
      assert IsRun(earlier[t]);
    }
  }

  lemma RunsStart(earlier: seq<seq<Row>>, front: seq<Row>, last: Row)
    requires MaximalRuns(earlier, front)
    requires front != [] ==> last.at - front[|front| - 1].at > TRIP_GAP
    ensures MaximalRuns(earlier + [[last]], front + [last])
  {
    assert (earlier + [[last]])[..|earlier|] == earlier;
    if earlier != [] {
      FlatEnds(earlier);
    }
  }

  lemma JoiningKeepsRuns(earlier: seq<seq<Row>>, front: seq<Row>, last: Row)
    requires MaximalRuns(earlier, front)
    ensures MaximalRuns(Joined(earlier, front, last), front + [last])
  {
    if front != [] && last.at - front[|front| - 1].at <= TRIP_GAP {
      assert earlier != [];
      FlatEnds(earlier);
      assert earlier == earlier[..|earlier| - 1] + [earlier[|earlier| - 1]];
      RunsGrow(earlier[..|earlier| - 1], earlier[|earlier| - 1], front, last);
    } else {
      RunsStart(earlier, front, last);
    }
  }

  // Trips are exactly the maximal runs.
  lemma {:induction false} TripsAreMaximalRuns(sorted: seq<Row>)
    ensures MaximalRuns(Trips(sorted), sorted)
    decreases |sorted|
  {
    if sorted != [] {
      var front, last := sorted[..|sorted| - 1], sorted[|sorted| - 1];
      TripsAreMaximalRuns(front);
      JoiningKeepsRuns(Trips(front), front, last);
      assert sorted == front + [last];
    }
  }

  // A trip places exactly the payments it has a spot for, each at its own.
  lemma {:induction false} PlacesExactly(trip: seq<Row>, spots: seq<Option<Local>>, n: nat, i: nat)
    requires OneRowEach(trip) && i < n <= |trip| == |spots|
    ensures var placed := Placements(trip, spots, n);
      (if trip[i].uuid in placed then Some(placed[trip[i].uuid]) else None) == spots[i]
  {
    if i == n - 1 {
      OnlyItsOwn(trip, spots, n - 1, trip[i].uuid);
    } else {
      PlacesExactly(trip, spots, n - 1, i);
    }
  }

  lemma {:induction false} OnlyItsOwn(trip: seq<Row>, spots: seq<Option<Local>>, n: nat, u: string)
    requires n <= |trip| == |spots|
    ensures u in Placements(trip, spots, n) ==> exists i | 0 <= i < n :: trip[i].uuid == u && spots[i].Some?
  {
    if n > 0 {
      OnlyItsOwn(trip, spots, n - 1, u);
    }
  }

  ghost predicate PlacedBy(atlas: Atlas, trip: seq<Row>, u: string) {
    IsATrip(atlas, trip) && exists i | 0 <= i < |trip| :: trip[i].uuid == u && InWindow(atlas, trip, i)
  }

  // A payment is placed only by a trip it is in, one that names two places or more, within
  // twelve hours of the first or the last of them or between the two.
  lemma PlacedOnlyOnATrip(atlas: Atlas, rows: seq<Row>, u: string)
    requires u in Located(atlas, rows)
    ensures exists cur, t | 0 <= t < |TripsIn(Canonical(rows), cur)| :: PlacedBy(atlas, TripsIn(Canonical(rows), cur)[t], u)
  {
    PlacedByACurrency(atlas, Canonical(rows), Ordering.Sorted(Currencies(Canonical(rows)), Less), u);
  }

  lemma {:induction false} PlacedByACurrency(atlas: Atlas, canon: seq<Row>, curs: seq<string>, u: string)
    requires u in PlacedOver(atlas, canon, curs)
    ensures exists cur, t | 0 <= t < |TripsIn(canon, cur)| :: PlacedBy(atlas, TripsIn(canon, cur)[t], u)
  {
    var cur := curs[|curs| - 1];
    if u in TripsPlaced(atlas, cur, TripsIn(canon, cur)) {
      PlacedByATrip(atlas, cur, TripsIn(canon, cur), u);
    } else {
      PlacedByACurrency(atlas, canon, curs[..|curs| - 1], u);
    }
  }

  lemma {:induction false} PlacedByATrip(atlas: Atlas, cur: string, trips: seq<seq<Row>>, u: string)
    requires u in TripsPlaced(atlas, cur, trips)
    ensures exists t | 0 <= t < |trips| :: PlacedBy(atlas, trips[t], u)
  {
    var last := trips[|trips| - 1];
    if u in TripPlaced(atlas, cur, last) {
      var spots := Spots(atlas, cur, last);
      OnlyItsOwn(last, spots, |last|, u);
      assert forall i | 0 <= i < |last| :: spots[i] == Spot(atlas, cur, last, i);
      assert PlacedBy(atlas, trips[|trips| - 1], u);
    } else {
      PlacedByATrip(atlas, cur, trips[..|trips| - 1], u);
      var t :| 0 <= t < |trips| - 1 && PlacedBy(atlas, trips[..|trips| - 1][t], u);
      assert PlacedBy(atlas, trips[t], u);
    }
  }

  // ---- where each payment ends up, exactly ------------------------------------------------------

  function At(local: map<string, Local>, u: string): Option<Local> { if u in local then Some(local[u]) else None }

  // Where its own trip puts a payment, if anywhere.
  function SpotIn(atlas: Atlas, cur: string, trip: seq<Row>, i: nat): Option<Local>
    requires i < |trip|
  {
    if IsATrip(atlas, trip) then Spot(atlas, cur, trip, i) else None
  }

  ghost predicate Mentions(rows: seq<Row>, u: string) { exists r | r in rows :: r.uuid == u }

  lemma TripPlacesExactly(atlas: Atlas, cur: string, trip: seq<Row>, i: nat)
    requires OneRowEach(trip) && i < |trip|
    ensures At(TripPlaced(atlas, cur, trip), trip[i].uuid) == SpotIn(atlas, cur, trip, i)
  {
    if IsATrip(atlas, trip) {
      PlacesExactly(trip, Spots(atlas, cur, trip), |trip|, i);
    }
  }

  lemma TripPlacesItsOwn(atlas: Atlas, cur: string, trip: seq<Row>, u: string)
    requires !Mentions(trip, u)
    ensures u !in TripPlaced(atlas, cur, trip)
  {
    if IsATrip(atlas, trip) {
      OnlyItsOwn(trip, Spots(atlas, cur, trip), |trip|, u);
    }
  }

  lemma {:induction false} TripsPlaceTheirOwn(atlas: Atlas, cur: string, trips: seq<seq<Row>>, u: string)
    requires !Mentions(Flat(trips), u)
    ensures u !in TripsPlaced(atlas, cur, trips)
  {
    if trips != [] {
      var front, last := trips[..|trips| - 1], trips[|trips| - 1];
      assert forall r | r in Flat(front) || r in last :: r in Flat(trips);
      TripsPlaceTheirOwn(atlas, cur, front, u);
      TripPlacesItsOwn(atlas, cur, last, u);
    }
  }

  lemma {:induction false} TripIsInFlat(trips: seq<seq<Row>>, t: nat, r: Row)
    requires t < |trips| && r in trips[t]
    ensures r in Flat(trips)
  {
    if t < |trips| - 1 {
      TripIsInFlat(trips[..|trips| - 1], t, r);
    }
  }

  lemma PartsApart(a: seq<Row>, b: seq<Row>)
    requires OneRowEach(a + b)
    ensures OneRowEach(a) && OneRowEach(b)
    ensures forall r | r in a :: !Mentions(b, r.uuid)
    ensures forall r | r in b :: !Mentions(a, r.uuid)
  {
    assert forall i | 0 <= i < |a| :: (a + b)[i] == a[i];
    assert forall i | 0 <= i < |b| :: (a + b)[|a| + i] == b[i];
    forall r, q | r in a && q in b ensures r.uuid != q.uuid {
      var i :| 0 <= i < |a| && a[i] == r;
      var j :| 0 <= j < |b| && b[j] == q;
      assert (a + b)[i].uuid != (a + b)[|a| + j].uuid;
    }
  }

  lemma {:induction false} TripsPlaceExactly(atlas: Atlas, cur: string, trips: seq<seq<Row>>, t: nat, i: nat)
    requires OneRowEach(Flat(trips)) && t < |trips| && i < |trips[t]|
    ensures At(TripsPlaced(atlas, cur, trips), trips[t][i].uuid) == SpotIn(atlas, cur, trips[t], i)
  {
    var front, last := trips[..|trips| - 1], trips[|trips| - 1];
    PartsApart(Flat(front), last);
    if t == |trips| - 1 {
      assert last[i] in last;
      TripPlacesExactly(atlas, cur, last, i);
      TripsPlaceTheirOwn(atlas, cur, front, last[i].uuid);
    } else {
      TripIsInFlat(front, t, front[t][i]);
      TripPlacesItsOwn(atlas, cur, last, front[t][i].uuid);
      TripsPlaceExactly(atlas, cur, front, t, i);
    }
  }

  // Of rows all different, rows taken once each are all different too.
  lemma StillOneEach(canon: seq<Row>, some: seq<Row>)
    requires OneRowEach(canon) && (forall r | r in some :: r in canon)
    requires forall i, j | 0 <= i < j < |some| :: some[i] != some[j]
    ensures OneRowEach(some)
  {
    forall i, j | 0 <= i < j < |some| ensures some[i].uuid != some[j].uuid {
      SameUuidSameRow(canon, some[i], some[j]);
    }
  }

  lemma SameUuidSameRow(canon: seq<Row>, r: Row, q: Row)
    requires OneRowEach(canon) && r in canon && q in canon
    ensures r.uuid == q.uuid ==> r == q
  {
    var i :| 0 <= i < |canon| && canon[i] == r;
    var j :| 0 <= j < |canon| && canon[j] == q;
    assert i < j ==> canon[i].uuid != canon[j].uuid;
    assert j < i ==> canon[j].uuid != canon[i].uuid;
  }

  lemma {:induction false} InCurrencyIsDistinct(canon: seq<Row>, cur: string)
    requires OneRowEach(canon)
    ensures forall i, j | 0 <= i < j < |InCurrency(canon, cur)| :: InCurrency(canon, cur)[i] != InCurrency(canon, cur)[j]
  {
    if canon != [] {
      var front, last := canon[..|canon| - 1], canon[|canon| - 1];
      InCurrencyIsDistinct(front, cur);
      InCurrencyHolds(front, cur, last);
    }
  }

  // A currency's trips hold its payments, each once.
  lemma TripsHoldTheCurrency(canon: seq<Row>, cur: string)
    requires OneRowEach(canon)
    ensures OneRowEach(Flat(TripsIn(canon, cur)))
    ensures forall r :: r in Flat(TripsIn(canon, cur)) <==> Foreign(r) && r.currency == cur && r in canon
  {
    var some := InCurrency(canon, cur);
    var sorted := Ordering.Sorted(some, Earlier);
    TripsAreMaximalRuns(sorted);
    InCurrencyIsDistinct(canon, cur);
    Ordering.SortedIsDistinct(some, Earlier);
    forall r ensures r in sorted <==> Foreign(r) && r.currency == cur && r in canon {
      Ordering.SortedHolds(some, Earlier, r);
      InCurrencyHolds(canon, cur, r);
    }
    StillOneEach(canon, sorted);
  }

  lemma OthersDoNotPlaceIt(atlas: Atlas, canon: seq<Row>, cur: string, r: Row)
    requires OneRowEach(canon) && r in canon && !(Foreign(r) && r.currency == cur)
    ensures r.uuid !in TripsPlaced(atlas, cur, TripsIn(canon, cur))
  {
    TripsHoldTheCurrency(canon, cur);
    forall q | q in Flat(TripsIn(canon, cur)) ensures q.uuid != r.uuid {
      SameUuidSameRow(canon, q, r);
    }
    TripsPlaceTheirOwn(atlas, cur, TripsIn(canon, cur), r.uuid);
  }

  // The maps of two currencies' placements, put together.
  lemma AtOfBoth(a: map<string, Local>, b: map<string, Local>, u: string)
    ensures At(a + b, u) == if At(b, u).Some? then At(b, u) else At(a, u)
  {
  }

  lemma PlacedOverOneMore(atlas: Atlas, canon: seq<Row>, front: seq<string>, last: string, u: string)
    ensures var own := TripsPlaced(atlas, last, TripsIn(canon, last));
      At(PlacedOver(atlas, canon, front + [last]), u) == if At(own, u).Some? then At(own, u) else At(PlacedOver(atlas, canon, front), u)
  {
    assert (front + [last])[..|front|] == front;
    AtOfBoth(PlacedOver(atlas, canon, front), TripsPlaced(atlas, last, TripsIn(canon, last)), u);
  }

  // Where a payment's own currency puts it, if it is among these.
  function OwnSpot(atlas: Atlas, canon: seq<Row>, curs: seq<string>, r: Row): Option<Local> {
    if Foreign(r) && r.currency in curs then At(TripsPlaced(atlas, r.currency, TripsIn(canon, r.currency)), r.uuid) else None
  }

  predicate PutRight(atlas: Atlas, canon: seq<Row>, curs: seq<string>, r: Row) {
    At(PlacedOver(atlas, canon, curs), r.uuid) == OwnSpot(atlas, canon, curs, r)
  }

  lemma OneMorePutRight(atlas: Atlas, canon: seq<Row>, front: seq<string>, last: string, r: Row)
    requires OneRowEach(canon) && r in canon && last !in front && PutRight(atlas, canon, front, r)
    ensures PutRight(atlas, canon, front + [last], r)
  {
    PlacedOverOneMore(atlas, canon, front, last, r.uuid);
    if !Foreign(r) || r.currency != last {
      OthersDoNotPlaceIt(atlas, canon, last, r);
    }
  }

  lemma NonePutRight(atlas: Atlas, canon: seq<Row>, r: Row)
    ensures PutRight(atlas, canon, [], r)
  {
  }

  // A payment is placed over all currencies as its own places it.
  lemma {:induction false} PlacedOverItsOwn(atlas: Atlas, canon: seq<Row>, curs: seq<string>, r: Row)
    requires OneRowEach(canon) && r in canon
    requires forall i, j | 0 <= i < j < |curs| :: curs[i] != curs[j]
    ensures PutRight(atlas, canon, curs, r)
  {
    if curs == [] {
      NonePutRight(atlas, canon, r);
    } else {
      var front, last := curs[..|curs| - 1], curs[|curs| - 1];
      assert last !in front;
      PlacedOverItsOwn(atlas, canon, front, r);
      OneMorePutRight(atlas, canon, front, last, r);
      assert front + [last] == curs;
    }
  }

  lemma CurrenciesInOrder(canon: seq<Row>) returns (curs: seq<string>)
    ensures curs == Ordering.Sorted(Currencies(canon), Less)
    ensures forall i, j | 0 <= i < j < |curs| :: curs[i] != curs[j]
    ensures forall r | r in canon && Foreign(r) :: r.currency in curs
  {
    curs := Ordering.Sorted(Currencies(canon), Less);
    CurrenciesAreApart(canon);
    forall i, j | 0 <= i < j < |Currencies(canon)| ensures Currencies(canon)[i] != Currencies(canon)[j] {
      LessIsAnOrder(Currencies(canon)[i], Currencies(canon)[j]);
    }
    Ordering.SortedIsDistinct(Currencies(canon), Less);
    forall r | r in canon && Foreign(r) ensures r.currency in curs {
      CurrenciesHold(canon, r.currency);
      SortedKeepsMembers(Currencies(canon), r.currency);
    }
  }

  // What Locate answers, both ways: a payment is in the map exactly when its trip is one and has
  // a spot for it, and then with that spot, whatever other trips and currencies there are.
  lemma LocatedExactly(atlas: Atlas, rows: seq<Row>, cur: string, t: nat, i: nat)
    requires OneRowEach(rows)
    requires t < |TripsIn(Canonical(rows), cur)| && i < |TripsIn(Canonical(rows), cur)[t]|
    ensures var trip := TripsIn(Canonical(rows), cur)[t];
      At(Located(atlas, rows), trip[i].uuid) == SpotIn(atlas, cur, trip, i)
  {
    var canon := Canonical(rows);
    var trip := TripsIn(canon, cur)[t];
    TripsHoldTheCurrency(canon, cur);
    TripIsInFlat(TripsIn(canon, cur), t, trip[i]);
    var curs := CurrenciesInOrder(canon);
    PlacedOverItsOwn(atlas, canon, curs, trip[i]);
    TripsPlaceExactly(atlas, cur, TripsIn(canon, cur), t, i);
  }

  // And every row has its place there: a foreign payment is in a trip of its currency, any other
  // is never placed.
  lemma EveryRowHasItsTrip(atlas: Atlas, rows: seq<Row>, r: Row)
    requires OneRowEach(rows) && r in Canonical(rows)
    ensures if Foreign(r)
      then exists t | 0 <= t < |TripsIn(Canonical(rows), r.currency)| :: r in TripsIn(Canonical(rows), r.currency)[t]
      else r.uuid !in Located(atlas, rows)
  {
    var canon := Canonical(rows);
    if Foreign(r) {
      TripsHoldTheCurrency(canon, r.currency);
      FlatIsInATrip(TripsIn(canon, r.currency), r);
    } else {
      var curs := CurrenciesInOrder(canon);
      PlacedOverItsOwn(atlas, canon, curs, r);
    }
  }

  lemma {:induction false} FlatIsInATrip(trips: seq<seq<Row>>, r: Row)
    requires r in Flat(trips)
    ensures exists t | 0 <= t < |trips| :: r in trips[t]
  {
    var front, last := trips[..|trips| - 1], trips[|trips| - 1];
    if r in last {
      assert r in trips[|trips| - 1];
    } else {
      FlatIsInATrip(front, r);
      var t :| 0 <= t < |front| && r in front[t];
      assert r in trips[t];
    }
  }

  // ---- the rules of filling and of the window, in numbers ------------------------------------------

  // With b the nearest anchored payment before and a the nearest after, -1 for none, a payment that is
  // not anchored takes: their zone where they agree; else that of the only one within the hour; at an
  // edge that of the only one there is, within the day; and none otherwise.
  lemma FilledExactly(trip: seq<Row>, anchors: seq<Option<string>>, i: nat, b: int, a: int)
    requires |trip| == |anchors| && i < |trip| && anchors[i].None? && -1 <= b < i && (a == -1 || i < a < |trip|)
    requires (b >= 0 ==> anchors[b].Some?) && (a >= 0 ==> anchors[a].Some?)
    requires forall k | 0 <= k < |trip| && b < k < i :: anchors[k].None?
    requires forall k | 0 <= k < |trip| && i < k && (a >= 0 ==> k < a) :: anchors[k].None?
    ensures var hour := 3600 * 1_000_000_000;
      Filled(trip, anchors, i) ==
        if b >= 0 && a >= 0 then
          var since, until := trip[i].at - trip[b].at, trip[a].at - trip[i].at;
          if anchors[b] == anchors[a] then anchors[a]
          else if since <= hour < until then anchors[b] else if until <= hour < since then anchors[a] else None
        else if b >= 0 && trip[i].at - trip[b].at <= 24 * hour then anchors[b]
        else if a >= 0 && trip[a].at - trip[i].at <= 24 * hour then anchors[a]
        else None
  {
    NearestBefore(anchors, i, b);
    NearestAfter(anchors, i, a);
  }

  lemma {:induction false} NearestBefore(anchors: seq<Option<string>>, i: nat, b: int)
    requires i <= |anchors| && -1 <= b < i && (b >= 0 ==> anchors[b].Some?) && forall k | 0 <= k < |anchors| && b < k < i :: anchors[k].None?
    ensures AnchorBefore(anchors, i) == b
  {
    if i > 0 && b < i - 1 {
      NearestBefore(anchors, i - 1, b);
    }
  }

  lemma {:induction false} NearestAfter(anchors: seq<Option<string>>, i: nat, a: int)
    requires i < |anchors| && (a == -1 || i < a < |anchors|) && (a >= 0 ==> anchors[a].Some?)
    requires forall k | 0 <= k < |anchors| && i < k && (a >= 0 ==> k < a) :: anchors[k].None?
    ensures AnchorAfter(anchors, i) == a
    decreases |anchors| - i
  {
    if i + 1 < |anchors| && a != i + 1 {
      NearestAfter(anchors, i + 1, a);
    }
  }

  // A run is a trip exactly when two of its payments name a place.
  lemma TripMeans(atlas: Atlas, trip: seq<Row>)
    ensures IsATrip(atlas, trip) <==>
      exists f, l | 0 <= f < l < |trip| :: atlas.placeOf(trip[f].payee).Some? && atlas.placeOf(trip[l].payee).Some?
  {
    var placed := PlacedIn(NamedIn(atlas, trip), |trip|);
    if |placed| >= 2 {
      assert placed[0] < placed[1];
      assert NamedIn(atlas, trip)[placed[0]].Some? && NamedIn(atlas, trip)[placed[1]].Some?;
    }
  }

  // With f its first payment that names a place and l its last, a trip's window is from twelve hours
  // before the one to twelve hours after the other.
  lemma WindowMeans(atlas: Atlas, trip: seq<Row>, i: nat, f: nat, l: nat)
    requires IsATrip(atlas, trip) && i < |trip| && f < |trip| && l < |trip|
    requires atlas.placeOf(trip[f].payee).Some? && forall k | 0 <= k < f :: atlas.placeOf(trip[k].payee).None?
    requires atlas.placeOf(trip[l].payee).Some? && forall k | l < k < |trip| :: atlas.placeOf(trip[k].payee).None?
    ensures InWindow(atlas, trip, i) <==>
      trip[f].at - trip[i].at <= 12 * 3600 * 1_000_000_000 && trip[i].at - trip[l].at <= 12 * 3600 * 1_000_000_000
  {
    var named := NamedIn(atlas, trip);
    var placed := PlacedIn(named, |trip|);
    assert named[f].Some? && named[l].Some?;
    assert f in placed && l in placed;
    assert named[placed[0]].Some? && named[placed[|placed| - 1]].Some?;
    assert placed[0] == f && placed[|placed| - 1] == l;
  }

  // In a currency of one zone every payment is there; in any other the tables anchor the place a
  // payment names, in a zone that loads, or else the resolver's answer to it does.
  lemma AnchorMeans(atlas: Atlas, cur: string, p: Place, answers: map<string, string>)
    ensures var c := atlas.cityOf(p, cur);
      Anchor(atlas, cur, Some(p), answers) ==
        if c.Some? && atlas.load(c.value.zone).Some? then atlas.load(c.value.zone)
        else if atlas.key(p) in answers && answers[atlas.key(p)] != "" then atlas.load(Trim(answers[atlas.key(p)]))
        else None
    ensures Anchor(atlas, cur, None, answers) == None
  {
  }

  lemma OneZoneMeans(atlas: Atlas, cur: string, trip: seq<Row>, i: nat)
    requires i < |trip| && atlas.currencyZone(cur).Some?
    ensures ZonesOf(atlas, cur, trip)[i] == atlas.currencyZone(cur)
    ensures var p := atlas.placeOf(trip[i].payee);
      CitiesOf(atlas, cur, trip)[i] ==
        if p.Some? && atlas.cityOf(p.value, cur).Some? && Some(atlas.cityOf(p.value, cur).value.zone) == atlas.currencyZone(cur)
        then atlas.cityOf(p.value, cur).value.name else ""
  {
  }

  // A payment in such another currency has the zone its anchors fill in, and the city of its place where
  // the tables know it in a zone that loads.
  lemma ManyZonesMean(atlas: Atlas, cur: string, trip: seq<Row>, anchors: seq<Option<string>>, i: nat)
    requires i < |trip| && atlas.currencyZone(cur).None? && |anchors| == |trip|
    requires forall j | 0 <= j < |trip| ::
      anchors[j] == Anchor(atlas, cur, atlas.placeOf(trip[j].payee), Answers(atlas, cur, NamedIn(atlas, trip)))
    ensures ZonesOf(atlas, cur, trip)[i] == Filled(trip, anchors, i)
    ensures var p := atlas.placeOf(trip[i].payee);
      CitiesOf(atlas, cur, trip)[i] ==
        if p.Some? && atlas.cityOf(p.value, cur).Some? && atlas.load(atlas.cityOf(p.value, cur).value.zone).Some?
        then atlas.cityOf(p.value, cur).value.name else ""
  {
    var named := NamedIn(atlas, trip);
    var answers := Answers(atlas, cur, named);
    assert anchors == seq(|trip|, j requires 0 <= j < |trip| => Anchor(atlas, cur, named[j], answers));
  }

  // The resolver is asked once for a trip, in the light of all the places it names in order, and not at
  // all when the tables put every one in a zone.
  lemma AnswersMean(atlas: Atlas, cur: string, named: seq<Option<Place>>, places: seq<Place>)
    requires var placed := PlacedIn(named, |named|);
      |places| == |placed| && forall k | 0 <= k < |placed| :: named[placed[k]] == Some(places[k])
    ensures Answers(atlas, cur, named) ==
      if forall i | 0 <= i < |named| && named[i].Some? :: KnownCity(atlas, cur, named[i].value).Some? then map[]
      else atlas.resolve(cur, Asks(atlas, cur, named, atlas.context(places), |named|))
  {
    PlacesAreThose(named, |named|);
    assert places == PlacesOf(named, |named|);
    var asks := Asks(atlas, cur, named, atlas.context(places), |named|);
    forall i | 0 <= i < |named| && named[i].Some? && KnownCity(atlas, cur, named[i].value).None? ensures asks != [] {
      AskedExactly(atlas, cur, named, atlas.context(places), |named|, atlas.key(named[i].value));
    }
    if asks != [] {
      AskedExactly(atlas, cur, named, atlas.context(places), |named|, asks[0].key);
    }
  }

  lemma {:induction false} PlacesAreThose(named: seq<Option<Place>>, n: nat)
    requires n <= |named|
    ensures |PlacesOf(named, n)| == |PlacedIn(named, n)|
    ensures forall k | 0 <= k < |PlacedIn(named, n)| :: named[PlacedIn(named, n)[k]] == Some(PlacesOf(named, n)[k])
  {
    if n > 0 {
      PlacesAreThose(named, n - 1);
    }
  }

  lemma EarlierIsWeak()
    ensures Ordering.Weak(Earlier)
  {
    OrdersAreStrict();
    forall a, b, c | !Earlier(b, a) && !Earlier(c, b) ensures !Earlier(c, a) {
      LessIsAnOrder(a.uuid, b.uuid);
      LessIsAnOrder(b.uuid, c.uuid);
      if Less(a.uuid, b.uuid) && Less(b.uuid, c.uuid) {
        LessChains(a.uuid, b.uuid, c.uuid);
      }
      assert !(Less(a.uuid, c.uuid) && Less(c.uuid, a.uuid));
    }
  }

  // A currency's payments are taken in time order, and at one time by their uuid.
  lemma PaymentsAreInOrder(canon: seq<Row>, cur: string, i: nat, j: nat)
    requires i < j < |Ordering.Sorted(InCurrency(canon, cur), Earlier)|
    ensures var a, b := Ordering.Sorted(InCurrency(canon, cur), Earlier)[i], Ordering.Sorted(InCurrency(canon, cur), Earlier)[j];
      a.at <= b.at && (a.at == b.at ==> !Less(b.uuid, a.uuid))
  {
    EarlierIsWeak();
    Ordering.SortedNeverLater(InCurrency(canon, cur), Earlier);
    assert !Earlier(Ordering.Sorted(InCurrency(canon, cur), Earlier)[j], Ordering.Sorted(InCurrency(canon, cur), Earlier)[i]);
  }

  // What is asked: each place the tables cannot put in a zone, once, by what it is called first.
  lemma {:induction false} AskedExactly(atlas: Atlas, cur: string, named: seq<Option<Place>>, context: string, n: nat, key: string)
    requires n <= |named|
    ensures (exists a | a in Asks(atlas, cur, named, context, n) :: a.key == key)
      <==> exists i | 0 <= i < n :: named[i].Some? && atlas.key(named[i].value) == key && KnownCity(atlas, cur, named[i].value).None?
    ensures var asks := Asks(atlas, cur, named, context, n);
      forall i, j | 0 <= i < j < |asks| :: asks[i].key != asks[j].key
    ensures forall a | a in Asks(atlas, cur, named, context, n) ::
      && a.context == context
      && exists i | 0 <= i < n :: named[i].Some? && a.key == atlas.key(named[i].value) && a.name == atlas.text(named[i].value)
  {
    if n > 0 {
      AskedExactly(atlas, cur, named, context, n - 1, key);
    }
  }

  // A foreign payment is one in a currency that is neither missing nor INR, in any case and padding.
  lemma ForeignMeans(rows: seq<Row>, i: nat)
    requires i < |rows|
    ensures Foreign(Canonical(rows)[i]) <==> Upper(Trim(rows[i].currency)) != "" && Upper(Trim(rows[i].currency)) != "INR"
    ensures Canonical(rows)[i] == Row(rows[i].uuid, rows[i].at, Upper(Trim(rows[i].currency)), rows[i].payee)
  {
  }
}
