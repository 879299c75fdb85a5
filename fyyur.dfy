/**
 * The booking site's show bookkeeping: splitting a venue's or an artist's
 * shows into past and upcoming ones, counting upcoming shows for the
 * venue listing and the searches, and the flat list of all shows.
 * Times are integers; `now` is an input.
 */
module Fyyur {
  import opened Outcomes

  datatype Show = Show(id: int, venueId: int, artistId: int, startTime: int)
  datatype Venue = Venue(id: int, name: string, city: string, state: string)
  datatype Artist = Artist(id: int, name: string, imageLink: string)

  /** Whether a page is about a venue or about an artist. */
  datatype Side = OfVenue | OfArtist

  function Owner(s: Show, side: Side): int
  {
    match side
    case OfVenue => s.venueId
    case OfArtist => s.artistId
  }

  /** `Show.query.filter(Show.venue_id == id)` (or artist_id), in table order. */
  function ShowsOf(table: seq<Show>, side: Side, id: int): (r: seq<Show>)
    ensures forall s :: s in r <==> s in table && Owner(s, side) == id
    ensures |r| <= |table|
    decreases |table|
  {
    if table == [] then []
    else
      var last := table[|table| - 1];
      ShowsOf(table[..|table| - 1], side, id) + (if Owner(last, side) == id then [last] else [])
  }

  // ---------------------------------------------------------------------
  // Past / upcoming partition (show_venue, show_artist)
  // ---------------------------------------------------------------------

  /** The shows show_venue files as past: `now > start_time`, in query order. */
  function PastOf(shows: seq<Show>, now: int): (r: seq<Show>)
    ensures forall s :: s in r <==> s in shows && now > s.startTime
    decreases |shows|
  {
    if shows == [] then []
    else
      var last := shows[|shows| - 1];
      PastOf(shows[..|shows| - 1], now) + (if now > last.startTime then [last] else [])
  }

  /** The shows the else branch files as upcoming: `now <= start_time`, in query order. */
  function UpcomingOf(shows: seq<Show>, now: int): (r: seq<Show>)
    ensures forall s :: s in r <==> s in shows && now <= s.startTime
    decreases |shows|
  {
    if shows == [] then []
    else
      var last := shows[|shows| - 1];
      UpcomingOf(shows[..|shows| - 1], now) + (if now > last.startTime then [] else [last])
  }

  /** A non-empty list is its front followed by its last element, also as a multiset. */
  lemma MultisetSnoc(shows: seq<Show>)
    requires shows != []
    ensures multiset(shows) == multiset(shows[..|shows| - 1]) + multiset{shows[|shows| - 1]}
  {
    assert shows == shows[..|shows| - 1] + [shows[|shows| - 1]];
  }

  /** The two lists together hold every show exactly as often as the input does. */
  lemma {:induction false} PartitionIsExact(shows: seq<Show>, now: int)
    ensures multiset(PastOf(shows, now)) + multiset(UpcomingOf(shows, now)) == multiset(shows)
    decreases |shows|
  {
    if shows != [] {
      var front := shows[..|shows| - 1];
      var last := shows[|shows| - 1];
      PartitionIsExact(front, now);
      MultisetSnoc(shows);
      if now > last.startTime {
        assert PastOf(shows, now) == PastOf(front, now) + [last];
        assert UpcomingOf(shows, now) == UpcomingOf(front, now);
      } else {
        assert PastOf(shows, now) == PastOf(front, now);
        assert UpcomingOf(shows, now) == UpcomingOf(front, now) + [last];
      }
    }
  }

  /** So the two counts add up to the number of shows. */
  lemma PartitionCounts(shows: seq<Show>, now: int)
    ensures |PastOf(shows, now)| + |UpcomingOf(shows, now)| == |shows|
  {
    PartitionIsExact(shows, now);
    assert |multiset(PastOf(shows, now))| + |multiset(UpcomingOf(shows, now))| == |multiset(shows)|;
  }

  /** `a` is `b` with some elements left out, the rest in the same order. */
  predicate Subsequence(a: seq<Show>, b: seq<Show>)
    decreases |b|
  {
    if a == [] then true
    else if b == [] then false
    else if a[|a| - 1] == b[|b| - 1] then Subsequence(a[..|a| - 1], b[..|b| - 1])
    else Subsequence(a, b[..|b| - 1])
  }

  /** Each of the two lists keeps the query order of the shows. */
  lemma {:induction false} PartitionKeepsOrder(shows: seq<Show>, now: int)
    ensures Subsequence(PastOf(shows, now), shows)
    ensures Subsequence(UpcomingOf(shows, now), shows)
    decreases |shows|
  {
    if shows != [] {
      var front := shows[..|shows| - 1];
      PartitionKeepsOrder(front, now);
      var past, upcoming := PastOf(shows, now), UpcomingOf(shows, now);
      if now > shows[|shows| - 1].startTime {
        assert past[..|past| - 1] == PastOf(front, now);
        assert upcoming == UpcomingOf(front, now);
      } else {
        assert upcoming[..|upcoming| - 1] == UpcomingOf(front, now);
        assert past == PastOf(front, now);
      }
    }
  }

  /** The loop of show_venue/show_artist: append each show to the past or to the upcoming list. */
  method PartitionShows(shows: seq<Show>, now: int) returns (past: seq<Show>, upcoming: seq<Show>)
    ensures past == PastOf(shows, now) && upcoming == UpcomingOf(shows, now)
  {
    past, upcoming := [], [];
    for i := 0 to |shows|
      invariant past == PastOf(shows[..i], now)
      invariant upcoming == UpcomingOf(shows[..i], now)
    {
      assert shows[..i + 1][..i] == shows[..i];
      if now > shows[i].startTime {
        past := past + [shows[i]];
      } else {
        upcoming := upcoming + [shows[i]];
      }
    }
    assert shows[..|shows|] == shows;
  }

  /** The show section of a venue's or artist's page. */
  datatype ShowPage = ShowPage(pastShows: seq<Show>, upcomingShows: seq<Show>, pastShowsCount: nat, upcomingShowsCount: nat)

  /** show_venue: the venue's shows split at `now`, with both counts. */
  method ShowVenue(table: seq<Show>, venueId: int, now: int) returns (page: ShowPage)
    ensures page.pastShows == PastOf(ShowsOf(table, OfVenue, venueId), now)
    ensures page.upcomingShows == UpcomingOf(ShowsOf(table, OfVenue, venueId), now)
    ensures page.pastShowsCount == |page.pastShows| && page.upcomingShowsCount == |page.upcomingShows|
    ensures page.pastShowsCount + page.upcomingShowsCount == |ShowsOf(table, OfVenue, venueId)|
  {
    var shows := ShowsOf(table, OfVenue, venueId);
    var past, upcoming := PartitionShows(shows, now);
    PartitionCounts(shows, now);
    page := ShowPage(past, upcoming, |past|, |upcoming|);
  }

  /** show_artist: the same split over the artist's shows. */
  method ShowArtist(table: seq<Show>, artistId: int, now: int) returns (page: ShowPage)
    ensures page.pastShows == PastOf(ShowsOf(table, OfArtist, artistId), now)
    ensures page.upcomingShows == UpcomingOf(ShowsOf(table, OfArtist, artistId), now)
    ensures page.pastShowsCount == |page.pastShows| && page.upcomingShowsCount == |page.upcomingShows|
    ensures page.pastShowsCount + page.upcomingShowsCount == |ShowsOf(table, OfArtist, artistId)|
  {
    var shows := ShowsOf(table, OfArtist, artistId);
    var past, upcoming := PartitionShows(shows, now);
    PartitionCounts(shows, now);
    page := ShowPage(past, upcoming, |past|, |upcoming|);
  }

  // ---------------------------------------------------------------------
  // Upcoming counts (venues, search_venues, search_artists)
  // ---------------------------------------------------------------------

  /** The listings' count of upcoming shows: the strict test `now < start_time`. */
  function StrictlyUpcoming(shows: seq<Show>, now: int): (n: nat)
    ensures n <= |UpcomingOf(shows, now)| <= |shows|
    decreases |shows|
  {
    if shows == [] then 0
    else
      var last := shows[|shows| - 1];
      StrictlyUpcoming(shows[..|shows| - 1], now) + (if now < last.startTime then 1 else 0)
  }

  /**
   * The two notions of "upcoming" agree exactly when no show starts at
   * `now`: show_venue files such a show as upcoming, venues() does not
   * count it.
   */
  lemma {:induction false} UpcomingNotionsAgree(shows: seq<Show>, now: int)
    ensures StrictlyUpcoming(shows, now) == |UpcomingOf(shows, now)| <==>
            forall i :: 0 <= i < |shows| ==> shows[i].startTime != now
    decreases |shows|
  {
    if shows != [] {
      var front := shows[..|shows| - 1];
      UpcomingNotionsAgree(front, now);
      assert forall i :: 0 <= i < |front| ==> front[i] == shows[i];
    }
  }

  /** A single show starting exactly at `now`. */
  lemma BoundaryShow(s: Show, now: int)
    requires s.startTime == now
    ensures UpcomingOf([s], now) == [s] && PastOf([s], now) == []
    ensures StrictlyUpcoming([s], now) == 0
  {
    assert [s][..0] == [];
  }

  /** The inner loop of venues(): collect the ids of the shows with `now < start_time` and count them. */
  method NumUpcomingShows(table: seq<Show>, side: Side, id: int, now: int) returns (n: nat)
    ensures n == StrictlyUpcoming(ShowsOf(table, side, id), now)
    ensures n <= |ShowsOf(table, side, id)|
  {
    var shows := ShowsOf(table, side, id);
    var upcomingShows: seq<int> := [];
    for i := 0 to |shows|
      invariant |upcomingShows| == StrictlyUpcoming(shows[..i], now)
    {
      assert shows[..i + 1][..i] == shows[..i];
      if now < shows[i].startTime {
        upcomingShows := upcomingShows + [shows[i].id];
      }
    }
    assert shows[..|shows|] == shows;
    n := |upcomingShows|;
  }

  /** One line of a listing: id, name and number of upcoming shows. */
  datatype Summary = Summary(id: int, name: string, numUpcomingShows: nat)

  function SummaryOf(id: int, name: string, table: seq<Show>, side: Side, now: int): Summary
  {
    Summary(id, name, StrictlyUpcoming(ShowsOf(table, side, id), now))
  }

  // ---------------------------------------------------------------------
  // venues(): venues grouped by city
  // ---------------------------------------------------------------------

  predicate HasCity(venues: seq<Venue>, city: string)
  {
    exists i :: 0 <= i < |venues| && venues[i].city == city
  }

  /** One venue per distinct city (the first one), in order of first appearance. */
  function CityRepresentatives(venues: seq<Venue>): (r: seq<Venue>)
    ensures forall i :: 0 <= i < |r| ==> r[i] in venues
    decreases |venues|
  {
    if venues == [] then []
    else
      var front := venues[..|venues| - 1];
      var last := venues[|venues| - 1];
      CityRepresentatives(front) + (if HasCity(front, last.city) then [] else [last])
  }

  /** Representatives have pairwise distinct cities. */
  lemma {:induction false} RepresentativesDistinct(venues: seq<Venue>)
    ensures forall i, j :: 0 <= i < j < |CityRepresentatives(venues)| ==>
              CityRepresentatives(venues)[i].city != CityRepresentatives(venues)[j].city
    decreases |venues|
  {
    if venues != [] {
      var front := venues[..|venues| - 1];
      var last := venues[|venues| - 1];
      RepresentativesDistinct(front);
      var r0 := CityRepresentatives(front);
      assert forall i, j :: 0 <= i < j < |r0| ==> r0[i].city != r0[j].city;
      if !HasCity(front, last.city) {
        var reps := CityRepresentatives(venues);
        assert reps == r0 + [last];
        forall i | 0 <= i < |r0| ensures r0[i].city != last.city {
          var j :| 0 <= j < |front| && front[j] == r0[i];
        }
        forall i, j | 0 <= i < j < |reps| ensures reps[i].city != reps[j].city {
          if j == |r0| {
            assert reps[i] == r0[i] && reps[j] == last;
          } else {
            assert reps[i] == r0[i] && reps[j] == r0[j];
          }
        }
      } else {
        assert CityRepresentatives(venues) == r0;
      }
    }
  }

  /** A city present in a list stays present when more venues follow. */
  lemma HasCityGrows(a: seq<Venue>, b: seq<Venue>, city: string)
    requires HasCity(a, city)
    ensures HasCity(a + b, city)
  {
    var k :| 0 <= k < |a| && a[k].city == city;
    assert (a + b)[k] == a[k];
  }

  /** Every venue's city has a representative. */
  lemma {:induction false} RepresentativesCover(venues: seq<Venue>)
    ensures forall i :: 0 <= i < |venues| ==> HasCity(CityRepresentatives(venues), venues[i].city)
    decreases |venues|
  {
    if venues != [] {
      var front := venues[..|venues| - 1];
      var last := venues[|venues| - 1];
      RepresentativesCover(front);
      var r0 := CityRepresentatives(front);
      var extra := if HasCity(front, last.city) then [] else [last];
      assert CityRepresentatives(venues) == r0 + extra;
      forall i | 0 <= i < |venues| ensures HasCity(r0 + extra, venues[i].city) {
        var c := venues[i].city;
        if i < |front| {
          assert front[i] == venues[i];
          HasCityGrows(r0, extra, c);
        } else if HasCity(front, c) {
          var j :| 0 <= j < |front| && front[j].city == c;
          HasCityGrows(r0, extra, c);
        } else {
          assert (r0 + extra)[|r0|] == last;
        }
      }
    }
  }

  /** `Venue.query.filter(Venue.city == city)`, in table order. */
  function VenuesInCity(venues: seq<Venue>, city: string): (r: seq<Venue>)
    ensures forall v :: v in r <==> v in venues && v.city == city
    decreases |venues|
  {
    if venues == [] then []
    else
      var last := venues[|venues| - 1];
      VenuesInCity(venues[..|venues| - 1], city) + (if last.city == city then [last] else [])
  }

  /** The listing lines of some venues, in order. */
  function VenueSummaries(venues: seq<Venue>, table: seq<Show>, now: int): (r: seq<Summary>)
    ensures |r| == |venues|
    ensures forall i :: 0 <= i < |venues| ==> r[i] == SummaryOf(venues[i].id, venues[i].name, table, OfVenue, now)
  {
    seq(|venues|, i requires 0 <= i < |venues| => SummaryOf(venues[i].id, venues[i].name, table, OfVenue, now))
  }

  /** The lines of a longer prefix are those of the shorter one plus the next venue's line. */
  lemma SummariesExtend(venues: seq<Venue>, i: int, table: seq<Show>, now: int)
    requires 0 <= i < |venues|
    ensures VenueSummaries(venues[..i + 1], table, now) ==
            VenueSummaries(venues[..i], table, now) + [SummaryOf(venues[i].id, venues[i].name, table, OfVenue, now)]
  {
  }

  datatype Area = Area(city: string, state: string, venues: seq<Summary>)

  /** The area headed by one representative venue: its city, its state and the lines of that city's venues. */
  function AreaOf(rep: Venue, venues: seq<Venue>, table: seq<Show>, now: int): Area
  {
    Area(rep.city, rep.state, VenueSummaries(VenuesInCity(venues, rep.city), table, now))
  }

  /** The middle loop of venues(): the lines of one city's venues. */
  method CityVenues(venues: seq<Venue>, city: string, table: seq<Show>, now: int) returns (lines: seq<Summary>)
    ensures lines == VenueSummaries(VenuesInCity(venues, city), table, now)
  {
    var inCity := VenuesInCity(venues, city);
    lines := [];
    for i := 0 to |inCity|
      invariant lines == VenueSummaries(inCity[..i], table, now)
    {
      var n := NumUpcomingShows(table, OfVenue, inCity[i].id, now);
      SummariesExtend(inCity, i, table, now);
      lines := lines + [Summary(inCity[i].id, inCity[i].name, n)];
    }
    assert inCity[..|inCity|] == inCity;
  }

  /** The body of the outer loop of venues(): the city and state of one representative, then its city's lines. */
  method CityArea(venues: seq<Venue>, rep: Venue, table: seq<Show>, now: int) returns (area: Area)
    ensures area == AreaOf(rep, venues, table, now)
  {
    var lines := CityVenues(venues, rep.city, table, now);
    area := Area(rep.city, rep.state, lines);
  }

  /** One area per representative, in order. */
  function Areas(reps: seq<Venue>, venues: seq<Venue>, table: seq<Show>, now: int): (r: seq<Area>)
    ensures |r| == |reps|
    ensures forall i :: 0 <= i < |reps| ==> r[i] == AreaOf(reps[i], venues, table, now)
  {
    seq(|reps|, i requires 0 <= i < |reps| => AreaOf(reps[i], venues, table, now))
  }

  /** The areas of a longer prefix are those of the shorter one plus the next representative's area. */
  lemma AreasExtend(reps: seq<Venue>, i: int, venues: seq<Venue>, table: seq<Show>, now: int)
    requires 0 <= i < |reps|
    ensures Areas(reps[..i + 1], venues, table, now) == Areas(reps[..i], venues, table, now) + [AreaOf(reps[i], venues, table, now)]
  {
  }

  /** venues(): one area per distinct city, each listing that city's venues with their upcoming counts. */
  method Venues(venues: seq<Venue>, table: seq<Show>, now: int) returns (areas: seq<Area>)
    ensures areas == Areas(CityRepresentatives(venues), venues, table, now)
  {
    var reps := CityRepresentatives(venues);
    areas := [];
    for i := 0 to |reps|
      invariant areas == Areas(reps[..i], venues, table, now)
    {
      var area := CityArea(venues, reps[i], table, now);
      AreasExtend(reps, i, venues, table, now);
      areas := areas + [area];
    }
    assert reps[..|reps|] == reps;
  }

  /** A venue's own line is among the lines of its city. */
  lemma LineInOwnCity(venues: seq<Venue>, v: Venue, table: seq<Show>, now: int)
    requires v in venues
    ensures SummaryOf(v.id, v.name, table, OfVenue, now) in VenueSummaries(VenuesInCity(venues, v.city), table, now)
  {
    var inCity := VenuesInCity(venues, v.city);
    assert v in inCity;
    var j :| 0 <= j < |inCity| && inCity[j] == v;
    assert VenueSummaries(inCity, table, now)[j] == SummaryOf(v.id, v.name, table, OfVenue, now);
  }

  /** Area i is headed by representative i: same city. */
  lemma AreaCities(venues: seq<Venue>, table: seq<Show>, now: int, areas: seq<Area>)
    requires areas == Areas(CityRepresentatives(venues), venues, table, now)
    ensures |areas| == |CityRepresentatives(venues)|
    ensures forall i :: 0 <= i < |areas| ==> areas[i].city == CityRepresentatives(venues)[i].city
  {
  }

  /** No two areas have the same city. */
  lemma AreasDistinct(venues: seq<Venue>, table: seq<Show>, now: int, areas: seq<Area>)
    requires areas == Areas(CityRepresentatives(venues), venues, table, now)
    ensures forall i, j :: 0 <= i < j < |areas| ==> areas[i].city != areas[j].city
  {
    RepresentativesDistinct(venues);
    AreaCities(venues, table, now, areas);
  }

  /** Every venue's city has an area. */
  lemma VenueHasArea(venues: seq<Venue>, table: seq<Show>, now: int, areas: seq<Area>, v: Venue)
    requires areas == Areas(CityRepresentatives(venues), venues, table, now)
    requires v in venues
    ensures exists i :: 0 <= i < |areas| && areas[i].city == v.city
  {
    var reps := CityRepresentatives(venues);
    RepresentativesCover(venues);
    AreaCities(venues, table, now, areas);
    var n :| 0 <= n < |venues| && venues[n] == v;
    assert HasCity(reps, venues[n].city);
    var k :| 0 <= k < |reps| && reps[k].city == v.city;
    assert areas[k].city == v.city;
  }

  /** The area of a venue's city lists that venue's line. */
  lemma AreaListsVenue(venues: seq<Venue>, table: seq<Show>, now: int, areas: seq<Area>, v: Venue)
    requires areas == Areas(CityRepresentatives(venues), venues, table, now)
    requires v in venues
    ensures forall i :: 0 <= i < |areas| && areas[i].city == v.city ==>
              SummaryOf(v.id, v.name, table, OfVenue, now) in areas[i].venues
  {
    var reps := CityRepresentatives(venues);
    LineInOwnCity(venues, v, table, now);
    forall i | 0 <= i < |areas| && areas[i].city == v.city
      ensures SummaryOf(v.id, v.name, table, OfVenue, now) in areas[i].venues
    {
      assert areas[i] == AreaOf(reps[i], venues, table, now);
    }
  }

  /** Venue ids are unique (the table's primary key). */
  ghost predicate UniqueVenueIds(venues: seq<Venue>)
  {
    forall i, j :: 0 <= i < j < |venues| ==> venues[i].id != venues[j].id
  }

  /** With unique ids, a venue's line is not among the lines of another city. */
  lemma LineNotInOtherCity(venues: seq<Venue>, v: Venue, city: string, table: seq<Show>, now: int)
    requires UniqueVenueIds(venues) && v in venues && city != v.city
    ensures SummaryOf(v.id, v.name, table, OfVenue, now) !in VenueSummaries(VenuesInCity(venues, city), table, now)
  {
  }

  /** No area of another city lists the venue's line, when venue ids are unique. */
  lemma AreasOfOtherCitiesOmitVenue(venues: seq<Venue>, table: seq<Show>, now: int, areas: seq<Area>, v: Venue)
    requires areas == Areas(CityRepresentatives(venues), venues, table, now)
    requires UniqueVenueIds(venues) && v in venues
    ensures forall i :: 0 <= i < |areas| && areas[i].city != v.city ==>
              SummaryOf(v.id, v.name, table, OfVenue, now) !in areas[i].venues
  {
    var reps := CityRepresentatives(venues);
    forall i | 0 <= i < |areas| && areas[i].city != v.city
      ensures SummaryOf(v.id, v.name, table, OfVenue, now) !in areas[i].venues
    {
      assert areas[i] == AreaOf(reps[i], venues, table, now);
      LineNotInOtherCity(venues, v, reps[i].city, table, now);
    }
  }

  /**
   * Every venue is listed in exactly one area: exactly one area carries
   * its city, that area lists its line, and (ids being unique) no other
   * area does.
   */
  lemma VenueListedOnce(venues: seq<Venue>, table: seq<Show>, now: int, areas: seq<Area>, v: Venue)
    requires areas == Areas(CityRepresentatives(venues), venues, table, now)
    requires v in venues
    ensures exists i :: 0 <= i < |areas| && areas[i].city == v.city
    ensures forall i, j :: 0 <= i < |areas| && 0 <= j < |areas| && areas[i].city == v.city && areas[j].city == v.city ==> i == j
    ensures forall i :: 0 <= i < |areas| && areas[i].city == v.city ==>
              SummaryOf(v.id, v.name, table, OfVenue, now) in areas[i].venues
    ensures UniqueVenueIds(venues) ==>
              forall i :: 0 <= i < |areas| && areas[i].city != v.city ==>
                SummaryOf(v.id, v.name, table, OfVenue, now) !in areas[i].venues
  {
    VenueHasArea(venues, table, now, areas, v);
    AreasDistinct(venues, table, now, areas);
    AreaListsVenue(venues, table, now, areas, v);
    if UniqueVenueIds(venues) {
      AreasOfOtherCitiesOmitVenue(venues, table, now, areas, v);
    }
  }

  // ---------------------------------------------------------------------
  // Searches
  // ---------------------------------------------------------------------

  /** The search result page: the count and one line per match. */
  datatype SearchResult = SearchResult(count: nat, data: seq<Summary>)

  /** Venues whose name the search term matches (the database's ilike), in table order. */
  function VenuesNamed(venues: seq<Venue>, matches: string -> bool): (r: seq<Venue>)
    ensures forall v :: v in r <==> v in venues && matches(v.name)
    decreases |venues|
  {
    if venues == [] then []
    else
      var last := venues[|venues| - 1];
      VenuesNamed(venues[..|venues| - 1], matches) + (if matches(last.name) then [last] else [])
  }

  /** Artists whose name the search term matches, in table order. */
  function ArtistsNamed(artists: seq<Artist>, matches: string -> bool): (r: seq<Artist>)
    ensures forall a :: a in r <==> a in artists && matches(a.name)
    decreases |artists|
  {
    if artists == [] then []
    else
      var last := artists[|artists| - 1];
      ArtistsNamed(artists[..|artists| - 1], matches) + (if matches(last.name) then [last] else [])
  }

  /** search_venues: the count of matches and, per match in order, its line. */
  method SearchVenues(venues: seq<Venue>, table: seq<Show>, matches: string -> bool, now: int) returns (res: SearchResult)
    ensures res.count == |res.data|
    ensures var found := VenuesNamed(venues, matches);
            && |res.data| == |found|
            && forall i :: 0 <= i < |found| ==> res.data[i] == SummaryOf(found[i].id, found[i].name, table, OfVenue, now)
  {
    var suggestions := VenuesNamed(venues, matches);
    var count := |suggestions|;
    var data: seq<Summary> := [];
    for i := 0 to |suggestions|
      invariant |data| == i
      invariant forall k :: 0 <= k < i ==> data[k] == SummaryOf(suggestions[k].id, suggestions[k].name, table, OfVenue, now)
    {
      var shows := ShowsOf(table, OfVenue, suggestions[i].id);
      data := data + [Summary(suggestions[i].id, suggestions[i].name, StrictlyUpcoming(shows, now))];
    }
    res := SearchResult(count, data);
  }

  /** search_artists: the count of matches and, per match in order, its line. */
  method SearchArtists(artists: seq<Artist>, table: seq<Show>, matches: string -> bool, now: int) returns (res: SearchResult)
    ensures res.count == |res.data|
    ensures var found := ArtistsNamed(artists, matches);
            && |res.data| == |found|
            && forall i :: 0 <= i < |found| ==> res.data[i] == SummaryOf(found[i].id, found[i].name, table, OfArtist, now)
  {
    var suggestions := ArtistsNamed(artists, matches);
    var count := |suggestions|;
    var data: seq<Summary> := [];
    for i := 0 to |suggestions|
      invariant |data| == i
      invariant forall k :: 0 <= k < i ==> data[k] == SummaryOf(suggestions[k].id, suggestions[k].name, table, OfArtist, now)
    {
      var shows := ShowsOf(table, OfArtist, suggestions[i].id);
      data := data + [Summary(suggestions[i].id, suggestions[i].name, StrictlyUpcoming(shows, now))];
    }
    res := SearchResult(count, data);
  }

  // ---------------------------------------------------------------------
  // shows(): every show with its venue's and artist's names
  // ---------------------------------------------------------------------

  /** `Model.query.filter_by(id=id).first()`: the first row with the id, in table order. */
  function FirstWithId<T(==)>(rows: seq<T>, idOf: T -> int, id: int): (r: Option<T>)
    ensures r.None? <==> forall i :: 0 <= i < |rows| ==> idOf(rows[i]) != id
    ensures r.Some? ==> exists k :: && 0 <= k < |rows| && rows[k] == r.value && idOf(r.value) == id
                                    && forall i :: 0 <= i < k ==> idOf(rows[i]) != id
    decreases |rows|
  {
    if rows == [] then None
    else if idOf(rows[0]) == id then Some(rows[0])
    else FirstWithId(rows[1..], idOf, id)
  }

  function VenueId(v: Venue): int { v.id }

  function ArtistId(a: Artist): int { a.id }

  datatype ShowListing = ShowListing(venueId: int, artistId: int, startTime: int,
                                     venueName: string, artistName: string, artistImageLink: string)

  /** The show's line, when its venue and artist can be looked up. */
  function ListingOf(s: Show, venues: seq<Venue>, artists: seq<Artist>): Option<ShowListing>
  {
    match (FirstWithId(venues, VenueId, s.venueId), FirstWithId(artists, ArtistId, s.artistId))
    case (Some(v), Some(a)) => Some(ShowListing(s.venueId, s.artistId, s.startTime, v.name, a.name, a.imageLink))
    case _ => None
  }

  /**
   * shows(): one line per show, in query order. A show whose venue or
   * artist is missing makes the attribute access on None raise, which
   * ends the request (None here).
   */
  method Shows(table: seq<Show>, venues: seq<Venue>, artists: seq<Artist>) returns (r: Option<seq<ShowListing>>)
    ensures r.None? <==> exists i :: 0 <= i < |table| && ListingOf(table[i], venues, artists).None?
    ensures r.Some? ==>
              && |r.value| == |table|
              && forall i :: 0 <= i < |table| ==> Some(r.value[i]) == ListingOf(table[i], venues, artists)
  {
    var data: seq<ShowListing> := [];
    for i := 0 to |table|
      invariant |data| == i
      invariant forall k :: 0 <= k < i ==> Some(data[k]) == ListingOf(table[k], venues, artists)
    {
      var show := table[i];
      var venue := FirstWithId(venues, VenueId, show.venueId);
      if venue.None? {
        return None;
      }
      var artist := FirstWithId(artists, ArtistId, show.artistId);
      if artist.None? {
        return None;
      }
      data := data + [ShowListing(show.venueId, show.artistId, show.startTime, venue.value.name,
                                  artist.value.name, artist.value.imageLink)];
    }
    r := Some(data);
  }
}
