/**
 * controllers/locationController.js: creating a location, the owner check
 * of the edit page, the update (which bypasses the slug hook), the lookup by
 * slug, the tag page, the text search and the map query.  The upload filter
 * and the file name of `resize` are the shared ones of module Uploads.
 */
module LocationController {
  import opened Wrappers
  import opened Seqs
  import opened Ranking
  import opened Text
  import opened Slugs
  import opened TagList
  import opened Uploads
  import opened LocationModel

  // ---- createLocation ----

  /**
   * The location `new Location(req.body).save()` stores for a form that
   * passes validation: the trimmed name, its de-duplicated slug, the trimmed
   * description, the tags, the current time, the `location` object with its
   * coordinates as given, the photo and the author.
   */
  function CreatedLocation(body: RequestBody, now: int, id: string,
                           existing: seq<Location>, slugify: string -> string): Location
    reads body
    requires body.name.Some? && body.address.Some? && body.author.Some? && AllGiven(body.coordinates.GetOr([]))
  {
    var name := Trim(body.name.value);
    Location(id, name, UniqueSlug(slugify(name), SlugsOf(existing)), Trimmed(body.description),
             body.tags.GetOr([]), now,
             Place(body.locationType.GetOr("Point"), Values(body.coordinates.GetOr([])), body.address.value),
             body.photo, body.author.value)
  }

  /**
   * `new Location(req.body).save()`: it fails with the validators' errors
   * of the trimmed form, or because the index refuses its `location`;
   * otherwise it stores `CreatedLocation`.
   */
  method SaveNewLocation(body: RequestBody, now: int, id: string,
                         existing: seq<Location>, slugify: string -> string)
    returns (r: Result<Location, SaveError>)
    ensures var errors := ValidationErrors(Trimmed(body.name), body.coordinates.GetOr([]), body.address, body.author);
            && (r.Failure? <==> errors != {} || !IndexablePlace(body.locationType.GetOr("Point"), body.coordinates.GetOr([])))
            && (errors != {} ==> r == Failure(Invalid(errors)))
            && (errors == {} && !IndexablePlace(body.locationType.GetOr("Point"), body.coordinates.GetOr([])) ==>
                  r == Failure(NotAPoint))
    ensures r.Success? ==> && body.name.Some? && body.address.Some? && body.author.Some?
                           && AllGiven(body.coordinates.GetOr([]))
                           && r.value == CreatedLocation(body, now, id, existing, slugify)
  {
    ghost var errors := ValidationErrors(Trimmed(body.name), body.coordinates.GetOr([]), body.address, body.author);
    ghost var indexable := IndexablePlace(body.locationType.GetOr("Point"), body.coordinates.GetOr([]));
    var doc := new LocationDocument(body, now);
    assert doc.Errors() == errors && doc.Indexable() == indexable;
    r := doc.Save(id, existing, slugify);
    if r.Success? {
      ValidationErrorsEmptyIff(doc.name, doc.coordinates, doc.address, doc.author);
      assert r.value == doc.Stored(id);
    } else if errors == {} {
      assert !indexable && r == Failure(NotAPoint);
    } else {
      assert r == Failure(Invalid(errors));
    }
  }

  /**
   * `createLocation`: the author becomes the signed-in user, then the
   * document is built from the form and saved.
   */
  method CreateLocation(body: RequestBody, userId: string, now: int, id: string,
                        existing: seq<Location>, slugify: string -> string)
    returns (r: Result<Location, SaveError>)
    modifies body`author
    ensures body.author == Some(userId)
    ensures var errors := ValidationErrors(Trimmed(body.name), body.coordinates.GetOr([]), body.address, Some(userId));
            && (r.Failure? <==> errors != {} || !IndexablePlace(body.locationType.GetOr("Point"), body.coordinates.GetOr([])))
            && (errors != {} ==> r == Failure(Invalid(errors)) && AuthorMissing !in errors)
            && (errors == {} && !IndexablePlace(body.locationType.GetOr("Point"), body.coordinates.GetOr([])) ==>
                  r == Failure(NotAPoint))
    ensures r.Success? ==> && body.name.Some? && body.address.Some? && AllGiven(body.coordinates.GetOr([]))
                           && r.value == CreatedLocation(body, now, id, existing, slugify)
                           && r.value.author == userId
  {
    body.author := Some(userId);
    r := SaveNewLocation(body, now, id, existing, slugify);
  }

  // ---- editLocation ----

  const NotOwnerMessage := "You must own this store to edit"

  /** `confirmOwner`: the error it throws, or `None` when it returns normally. */
  function ConfirmOwner(location: Location, userId: string): (thrown: Option<string>)
    ensures thrown.Some? <==> location.author != userId
    ensures thrown.Some? ==> thrown.value == NotOwnerMessage
  {
    if location.author != userId then Some(NotOwnerMessage) else None
  }

  datatype EditView = RenderEdit(location: Location) | Forbidden(message: string) | EditCrash

  /** `findOne({_id: id})`. */
  function FindById(docs: seq<Location>, id: string): Option<Location> {
    First(docs, (d: Location) => d.id == id)
  }

  /**
   * `editLocation`: no document with the id makes `confirmOwner` fail on a
   * missing location; otherwise only its author gets the edit page.
   */
  function EditLocation(docs: seq<Location>, id: string, userId: string): (v: EditView) {
    match FindById(docs, id)
    case None => EditCrash
    case Some(loc) =>
      match ConfirmOwner(loc, userId)
      case Some(message) => Forbidden(message)
      case None => RenderEdit(loc)
  }

  /** The edit page is shown only to the author of an existing location with that id. */
  lemma EditLocationOwnerOnly(docs: seq<Location>, id: string, userId: string)
    ensures var v := EditLocation(docs, id, userId);
            && (v.RenderEdit? ==> v.location in docs && v.location.id == id && v.location.author == userId)
            && (v.Forbidden? ==> v.message == NotOwnerMessage)
            && (v.EditCrash? <==> forall i :: 0 <= i < |docs| ==> docs[i].id != id)
  {
  }

  /** Whoever is signed in, the author of the first location with the id gets the edit page. */
  lemma EditLocationAuthorAllowed(docs: seq<Location>, i: int)
    requires 0 <= i < |docs| && forall j :: 0 <= j < i ==> docs[j].id != docs[i].id
    ensures EditLocation(docs, docs[i].id, docs[i].author) == RenderEdit(docs[i])
  {
    var found := FindById(docs, docs[i].id);
    assert found.Some?;
    var k :| 0 <= k < |docs| && docs[k] == found.value && docs[k].id == docs[i].id &&
             forall j :: 0 <= j < k ==> docs[j].id != docs[i].id;
    assert k == i;
  }

  // ---- updateLocation ----

  /** The answer of `updateLocation`: the updated location, a refused update, or a failure reading `null`. */
  datatype UpdateView = Updated(location: Location) | UpdateRefused | UpdateCrash

  /**
   * `findOneAndUpdate(..., req.body)`: the top-level fields of the form
   * replace the stored ones, the `location` object as a whole, its
   * coordinates as given.  No save hook runs, so `id`, `slug` and `created`
   * stay.
   */
  function ApplyUpdate(stored: Location, body: RequestBody): (loc: Location)
    reads body
    requires body.HasLocation() ==> AllGiven(body.coordinates.GetOr([]))
  {
    var place := if body.HasLocation()
      then Place(body.locationType.GetOr("Point"), Values(body.coordinates.GetOr([])), body.address.GetOr(""))
      else stored.location;
    Location(stored.id, body.name.GetOr(stored.name), stored.slug,
             if body.description.Some? then body.description else stored.description,
             body.tags.GetOr(stored.tags), stored.created, place,
             if body.photo.Some? then body.photo else stored.photo,
             body.author.GetOr(stored.author))
  }

  /**
   * `updateLocation`: sets `req.body.location.type` to "Point" (a form
   * without a `location` object makes that assignment throw), then updates
   * the document with the id.  When there is none, reading the result fails;
   * when the new `location` is not a point the `2dsphere` index accepts, the
   * store refuses the update.
   */
  method UpdateLocation(body: RequestBody, docs: seq<Location>, id: string) returns (v: UpdateView)
    modifies body`locationType
    ensures !old(body.HasLocation()) ==> v == UpdateCrash && body.locationType == old(body.locationType)
    ensures old(body.HasLocation()) ==> body.locationType == Some("Point")
    ensures v.UpdateCrash? <==> !old(body.HasLocation()) || FindById(docs, id).None?
    ensures v.UpdateRefused? <==> && old(body.HasLocation()) && FindById(docs, id).Some?
                                  && !IndexablePlace("Point", body.coordinates.GetOr([]))
    ensures v.Updated? ==> IndexablePlace("Point", body.coordinates.GetOr([]))
                           && v.location == ApplyUpdate(FindById(docs, id).value, body)
  {
    if !body.HasLocation() {
      return UpdateCrash;
    }
    body.locationType := Some("Point");
    var found := FindById(docs, id);
    if found.None? {
      return UpdateCrash;
    }
    if !IndexablePlace("Point", body.coordinates.GetOr([])) {
      return UpdateRefused;
    }
    v := Updated(ApplyUpdate(found.value, body));
  }

  /**
   * An update never renames the slug: the slug hook belongs to `save`, so a
   * location keeps the slug of its creation even when its name changes.  The
   * coordinates are written as the form gave them, element for element.
   */
  lemma UpdateKeepsSlug(stored: Location, body: RequestBody)
    requires body.HasLocation() && body.locationType == Some("Point")
    requires AllGiven(body.coordinates.GetOr([]))
    ensures var loc := ApplyUpdate(stored, body);
            loc.id == stored.id && loc.slug == stored.slug && loc.created == stored.created
    ensures ApplyUpdate(stored, body).location.kind == "Point"
    ensures body.name.Some? ==> ApplyUpdate(stored, body).name == body.name.value
    ensures var cs := body.coordinates.GetOr([]);
            var written := ApplyUpdate(stored, body).location.coordinates;
            |written| == |cs| && forall i :: 0 <= i < |cs| ==> cs[i] == Some(written[i])
  {
  }

  /** A form with a coordinate left blank is refused, never stored with that coordinate dropped. */
  lemma UpdateRefusesBlankCoordinate(lng: real)
    ensures !IndexablePlace("Point", [None, Some(lng)])
    ensures !IndexablePlace("Point", [Some(lng), None])
  {
  }

  // ---- getLocationBySlug ----

  datatype SlugView = RenderLocation(location: Location) | NotFound

  /** `getLocationBySlug`: the first location with the slug, or `next()` when there is none. */
  function GetLocationBySlug(docs: seq<Location>, slug: string): (v: SlugView)
    ensures v.NotFound? <==> forall i :: 0 <= i < |docs| ==> docs[i].slug != slug
    ensures v.RenderLocation? ==> v.location in docs && v.location.slug == slug
  {
    match First(docs, (d: Location) => d.slug == slug)
    case Some(d) => RenderLocation(d)
    case None => NotFound
  }

  // ---- getLocationsByTag ----

  /** `getLocationsByTag`: the tag list and the locations the tag filter selects. */
  function LocationsByTag(docs: seq<Location>, param: Option<string>): (seq<TagCount>, seq<Location>) {
    var q := TagQueryFor(param);
    (GetTagsList(docs), Filter(docs, (d: Location) => TagQueryMatches(q, Some(d.tags))))
  }

  /** Without a tag every location is listed: each stored location has a `tags` array, perhaps empty. */
  lemma LocationsByTagAll(docs: seq<Location>, param: Option<string>)
    requires param.None? || param == Some("")
    ensures LocationsByTag(docs, param).1 == docs
  {
    FilterAll(docs, (d: Location) => TagQueryMatches(TagQueryFor(param), Some(d.tags)));
  }

  /** With a tag, exactly the locations carrying it are listed. */
  lemma LocationsByTagExact(docs: seq<Location>, tag: string, d: Location)
    requires tag != ""
    ensures d in LocationsByTag(docs, Some(tag)).1 <==> d in docs && tag in d.tags
  {
    FilterMembers(docs, (d: Location) => TagQueryMatches(TagQueryFor(Some(tag)), Some(d.tags)), d);
  }

  // ---- searchLocations ----

  /**
   * `searchLocations`: the locations the text index matches, best text score
   * first, at most five.  Matching and scoring belong to the store and are
   * parameters.
   */
  function SearchLocations(docs: seq<Location>, matches: Location -> bool, score: Location -> real): seq<Location> {
    Top(Filter(docs, matches), score, 5)
  }

  lemma SearchLocationsCorrect(docs: seq<Location>, matches: Location -> bool, score: Location -> real)
    ensures var r := SearchLocations(docs, matches, score);
            && |r| <= 5
            && |r| == (if Count(docs, matches) < 5 then Count(docs, matches) else 5)
            && (forall d :: d in r ==> d in docs && matches(d))
            && (forall i, j :: 0 <= i < j < |r| ==> score(r[i]) >= score(r[j]))
            && (forall x, y :: x in r && y in multiset(Filter(docs, matches)) - multiset(r) ==> score(x) >= score(y))
  {
    var hits := Filter(docs, matches);
    var r := SearchLocations(docs, matches, score);
    TopIsTopK(hits, score, 5);
    forall d | d in r ensures d in docs && matches(d) {
      assert d in multiset(r);
      assert d in multiset(hits);
      FilterMembers(docs, matches, d);
    }
  }

  // ---- mapLocations ----

  /** `parseFloat` of a query parameter: a number, or NaN. */
  datatype Num = Finite(value: real) | NaN

  /** A GeoJSON Point, whose position lists longitude first and latitude second. */
  datatype GeoPoint = GeoPoint(kind: string, coordinates: seq<Num>)

  /** The `$near` filter with its `.select` fields and `.limit`. */
  datatype NearQuery = NearQuery(geometry: GeoPoint, maxDistance: int, fields: seq<string>, limit: nat)

  const MaxDistance := 10000
  const MapLimit := 10

  /** `mapLocations`: the query for the point `[lng, lat]`. */
  function MapQuery(lng: Num, lat: Num): NearQuery {
    NearQuery(GeoPoint("Point", [lng, lat]), MaxDistance, ["slug", "name", "description", "location", "photo"], MapLimit)
  }

  /** A reader of a position as section 3.1.1 of RFC 7946 orders it: longitude, then latitude. */
  function Longitude(p: GeoPoint): Num
    requires |p.coordinates| >= 2
  {
    p.coordinates[0]
  }

  function Latitude(p: GeoPoint): Num
    requires |p.coordinates| >= 2
  {
    p.coordinates[1]
  }

  /** Read back as a GeoJSON position, the query point gives the requested longitude and latitude. */
  lemma MapQueryPoint(lng: Num, lat: Num)
    ensures var q := MapQuery(lng, lat);
            && q.geometry.kind == "Point" && |q.geometry.coordinates| == 2
            && Longitude(q.geometry) == lng && Latitude(q.geometry) == lat
            && q.maxDistance == 10000 && q.limit == 10
  {
  }

  /** What `.select("slug name description location photo")` keeps; `_id` comes along. */
  datatype MapEntry = MapEntry(id: string, slug: string, name: string, description: Option<string>,
                               location: Place, photo: Option<string>)

  function Select(d: Location): MapEntry {
    MapEntry(d.id, d.slug, d.name, d.description, d.location, d.photo)
  }

  /**
   * The store's spherical distance, in metres, from a query point to a
   * stored `location`.  It belongs to the store and is a parameter.
   */
  type Distance = (GeoPoint, Place) -> real

  /** A stored location's distance from the query's point. */
  function DistanceFrom(q: NearQuery, distance: Distance): Location -> real {
    (d: Location) => distance(q.geometry, d.location)
  }

  /** The `$maxDistance` test of the query. */
  function InRadius(q: NearQuery, distance: Distance): Location -> bool {
    (d: Location) => distance(q.geometry, d.location) <= q.maxDistance as real
  }

  /** The ranking of `$near`: the nearer to the query point, the higher. */
  function Nearness(q: NearQuery, distance: Distance): Location -> real {
    (d: Location) => -distance(q.geometry, d.location)
  }

  /** `find(q).limit(n)` with `$near`: the locations within the radius of the query point, nearest first, at most `n`. */
  function Nearest(q: NearQuery, docs: seq<Location>, distance: Distance): seq<Location> {
    Top(Filter(docs, InRadius(q, distance)), Nearness(q, distance), q.limit)
  }

  /** `$near` accepts the point `[lng, lat]`: both are numbers and in range. */
  predicate QueryablePoint(lng: Num, lat: Num) {
    lng.Finite? && lat.Finite? && IsIndexablePoint("Point", [lng.value, lat.value])
  }

  /** The answer of `mapLocations`: the JSON list, or the error of a refused query. */
  datatype MapView = MapJson(entries: seq<MapEntry>) | QueryRefused

  /**
   * `mapLocations` for the query parameters parsed as `lng` and `lat`: the
   * store refuses a `$near` point that is NaN or out of range; otherwise
   * the answer lists the selected fields of the locations nearest to the
   * point `MapQuery(lng, lat)`, in order.
   */
  function MapLocations(lng: Num, lat: Num, docs: seq<Location>, distance: Distance): (v: MapView)
    ensures v.QueryRefused? <==> !QueryablePoint(lng, lat)
    ensures v.MapJson? ==> var near := Nearest(MapQuery(lng, lat), docs, distance);
                           && |v.entries| == |near|
                           && forall i :: 0 <= i < |v.entries| ==> v.entries[i] == Select(near[i])
  {
    var q := MapQuery(lng, lat);
    if QueryablePoint(lng, lat) then MapJson(Map(Nearest(q, docs, distance), Select)) else QueryRefused
  }

  /** A missing or non-numeric parameter, or a latitude past a pole, fails the request; Tokyo does not. */
  lemma MapLocationsRefusals(docs: seq<Location>, distance: Distance)
    ensures MapLocations(NaN, Finite(35.6), docs, distance).QueryRefused?
    ensures MapLocations(Finite(139.7), NaN, docs, distance).QueryRefused?
    ensures MapLocations(Finite(139.7), Finite(95.0), docs, distance).QueryRefused?
    ensures MapLocations(Finite(139.7), Finite(35.6), docs, distance).MapJson?
  {
  }

  /** A single stored location is listed exactly when it lies within the radius. */
  lemma NearestOfOne(q: NearQuery, d: Location, distance: Distance)
    requires q.limit >= 1
    ensures Nearest(q, [d], distance) == if InRadius(q, distance)(d) then [d] else []
  {
    var inRadius := Filter([d], InRadius(q, distance));
    assert [d][1..] == [];
    assert inRadius == if InRadius(q, distance)(d) then [d] else [];
    TopIsTopK(inRadius, Nearness(q, distance), q.limit);
    var near := Nearest(q, [d], distance);
    if inRadius == [d] {
      assert |near| == 1 && near[0] in multiset(near);
    }
  }

  /** A distance under which every stored location is at `[0, 0]`, 20 km from any other point. */
  function AllAtOrigin(p: GeoPoint, place: Place): real {
    if p.coordinates == [Finite(0.0), Finite(0.0)] then 0.0 else 20000.0
  }

  /**
   * The answer follows the requested point: when the stored location is at
   * `[0, 0]`, a query there lists it and a query in Tokyo does not.
   */
  lemma MapAnswerFollowsPoint(d: Location)
    ensures MapLocations(Finite(0.0), Finite(0.0), [d], AllAtOrigin) == MapJson([Select(d)])
    ensures MapLocations(Finite(139.7), Finite(35.6), [d], AllAtOrigin) == MapJson([])
  {
    var origin := MapQuery(Finite(0.0), Finite(0.0));
    assert QueryablePoint(Finite(0.0), Finite(0.0));
    assert InRadius(origin, AllAtOrigin)(d);
    NearestOfOne(origin, d, AllAtOrigin);
    var listed := Map(Nearest(origin, [d], AllAtOrigin), Select);
    assert listed == [Select(d)];
    var tokyo := MapQuery(Finite(139.7), Finite(35.6));
    assert QueryablePoint(Finite(139.7), Finite(35.6));
    assert tokyo.geometry.coordinates[0] != Finite(0.0);
    assert !InRadius(tokyo, AllAtOrigin)(d);
    NearestOfOne(tokyo, d, AllAtOrigin);
  }

  /**
   * The map answer: at most ten entries, each a stored location within 10 km
   * of the requested point `[lng, lat]`, in order of distance from it, and no
   * location in that radius left out is nearer than one shown.
   */
  lemma MapLocationsCorrect(lng: Num, lat: Num, docs: seq<Location>, distance: Distance)
    ensures var q := MapQuery(lng, lat);
            var near := Nearest(q, docs, distance);
            var inRadius := Filter(docs, InRadius(q, distance));
            && q.geometry == GeoPoint("Point", [lng, lat]) && q.maxDistance == 10000
            && (MapLocations(lng, lat, docs, distance).MapJson? ==> |MapLocations(lng, lat, docs, distance).entries| <= 10)
            && (forall d :: d in near ==> d in docs && distance(q.geometry, d.location) <= 10000 as real)
            && (forall i, j :: 0 <= i < j < |near| ==> distance(q.geometry, near[i].location) <= distance(q.geometry, near[j].location))
            && (forall x, y :: x in near && y in multiset(inRadius) - multiset(near) ==>
                                 distance(q.geometry, x.location) <= distance(q.geometry, y.location))
  {
    var q := MapQuery(lng, lat);
    TopIsTopK(Filter(docs, InRadius(q, distance)), Nearness(q, distance), MapLimit);
    NearestWithinRadius(q, docs, distance);
    NearestAscending(q, docs, distance);
    NearestAreNearest(q, docs, distance);
  }

  /** Every location `$near` returns is stored and within `$maxDistance` of the query point. */
  lemma NearestWithinRadius(q: NearQuery, docs: seq<Location>, distance: Distance)
    ensures forall d :: d in Nearest(q, docs, distance) ==> d in docs && distance(q.geometry, d.location) <= q.maxDistance as real
  {
    var inRadius := Filter(docs, InRadius(q, distance));
    var near := Nearest(q, docs, distance);
    TopIsTopK(inRadius, Nearness(q, distance), q.limit);
    forall d | d in near ensures d in docs && distance(q.geometry, d.location) <= q.maxDistance as real {
      assert d in multiset(near);
      assert d in multiset(inRadius);
      FilterMembers(docs, InRadius(q, distance), d);
    }
  }

  /** `$near` lists its results nearest to the query point first. */
  lemma NearestAscending(q: NearQuery, docs: seq<Location>, distance: Distance)
    ensures var near := Nearest(q, docs, distance);
            forall i, j :: 0 <= i < j < |near| ==> distance(q.geometry, near[i].location) <= distance(q.geometry, near[j].location)
  {
    var near := Nearest(q, docs, distance);
    TopIsTopK(Filter(docs, InRadius(q, distance)), Nearness(q, distance), q.limit);
    forall i, j | 0 <= i < j < |near| ensures distance(q.geometry, near[i].location) <= distance(q.geometry, near[j].location) {
      assert Nearness(q, distance)(near[i]) >= Nearness(q, distance)(near[j]);
    }
  }

  /** No location within the radius that the limit left out is nearer to the query point than one returned. */
  lemma NearestAreNearest(q: NearQuery, docs: seq<Location>, distance: Distance)
    ensures var near := Nearest(q, docs, distance);
            var inRadius := Filter(docs, InRadius(q, distance));
            forall x, y :: x in near && y in multiset(inRadius) - multiset(near) ==>
                             distance(q.geometry, x.location) <= distance(q.geometry, y.location)
  {
    var near := Nearest(q, docs, distance);
    var inRadius := Filter(docs, InRadius(q, distance));
    TopIsTopK(inRadius, Nearness(q, distance), q.limit);
    forall x, y | x in near && y in multiset(inRadius) - multiset(near)
      ensures distance(q.geometry, x.location) <= distance(q.geometry, y.location)
    {
      assert Nearness(q, distance)(x) >= Nearness(q, distance)(y);
    }
  }
}
