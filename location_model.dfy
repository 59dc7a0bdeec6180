/**
 * models/Location.js: the location schema (setters, defaults, required
 * fields), the `pre("save")` slug hook, and the `getTagsList` static.
 */
module LocationModel {
  import opened Wrappers
  import opened Seqs
  import opened Text
  import opened Slugs
  import opened TagList
  import opened Uploads

  /** The GeoJSON part of a stored location, `location: {type, coordinates, address}`. */
  datatype Place = Place(kind: string, coordinates: seq<real>, address: string)

  /** A location as stored in the collection. */
  datatype Location = Location(
    id: string,
    name: string,
    slug: string,
    description: Option<string>,
    tags: seq<string>,
    created: int,
    location: Place,
    photo: Option<string>,
    author: string)

  /** The schema's `required` failures, each with the message the schema declares. */
  datatype ValidationError = NameMissing | CoordinatesMissing | AddressMissing | AuthorMissing {
    function Message(): string {
      match this
      case NameMissing => "Please enter a location name!"
      case CoordinatesMissing => "You must supply coordinates!"
      case AddressMissing => "You must supply an address!"
      case AuthorMissing => "You must supply an author"
    }
  }

  /** A required string is missing when it is absent or empty. */
  predicate MissingString(v: Option<string>) {
    v.None? || v.value == ""
  }

  /**
   * The `required` validators: `name`, every element of `coordinates`,
   * `address` and `author`.  `required` sits on the array's elements, so an
   * empty coordinates array has nothing to reject.
   */
  function ValidationErrors(name: Option<string>, coordinates: seq<Option<real>>,
                            address: Option<string>, author: Option<string>): set<ValidationError>
  {
    (if MissingString(name) then {NameMissing} else {}) +
    (if exists i :: 0 <= i < |coordinates| && coordinates[i].None? then {CoordinatesMissing} else {}) +
    (if MissingString(address) then {AddressMissing} else {}) +
    (if author.None? then {AuthorMissing} else {})
  }

  /**
   * A document is valid exactly when every required field is present: the
   * errors are empty iff the name and address are non-empty, every coordinate
   * is given and there is an author.
   */
  lemma ValidationErrorsEmptyIff(name: Option<string>, coordinates: seq<Option<real>>,
                                 address: Option<string>, author: Option<string>)
    ensures ValidationErrors(name, coordinates, address, author) == {} <==>
            && name.Some? && name.value != ""
            && (forall i :: 0 <= i < |coordinates| ==> coordinates[i].Some?)
            && address.Some? && address.value != ""
            && author.Some?
  {
    var e := ValidationErrors(name, coordinates, address, author);
    if MissingString(name) { assert NameMissing in e; }
    if MissingString(address) { assert AddressMissing in e; }
    if author.None? { assert AuthorMissing in e; }
    if exists i :: 0 <= i < |coordinates| && coordinates[i].None? { assert CoordinatesMissing in e; }
  }

  /** The setter runs before the validator: a name of only white space is reported as missing. */
  lemma BlankNameRejected(raw: string, coordinates: seq<Option<real>>,
                          address: Option<string>, author: Option<string>)
    ensures NameMissing in ValidationErrors(Trimmed(Some(raw)), coordinates, address, author) <==>
            forall k :: 0 <= k < |raw| ==> IsSpace(raw[k])
  {
    TrimEmptyIffBlank(raw);
  }

  /** Every element of a coordinates array holds a number. */
  predicate AllGiven(cs: seq<Option<real>>) {
    forall i :: 0 <= i < |cs| ==> cs[i].Some?
  }

  /**
   * What the `2dsphere` index on `location` accepts: a GeoJSON point, whose
   * position is two or more numbers, longitude first (section 3.1.1 of
   * RFC 7946), with the longitude within [-180, 180] and the latitude within
   * [-90, 90].
   */
  predicate IsIndexablePoint(kind: string, coordinates: seq<real>) {
    && kind == "Point" && |coordinates| >= 2
    && -180.0 <= coordinates[0] <= 180.0
    && -90.0 <= coordinates[1] <= 90.0
  }

  /** A `location` object with these fields can be stored under the `2dsphere` index. */
  predicate IndexablePlace(kind: string, cs: seq<Option<real>>) {
    AllGiven(cs) && IsIndexablePoint(kind, Values(cs))
  }

  /**
   * `required` sits on the elements of `coordinates`, so a location without
   * any coordinates passes validation; the index still refuses it, as it
   * refuses a single number or a latitude past a pole.
   */
  lemma ValidButNotIndexable(name: string, address: string, author: string)
    requires Trim(name) != [] && address != ""
    ensures ValidationErrors(Some(Trim(name)), [], Some(address), Some(author)) == {}
    ensures !IndexablePlace("Point", []) && !IndexablePlace("Point", [Some(139.7)])
    ensures !IndexablePlace("Point", [Some(139.7), Some(95.0)]) && IndexablePlace("Point", [Some(139.7), Some(35.6)])
  {
    ValidationErrorsEmptyIff(Some(Trim(name)), [], Some(address), Some(author));
    assert Values([Some(139.7), Some(35.6)]) == [139.7, 35.6];
    assert Values([Some(139.7), Some(95.0)]) == [139.7, 95.0];
  }

  /** Why `save()` fails: the validators' errors, or the index refusing the insert. */
  datatype SaveError = Invalid(errors: set<ValidationError>) | NotAPoint

  /**
   * A location document in memory, built from `req.body`: the setters have
   * run, the defaults are filled in, and `slug` is unset until the hook runs.
   */
  class LocationDocument {
    var name: Option<string>
    var slug: Option<string>
    var description: Option<string>
    var tags: seq<string>
    var created: int
    var locationType: string
    var coordinates: seq<Option<real>>
    var address: Option<string>
    var photo: Option<string>
    var author: Option<string>
    /** `isModified("name")`. */
    var nameModified: bool

    /** `name` counts as modified only when it holds a value. */
    ghost predicate Valid()
      reads this
    {
      nameModified ==> name.Some?
    }

    /** `new Location(req.body)`: trims `name` and `description`, defaults `tags`, `created` and `location.type`. */
    constructor (body: RequestBody, now: int)
      ensures Valid()
      ensures name == Trimmed(body.name) && description == Trimmed(body.description)
      ensures slug == None
      ensures tags == body.tags.GetOr([]) && created == now
      ensures locationType == body.locationType.GetOr("Point")
      ensures coordinates == body.coordinates.GetOr([]) && address == body.address
      ensures photo == body.photo && author == body.author
      ensures nameModified == body.name.Some?
      ensures Errors() == ValidationErrors(Trimmed(body.name), body.coordinates.GetOr([]), body.address, body.author)
    {
      name := Trimmed(body.name);
      slug := None;
      description := Trimmed(body.description);
      tags := body.tags.GetOr([]);
      created := now;
      locationType := body.locationType.GetOr("Point");
      coordinates := body.coordinates.GetOr([]);
      address := body.address;
      photo := body.photo;
      author := body.author;
      nameModified := body.name.Some?;
    }

    /** `validate()`: the required-field failures of this document. */
    function Errors(): set<ValidationError>
      reads this
    {
      ValidationErrors(name, coordinates, address, author)
    }

    /** Whether the `2dsphere` index accepts this document's `location`. */
    predicate Indexable()
      reads this
    {
      IndexablePlace(locationType, coordinates)
    }

    /**
     * The `pre("save")` hook.  Without a change of name the slug is left as
     * it is; otherwise it becomes the de-duplicated slug of the name against
     * the stored slugs `existing`.
     */
    method PreSave(existing: seq<string>, slugify: string -> string)
      requires Valid()
      modifies this`slug
      ensures Valid()
      ensures !nameModified ==> slug == old(slug)
      ensures nameModified ==> slug == Some(UniqueSlug(slugify(name.value), existing))
    {
      if !nameModified {
        return;
      }
      var base := slugify(name.value);
      slug := Some(base);
      var n := MatchCount(base, existing);
      if n > 0 {
        slug := Some(base + "-" + Decimal(n + 1));
      }
    }

    /** The stored form of a valid, slugged document under the id the store assigns. */
    function Stored(id: string): (loc: Location)
      reads this
      requires Errors() == {} && slug.Some?
    {
      ValidationErrorsEmptyIff(name, coordinates, address, author);
      Location(id, name.value, slug.value, description, tags, created,
               Place(locationType, Values(coordinates), address.value),
               photo, author.value)
    }

    /**
     * `save()` on a new document, whose `name` counts as modified whenever it
     * was given: validation first, then the slug hook, then the insert, which
     * the `2dsphere` index refuses when `location` is not a point it accepts.
     * `existing` is the collection before the insert.
     */
    method Save(id: string, existing: seq<Location>, slugify: string -> string)
      returns (r: Result<Location, SaveError>)
      requires Valid() && (nameModified <==> name.Some?)
      modifies this`slug
      ensures Valid()
      ensures r.Failure? <==> Errors() != {} || !Indexable()
      ensures Errors() != {} ==> r == Failure(Invalid(Errors())) && slug == old(slug)
      ensures Errors() == {} && !Indexable() ==> r == Failure(NotAPoint) && slug.Some?
      ensures r.Success? ==> slug.Some? && r.value == Stored(id)
      ensures r.Success? ==> && r.value.id == id && Some(r.value.name) == name && Some(r.value.author) == author
                             && r.value.created == created && r.value.location.kind == locationType
      ensures r.Success? ==> r.value.slug == UniqueSlug(slugify(r.value.name), SlugsOf(existing))
    {
      var errors := Errors();
      if errors != {} {
        return Failure(Invalid(errors));
      }
      PreSave(SlugsOf(existing), slugify);
      if !Indexable() {
        return Failure(NotAPoint);
      }
      r := Success(Stored(id));
    }
  }

  /** The numbers of a coordinates array whose every element is given. */
  function Values(cs: seq<Option<real>>): (vs: seq<real>)
    requires AllGiven(cs)
    ensures |vs| == |cs| && forall i :: 0 <= i < |cs| ==> cs[i] == Some(vs[i])
  {
    seq(|cs|, i requires 0 <= i < |cs| => cs[i].value)
  }

  /** The `slug` values of the stored locations, which the hook's query searches. */
  function SlugsOf(docs: seq<Location>): seq<string> {
    Map(docs, (d: Location) => d.slug)
  }

  /** The `tags` arrays of the stored locations, in collection order. */
  function TagArrays(docs: seq<Location>): seq<seq<string>> {
    Map(docs, (d: Location) => d.tags)
  }

  /** `Location.getTagsList()`. */
  function GetTagsList(docs: seq<Location>): seq<TagCount> {
    TagsList(TagArrays(docs))
  }

  /** The location tag list meets the pipeline's specification and its counts add up to all tag uses. */
  lemma GetTagsListCorrect(docs: seq<Location>)
    ensures IsTagsList(TagArrays(docs), GetTagsList(docs))
    ensures Seqs.Sum(GetTagsList(docs), CountKeyInt) == TotalTags(TagArrays(docs))
  {
    TagsListCorrect(TagArrays(docs));
    TagsListSum(TagArrays(docs));
  }
}
