/**
 * models/Sake.js: the sake schema, its `pre("save")` slug hook, and the
 * `getTagsList` and `getTopSakes` aggregations.
 */
module SakeModel {
  import opened Wrappers
  import opened Seqs
  import opened Ranking
  import opened Text
  import opened Slugs
  import opened TagList
  import opened Uploads

  /**
   * A sake as stored.  The schema declares no `tags` and no `created`; under
   * the schema's strict mode neither is ever stored.
   */
  datatype Sake = Sake(
    id: string,
    name: string,
    slug: string,
    description: Option<string>,
    mainCategory: Option<string>,
    secondaryCategory: Option<string>,
    photo: Option<string>)

  /** A review as stored in `reviews`: the sake it is about and its rating. */
  datatype Review = Review(sake: string, rating: int)

  const NameRequired := "Please enter a sake name"

  /** A sake document in memory, built from `req.body`. */
  class SakeDocument {
    var name: Option<string>
    var slug: Option<string>
    var description: Option<string>
    var mainCategory: Option<string>
    var secondaryCategory: Option<string>
    var photo: Option<string>
    /** `isModified("name")`. */
    var nameModified: bool

    ghost predicate Valid()
      reads this
    {
      nameModified ==> name.Some?
    }

    /** `new Sake(req.body)`: trims `name` and `description`; fields outside the schema are dropped. */
    constructor (body: RequestBody)
      ensures Valid()
      ensures name == Trimmed(body.name) && description == Trimmed(body.description)
      ensures slug == None
      ensures mainCategory == body.mainCategory && secondaryCategory == body.secondaryCategory
      ensures photo == body.photo
      ensures nameModified == body.name.Some?
    {
      name := Trimmed(body.name);
      slug := None;
      description := Trimmed(body.description);
      mainCategory := body.mainCategory;
      secondaryCategory := body.secondaryCategory;
      photo := body.photo;
      nameModified := body.name.Some?;
    }

    /** The `required` validator on `name`, the schema's only one. */
    function Error(): Option<string>
      reads this
    {
      if name.None? || name.value == "" then Some(NameRequired) else None
    }

    /** The `pre("save")` hook, the same steps as the location hook. */
    method PreSave(existing: seq<string>, slugify: string -> string)
      requires Valid()
      modifies this`slug
      ensures Valid()
      ensures !nameModified ==> slug == old(slug)
      ensures nameModified ==> slug == Some(UniqueSlug(slugify(name.value), existing))
    {
      if !nameModified {
        return;
      }
      var base := slugify(name.value);
      slug := Some(base);
      var n := MatchCount(base, existing);
      if n > 0 {
        slug := Some(base + "-" + Decimal(n + 1));
      }
    }

    /** `save()` on a new document: validation, the slug hook, the insert. */
    method Save(id: string, existing: seq<Sake>, slugify: string -> string) returns (r: Result<Sake, string>)
      requires Valid() && (nameModified <==> name.Some?)
      modifies this`slug
      ensures Valid()
      ensures r.Failure? <==> Error().Some?
      ensures r.Failure? ==> r.error == NameRequired && slug == old(slug)
      ensures r.Success? ==> r.value.id == id && Some(r.value.name) == name
      ensures r.Success? ==> r.value.slug == UniqueSlug(slugify(r.value.name), SakeSlugs(existing))
      ensures r.Success? ==> r.value.description == description && r.value.photo == photo
      ensures r.Success? ==> r.value.mainCategory == mainCategory && r.value.secondaryCategory == secondaryCategory
    {
      var error := Error();
      if error.Some? {
        return Failure(error.value);
      }
      PreSave(SakeSlugs(existing), slugify);
      r := Success(Sake(id, name.value, slug.value, description, mainCategory, secondaryCategory, photo));
    }
  }

  /** The `slug` values of the stored sakes, which the hook's query searches. */
  function SakeSlugs(sakes: seq<Sake>): seq<string> {
    Map(sakes, (s: Sake) => s.slug)
  }

  /** `$unwind: "$tags"` sees no `tags` on a stored sake. */
  function NoTags(sakes: seq<Sake>): (tags: seq<seq<string>>)
    ensures |tags| == |sakes|
  {
    seq(|sakes|, _ => [])
  }

  /** `Sake.getTagsList()`. */
  function GetTagsList(sakes: seq<Sake>): seq<TagCount> {
    TagsList(NoTags(sakes))
  }

  /** Stored sakes carry no tags, so the sake tag list is always empty. */
  lemma GetTagsListEmpty(sakes: seq<Sake>)
    ensures GetTagsList(sakes) == []
  {
    var docs := NoTags(sakes);
    TagsListCorrect(docs);
    NoTagsNoOccurrences(docs);
  }

  lemma {:induction false} NoTagsNoOccurrences(docs: seq<seq<string>>)
    requires forall i :: 0 <= i < |docs| ==> docs[i] == []
    ensures forall t :: Occurrences(docs, t) == 0
  {
    if docs != [] {
      NoTagsNoOccurrences(docs[1..]);
    }
  }

  // ---- getTopSakes ----

  /** `$lookup`: the reviews whose `sake` is `id`, in collection order. */
  function ReviewsOf(id: string, reviews: seq<Review>): seq<Review> {
    Filter(reviews, (r: Review) => r.sake == id)
  }

  /** `$match: {"reviews.1": {$exists: true}}`: a second joined review exists. */
  predicate HasTwoReviews(s: Sake, reviews: seq<Review>) {
    |ReviewsOf(s.id, reviews)| >= 2
  }

  function Rating(r: Review): int {
    r.rating
  }

  /** `$avg` over the ratings, as an exact mean. */
  function Mean(rs: seq<Review>): real
    requires |rs| > 0
  {
    (Sum(rs, Rating) as real) / (|rs| as real)
  }

  /** One output document of `$project`. */
  datatype TopSake = TopSake(
    id: string,
    photo: Option<string>,
    name: string,
    reviews: seq<Review>,
    slug: string,
    averageRating: real)

  function Project(s: Sake, reviews: seq<Review>): TopSake
    requires HasTwoReviews(s, reviews)
  {
    var rs := ReviewsOf(s.id, reviews);
    TopSake(s.id, s.photo, s.name, rs, s.slug, Mean(rs))
  }

  /** `$lookup`, `$match` and `$project`, before sorting. */
  function Ranked(sakes: seq<Sake>, reviews: seq<Review>): seq<TopSake> {
    var q := Filter(sakes, (s: Sake) => HasTwoReviews(s, reviews));
    seq(|q|, i requires 0 <= i < |q| => Project(q[i], reviews))
  }

  function AverageKey(t: TopSake): real {
    t.averageRating
  }

  /** `Sake.getTopSakes()`: the whole pipeline, ending in `$sort: {averageRating: -1}` and `$limit: 10`. */
  function GetTopSakes(sakes: seq<Sake>, reviews: seq<Review>): seq<TopSake> {
    Top(Ranked(sakes, reviews), AverageKey, 10)
  }

  /** What `$project` produces from a qualifying sake. */
  ghost predicate ProjectedFrom(t: TopSake, sakes: seq<Sake>, reviews: seq<Review>) {
    exists s :: s in sakes && HasTwoReviews(s, reviews) && t == Project(s, reviews)
  }

  lemma RankedLength(sakes: seq<Sake>, reviews: seq<Review>)
    ensures |Ranked(sakes, reviews)| == Count(sakes, (s: Sake) => HasTwoReviews(s, reviews))
  {
  }

  /** Every qualifying sake is projected into the ranking. */
  lemma RankedComplete(sakes: seq<Sake>, reviews: seq<Review>, s: Sake)
    requires s in sakes && HasTwoReviews(s, reviews)
    ensures Project(s, reviews) in Ranked(sakes, reviews)
  {
    var q := Filter(sakes, (s: Sake) => HasTwoReviews(s, reviews));
    FilterMembers(sakes, (s: Sake) => HasTwoReviews(s, reviews), s);
    var i :| 0 <= i < |q| && q[i] == s;
    assert Ranked(sakes, reviews)[i] == Project(s, reviews);
  }

  /** What a top sake holds: at least two reviews, exactly its sake's reviews, and their mean. */
  ghost predicate WellFormedTop(t: TopSake, reviews: seq<Review>) {
    && |t.reviews| >= 2
    && (forall r :: r in t.reviews ==> r in reviews && r.sake == t.id)
    && (forall r :: r in reviews && r.sake == t.id ==> r in t.reviews)
    && t.averageRating == Mean(t.reviews)
  }

  lemma ProjectWellFormed(s: Sake, reviews: seq<Review>)
    requires HasTwoReviews(s, reviews)
    ensures WellFormedTop(Project(s, reviews), reviews)
  {
    var rs := ReviewsOf(s.id, reviews);
    var t := Project(s, reviews);
    assert t.id == s.id && t.reviews == rs && t.averageRating == Mean(rs);
    ReviewsOfExact(s.id, reviews);
  }

  /** The joined reviews are exactly the reviews of the sake. */
  lemma ReviewsOfExact(id: string, reviews: seq<Review>)
    ensures forall r :: r in ReviewsOf(id, reviews) ==> r in reviews && r.sake == id
    ensures forall r :: r in reviews && r.sake == id ==> r in ReviewsOf(id, reviews)
  {
    var rs := ReviewsOf(id, reviews);
    forall r | r in rs ensures r in reviews && r.sake == id {
      var i :| 0 <= i < |rs| && rs[i] == r;
    }
    forall r | r in reviews && r.sake == id ensures r in rs {
      var i :| 0 <= i < |reviews| && reviews[i] == r;
    }
  }

  lemma MeanTimesCount(rs: seq<Review>)
    requires |rs| > 0
    ensures Mean(rs) * (|rs| as real) == Sum(rs, Rating) as real
  {
  }

  /**
   * Every top sake comes from a stored sake with at least two reviews,
   * carries all the reviews of that sake and nothing else, and its average is
   * their mean.
   */
  lemma TopSakesQualify(sakes: seq<Sake>, reviews: seq<Review>)
    ensures forall t :: t in GetTopSakes(sakes, reviews) ==>
              ProjectedFrom(t, sakes, reviews) && WellFormedTop(t, reviews)
  {
    var ranked := Ranked(sakes, reviews);
    forall t | t in GetTopSakes(sakes, reviews)
      ensures ProjectedFrom(t, sakes, reviews) && WellFormedTop(t, reviews)
    {
      TopSakesFromRanked(sakes, reviews, t);
      RankedElement(sakes, reviews, t);
    }
  }

  lemma TopSakesFromRanked(sakes: seq<Sake>, reviews: seq<Review>, t: TopSake)
    requires t in GetTopSakes(sakes, reviews)
    ensures t in Ranked(sakes, reviews)
  {
    var ranked := Ranked(sakes, reviews);
    TopIsTopK(ranked, AverageKey, 10);
    assert t in multiset(GetTopSakes(sakes, reviews));
    assert t in multiset(ranked);
  }

  lemma RankedElement(sakes: seq<Sake>, reviews: seq<Review>, t: TopSake)
    requires t in Ranked(sakes, reviews)
    ensures ProjectedFrom(t, sakes, reviews) && WellFormedTop(t, reviews)
  {
    var q := Filter(sakes, (s: Sake) => HasTwoReviews(s, reviews));
    var ranked := Ranked(sakes, reviews);
    var i :| 0 <= i < |ranked| && ranked[i] == t;
    assert q[i] in sakes && HasTwoReviews(q[i], reviews);
    assert t == Project(q[i], reviews);
    ProjectWellFormed(q[i], reviews);
  }

  /** The output is ordered by average rating, highest first. */
  lemma TopSakesSorted(sakes: seq<Sake>, reviews: seq<Review>)
    ensures forall i, j :: 0 <= i < j < |GetTopSakes(sakes, reviews)| ==>
              GetTopSakes(sakes, reviews)[i].averageRating >= GetTopSakes(sakes, reviews)[j].averageRating
  {
    TopIsTopK(Ranked(sakes, reviews), AverageKey, 10);
  }

  /** Ten results, or all qualifying sakes when there are fewer. */
  lemma TopSakesLength(sakes: seq<Sake>, reviews: seq<Review>)
    ensures var n := Count(sakes, (s: Sake) => HasTwoReviews(s, reviews));
            |GetTopSakes(sakes, reviews)| == if n < 10 then n else 10
  {
    RankedLength(sakes, reviews);
    TopIsTopK(Ranked(sakes, reviews), AverageKey, 10);
  }

  /** No qualifying sake that was left out has a higher average than any that was kept. */
  lemma TopSakesAreTop(sakes: seq<Sake>, reviews: seq<Review>)
    ensures forall s, t :: s in sakes && HasTwoReviews(s, reviews) &&
                           Project(s, reviews) !in GetTopSakes(sakes, reviews) &&
                           t in GetTopSakes(sakes, reviews) ==>
                           t.averageRating >= Project(s, reviews).averageRating
  {
    var ranked := Ranked(sakes, reviews);
    var out := GetTopSakes(sakes, reviews);
    TopIsTopK(ranked, AverageKey, 10);
    forall s, t | s in sakes && HasTwoReviews(s, reviews) && Project(s, reviews) !in out && t in out
      ensures t.averageRating >= Project(s, reviews).averageRating
    {
      RankedComplete(sakes, reviews, s);
      var p := Project(s, reviews);
      assert p in multiset(ranked);
      assert p !in multiset(out);
      assert p in multiset(ranked) - multiset(out);
      assert AverageKey(t) >= AverageKey(p);
    }
  }

  lemma {:induction false} SumBounds(rs: seq<Review>, lo: int, hi: int)
    requires forall i :: 0 <= i < |rs| ==> lo <= rs[i].rating <= hi
    ensures lo * |rs| <= Sum(rs, Rating) <= hi * |rs|
  {
    if rs != [] {
      assert forall i :: 0 <= i < |rs| - 1 ==> rs[1..][i] == rs[i + 1];
      SumBounds(rs[1..], lo, hi);
      assert lo * |rs| == lo * |rs[1..]| + lo;
      assert hi * |rs| == hi * |rs[1..]| + hi;
    }
  }

  lemma DivisionBounds(total: real, n: real, a: real, b: real)
    requires n > 0.0 && a * n <= total <= b * n
    ensures a <= total / n <= b
  {
    assert (total / n) * n == total;
  }

  /** With ratings between `lo` and `hi`, every mean lies between them too. */
  lemma MeanBounds(rs: seq<Review>, lo: int, hi: int)
    requires |rs| > 0
    requires forall r :: r in rs ==> lo <= r.rating <= hi
    ensures lo as real <= Mean(rs) <= hi as real
  {
    SumBounds(rs, lo, hi);
    var total := Sum(rs, Rating);
    var count := |rs|;
    CastBounds(total, count, lo, hi);
    DivisionBounds(total as real, count as real, lo as real, hi as real);
  }

  lemma CastBounds(total: int, count: int, lo: int, hi: int)
    requires lo * count <= total <= hi * count
    ensures (lo as real) * (count as real) <= total as real <= (hi as real) * (count as real)
  {
  }

  function ExampleA(): Sake { Sake("a", "A", "a", None, None, None, None) }
  function ExampleB(): Sake { Sake("b", "B", "b", None, None, None, None) }
  function ExampleReviews(): seq<Review> { [Review("a", 5), Review("a", 3), Review("b", 5)] }

  lemma ExampleLookup()
    ensures ReviewsOf("a", ExampleReviews()) == [Review("a", 5), Review("a", 3)]
    ensures ReviewsOf("b", ExampleReviews()) == [Review("b", 5)]
  {
    var rs := ExampleReviews();
    assert rs[1..] == [Review("a", 3), Review("b", 5)];
    assert rs[2..] == [Review("b", 5)];
    assert rs[3..] == [];
  }

  lemma ExampleQualifying()
    ensures Filter([ExampleA(), ExampleB()], (s: Sake) => HasTwoReviews(s, ExampleReviews())) == [ExampleA()]
  {
    ExampleLookup();
    var p := (s: Sake) => HasTwoReviews(s, ExampleReviews());
    assert p(ExampleA()) && !p(ExampleB());
    var ss := [ExampleA(), ExampleB()];
    assert ss[1..] == [ExampleB()];
    assert ss[1..][1..] == [];
  }

  lemma ExampleProject()
    ensures Project(ExampleA(), ExampleReviews()) ==
            TopSake("a", None, "A", [Review("a", 5), Review("a", 3)], "a", 4.0)
  {
    ExampleLookup();
    var rs := [Review("a", 5), Review("a", 3)];
    assert rs[1..] == [Review("a", 3)];
    assert Sum(rs, Rating) == 8;
    assert Mean(rs) == 4.0;
  }

  lemma ExampleRanked()
    ensures Ranked([ExampleA(), ExampleB()], ExampleReviews()) ==
            [TopSake("a", None, "A", [Review("a", 5), Review("a", 3)], "a", 4.0)]
  {
    ExampleQualifying();
    ExampleProject();
  }

  /** The worked example: reviews 5 and 3 qualify with mean 4; a single review of 5 does not qualify. */
  lemma TopSakesExample()
    ensures GetTopSakes([ExampleA(), ExampleB()], ExampleReviews()) ==
            [TopSake("a", None, "A", [Review("a", 5), Review("a", 3)], "a", 4.0)]
  {
    ExampleRanked();
    var t := TopSake("a", None, "A", [Review("a", 5), Review("a", 3)], "a", 4.0);
    assert SortDesc([t], AverageKey) == [t];
  }
}
