/**
 * controllers/sakeController.js: creating a sake, the paginated sake list
 * and its out-of-range redirect, the heart toggle, the hearted sakes, the
 * tag page and the lookup by slug.  The upload filter and the file name of
 * `resize` are the shared ones of module Uploads.
 */
module SakeController {
  import opened Wrappers
  import opened Seqs
  import opened TagList
  import opened SakeModel
  import opened Uploads
  import opened Text
  import opened Slugs

  /** `createSake`: build the document from the form and save it. */
  method CreateSake(body: RequestBody, id: string, existing: seq<Sake>, slugify: string -> string)
    returns (r: Result<Sake, string>)
    ensures r.Failure? <==> body.name.None? || Trim(body.name.value) == ""
    ensures r.Failure? ==> r.error == NameRequired
    ensures r.Success? ==> && r.value.id == id
                           && Some(r.value.name) == Trimmed(body.name)
                           && r.value.slug == UniqueSlug(slugify(r.value.name), SakeSlugs(existing))
    ensures r.Success? ==> && r.value.description == Trimmed(body.description) && r.value.photo == body.photo
                           && r.value.mainCategory == body.mainCategory
                           && r.value.secondaryCategory == body.secondaryCategory
  {
    var doc := new SakeDocument(body);
    assert doc.Error().Some? <==> body.name.None? || Trim(body.name.value) == "";
    r := doc.Save(id, existing, slugify);
  }

  // ---- updateSake ----

  /**
   * `findOneAndUpdate(..., req.body)` on a sake: the fields the form sends
   * replace the stored ones.  No save hook runs, so `id` and `slug` stay.
   */
  function ApplySakeUpdate(stored: Sake, body: RequestBody): Sake
    reads body
  {
    Sake(stored.id, body.name.GetOr(stored.name), stored.slug,
         if body.description.Some? then body.description else stored.description,
         if body.mainCategory.Some? then body.mainCategory else stored.mainCategory,
         if body.secondaryCategory.Some? then body.secondaryCategory else stored.secondaryCategory,
         if body.photo.Some? then body.photo else stored.photo)
  }

  datatype UpdateView = SakeUpdated(sake: Sake) | UpdateCrash

  /** `updateSake`: no sake with the id leaves `null`, and reading its name fails. */
  function UpdateSake(sakes: seq<Sake>, id: string, body: RequestBody): UpdateView
    reads body
  {
    match First(sakes, (s: Sake) => s.id == id)
    case Some(stored) => SakeUpdated(ApplySakeUpdate(stored, body))
    case None => UpdateCrash
  }

  /** Editing a sake never renames its slug, even when the name changes. */
  lemma UpdateSakeKeepsSlug(sakes: seq<Sake>, id: string, body: RequestBody)
    ensures UpdateSake(sakes, id, body).SakeUpdated? <==> exists i :: 0 <= i < |sakes| && sakes[i].id == id
    ensures var v := UpdateSake(sakes, id, body);
            v.SakeUpdated? ==> exists s :: s in sakes && s.id == id && v.sake.id == id && v.sake.slug == s.slug
    ensures var v := UpdateSake(sakes, id, body);
            v.SakeUpdated? && body.name.Some? ==> v.sake.name == body.name.value
  {
    var found := First(sakes, (s: Sake) => s.id == id);
    if found.Some? {
      var k :| 0 <= k < |sakes| && sakes[k] == found.value && sakes[k].id == id;
      assert sakes[k] in sakes;
    }
  }

  // ---- getSakes ----

  const PageSize := 4

  /** `page * limit - limit`, with `page` defaulting to 1 when the route has none. */
  function Skip(page: Option<int>): int {
    page.GetOr(1) * PageSize - PageSize
  }

  /** `Math.ceil(count / limit)`: the fewest pages of four that hold `count` items. */
  function PageCount(count: nat): (pages: nat)
    ensures count <= pages * PageSize
    ensures pages == 0 || (pages - 1) * PageSize < count
  {
    (count + PageSize - 1) / PageSize
  }

  function Min(a: int, b: int): int {
    if a <= b then a else b
  }

  /** What the handler does: render a page, redirect to the last page, or fail in the store. */
  datatype PageView =
    | RenderPage(items: seq<Sake>, page: int, pages: nat, count: nat)
    | RedirectTo(target: nat)
    | StoreError

  /**
   * `getSakes` over the collection in its listing order `ordered`: skip, limit
   * 4, count, and the redirect when the page is empty and the skip is not 0.
   * A negative skip (page 0 or below) is refused by the store.
   */
  function GetSakes(ordered: seq<Sake>, page: Option<int>): (v: PageView)
    ensures v.StoreError? <==> Skip(page) < 0
    ensures v.RedirectTo? <==> 0 < Skip(page) && |ordered| <= Skip(page)
    ensures v.RedirectTo? ==> v.target == PageCount(|ordered|)
    ensures v.RenderPage? ==> && v.page == page.GetOr(1)
                              && v.count == |ordered| && v.pages == PageCount(|ordered|)
                              && v.items == ordered[Skip(page)..Min(Skip(page) + PageSize, |ordered|)]
  {
    var skip := Skip(page);
    if skip < 0 then StoreError
    else
      var items := Take(ordered[Min(skip, |ordered|)..], PageSize);
      var pages := PageCount(|ordered|);
      if |items| == 0 && skip != 0 then RedirectTo(pages)
      else RenderPage(items, page.GetOr(1), pages, |ordered|)
  }

  /** The first page always renders, even when the collection is empty. */
  lemma FirstPageRenders(ordered: seq<Sake>)
    ensures GetSakes(ordered, None).RenderPage?
    ensures GetSakes(ordered, Some(1)).RenderPage?
    ensures GetSakes(ordered, None).items == ordered[..Min(PageSize, |ordered|)]
  {
  }

  /** Item `i` of the listing is shown on page `i / 4 + 1`, at position `i % 4`. */
  lemma ItemOnItsPage(ordered: seq<Sake>, i: int)
    requires 0 <= i < |ordered|
    ensures var v := GetSakes(ordered, Some(i / PageSize + 1));
            v.RenderPage? && i % PageSize < |v.items| && v.items[i % PageSize] == ordered[i]
  {
    var p := i / PageSize + 1;
    assert Skip(Some(p)) == i - i % PageSize;
  }

  /** A page p >= 1 shows items exactly when p is at most the page count. */
  lemma NonEmptyPagesAreCounted(ordered: seq<Sake>, p: int)
    requires p >= 1
    ensures var v := GetSakes(ordered, Some(p));
            v.RenderPage? && |v.items| > 0 <==> p <= PageCount(|ordered|)
  {
  }

  /** When there are sakes, the redirect leads to the last page, which renders and is not empty. */
  lemma RedirectLandsOnLastPage(ordered: seq<Sake>, page: Option<int>)
    requires GetSakes(ordered, page).RedirectTo? && |ordered| > 0
    ensures var v := GetSakes(ordered, Some(GetSakes(ordered, page).target));
            v.RenderPage? && |v.items| > 0
  {
    NonEmptyPagesAreCounted(ordered, PageCount(|ordered|));
  }

  /**
   * With no sakes at all, every page past the first redirects to page 0,
   * whose skip is -4, which the store refuses.
   */
  lemma EmptyListRedirectsToPageZero(page: Option<int>)
    requires page.Some? && page.value >= 2
    ensures GetSakes([], page) == RedirectTo(0)
    ensures GetSakes([], Some(0)).StoreError?
  {
  }

  /** Asking for page 99 of five sakes redirects to page 2, which holds the fifth. */
  lemma PaginationExample(ordered: seq<Sake>)
    requires |ordered| == 5
    ensures GetSakes(ordered, Some(99)) == RedirectTo(2)
    ensures GetSakes(ordered, Some(2)) == RenderPage([ordered[4]], 2, 2, 5)
  {
    assert ordered[4..5] == [ordered[4]];
  }

  // ---- heartSake ----

  /** The update operator `heartSake` chooses. */
  datatype HeartOp = Pull | AddToSet

  /** `$pull`: remove every occurrence of `id`. */
  function PullFrom(hearts: seq<string>, id: string): seq<string> {
    Filter(hearts, (h: string) => h != id)
  }

  /** `$addToSet`: append `id` unless it is already there. */
  function AddToSetOf(hearts: seq<string>, id: string): seq<string> {
    if id in hearts then hearts else hearts + [id]
  }

  function Apply(op: HeartOp, hearts: seq<string>, id: string): seq<string> {
    match op
    case Pull => PullFrom(hearts, id)
    case AddToSet => AddToSetOf(hearts, id)
  }

  /** The hearts after one toggle of `id`. */
  function Toggled(hearts: seq<string>, id: string): seq<string> {
    Apply(if id in hearts then Pull else AddToSet, hearts, id)
  }

  /** One toggle flips the membership of `id` and keeps every other id as it was. */
  lemma ToggleFlips(hearts: seq<string>, id: string, x: string)
    ensures id in Toggled(hearts, id) <==> id !in hearts
    ensures x != id ==> (x in Toggled(hearts, id) <==> x in hearts)
  {
    FilterMembers(hearts, (h: string) => h != id, id);
    FilterMembers(hearts, (h: string) => h != id, x);
  }

  /** The hearts stay free of duplicates. */
  lemma ToggleKeepsNoDup(hearts: seq<string>, id: string)
    requires NoDup(hearts)
    ensures NoDup(Toggled(hearts, id))
  {
    if id in hearts {
      FilterNoDup(hearts, (h: string) => h != id);
    } else {
      NoDupSnoc(hearts, id);
    }
  }

  lemma NoDupSnoc(s: seq<string>, x: string)
    requires NoDup(s) && x !in s
    ensures NoDup(s + [x])
  {
    var r := s + [x];
    forall i, j | 0 <= i < j < |r| ensures r[i] != r[j] {
      assert r[i] == s[i];
    }
  }

  /** Two toggles of the same id restore the membership of every id. */
  lemma ToggleTwiceRestoresMembership(hearts: seq<string>, id: string, x: string)
    ensures x in Toggled(Toggled(hearts, id), id) <==> x in hearts
  {
    ToggleFlips(hearts, id, x);
    ToggleFlips(Toggled(hearts, id), id, x);
  }

  /** Hearting and un-hearting a sake that was not hearted gives back exactly the same list. */
  lemma ToggleTwiceRestoresAbsent(hearts: seq<string>, id: string)
    requires id !in hearts
    ensures Toggled(Toggled(hearts, id), id) == hearts
  {
    var p := (h: string) => h != id;
    assert Toggled(hearts, id) == hearts + [id];
    FilterConcat(hearts, [id], p);
    FilterAll(hearts, p);
    assert [id][1..] == [];
    assert Filter([id], p) == [];
  }

  /** Un-hearting and re-hearting moves the id to the end: membership is restored, order is not. */
  lemma ToggleTwiceReorders()
    ensures Toggled(Toggled(["a", "b"], "a"), "a") == ["b", "a"]
  {
    var hs := ["a", "b"];
    assert hs[1..] == ["b"] && hs[1..][1..] == [];
    assert PullFrom(hs, "a") == ["b"];
  }

  /** A user with the ids of the sakes they have hearted. */
  class User {
    const id: string
    var hearts: seq<string>

    ghost predicate Valid()
      reads this
    {
      NoDup(hearts)
    }

    constructor (id: string, hearts: seq<string>)
      requires NoDup(hearts)
      ensures Valid() && this.id == id && this.hearts == hearts
    {
      this.id := id;
      this.hearts := hearts;
    }

    /**
     * `heartSake`: `$pull` when the sake is hearted, `$addToSet` otherwise,
     * applied to the stored user.
     */
    method HeartSake(sakeId: string) returns (op: HeartOp)
      requires Valid()
      modifies this`hearts
      ensures Valid()
      ensures op == Pull <==> sakeId in old(hearts)
      ensures hearts == Apply(op, old(hearts), sakeId) == Toggled(old(hearts), sakeId)
      ensures sakeId in hearts <==> sakeId !in old(hearts)
      ensures forall x :: x != sakeId ==> (x in hearts <==> x in old(hearts))
    {
      ToggleKeepsNoDup(hearts, sakeId);
      forall x ensures x != sakeId ==> (x in Toggled(hearts, sakeId) <==> x in hearts) {
        ToggleFlips(hearts, sakeId, x);
      }
      if sakeId in hearts {
        op := Pull;
        hearts := PullFrom(hearts, sakeId);
      } else {
        op := AddToSet;
        hearts := AddToSetOf(hearts, sakeId);
      }
    }
  }

  // ---- getHearts, getSakesByTag, getSakeBySlug ----

  /** `find({_id: {$in: hearts}})`. */
  function GetHearts(sakes: seq<Sake>, hearts: seq<string>): seq<Sake> {
    Filter(sakes, (s: Sake) => s.id in hearts)
  }

  /** The hearted sakes are exactly the stored sakes whose id is among the hearts. */
  lemma GetHeartsExact(sakes: seq<Sake>, hearts: seq<string>, s: Sake)
    ensures s in GetHearts(sakes, hearts) <==> s in sakes && s.id in hearts
  {
    FilterMembers(sakes, (s: Sake) => s.id in hearts, s);
  }

  /** `getSakesByTag`: the tag list and the sakes the tag filter selects. */
  function SakesByTag(sakes: seq<Sake>, param: Option<string>): (seq<TagCount>, seq<Sake>) {
    var q := TagQueryFor(param);
    (GetTagsList(sakes), Filter(sakes, (s: Sake) => TagQueryMatches(q, None)))
  }

  /** No stored sake has a `tags` field, so the tag page is empty whatever the tag. */
  lemma SakesByTagEmpty(sakes: seq<Sake>, param: Option<string>)
    ensures SakesByTag(sakes, param) == ([], [])
  {
    GetTagsListEmpty(sakes);
    var r := Filter(sakes, (s: Sake) => TagQueryMatches(TagQueryFor(param), None));
    assert Count(sakes, (s: Sake) => TagQueryMatches(TagQueryFor(param), None)) == 0;
  }

  datatype SlugView = RenderSake(sake: Sake) | NotFound

  /** `getSakeBySlug`: the first sake with the slug, or `next()` when there is none. */
  function GetSakeBySlug(sakes: seq<Sake>, slug: string): (v: SlugView)
    ensures v.NotFound? <==> forall i :: 0 <= i < |sakes| ==> sakes[i].slug != slug
    ensures v.RenderSake? ==> v.sake in sakes && v.sake.slug == slug
  {
    match First(sakes, (s: Sake) => s.slug == slug)
    case Some(s) => RenderSake(s)
    case None => NotFound
  }
}
