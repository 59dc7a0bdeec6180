# sakewalk, modelled in Dafny

sakewalk is an Express and Mongoose web application. It keeps two
collections: places ("locations") and sake bottles ("sakes"). Users create,
edit, tag, heart, review and search them. This project models the decision
logic of its two models and two controllers and proves properties of it:

- **Slugs.** Both schemas have a `pre("save")` hook that derives a URL slug
  from the name. It de-duplicates the slug by counting stored slugs that
  match a regular expression built from the base slug, and appends
  `-(N+1)` when N of them match (module `Slugs`, and the `PreSave` / `Save`
  methods of `LocationModel.LocationDocument` and
  `SakeModel.SakeDocument`).
- **Validation.** The location schema's `required` fields, `trim` setters and
  defaults (`LocationModel`), and the sake schema's single required name
  (`SakeModel`).
- **Tag aggregation.** The `getTagsList` aggregation:
  `$unwind` → `$group` by tag with a count → `$sort` by count, descending
  (`TagList`). The tag filter of the tag pages is modelled there too.
- **Top sakes.** The `getTopSakes` aggregation: join the reviews, keep sakes
  with at least two of them, project the average rating, sort descending and
  keep ten (`SakeModel`, over the generic top-k of `Ranking`).
- **Sake controller.** Pagination with its out-of-range redirect, the heart
  toggle (`$pull` / `$addToSet` on the user's `hearts`), the hearted sakes,
  the tag page, the lookup by slug, create and update (`SakeController`).
- **Location controller.** Create, with the author taken from the signed-in
  user. The owner check of the edit page. Update, which bypasses the slug
  hook. The lookup by slug, the tag page, the text search and the map query
  (`LocationController`).
- **Uploads.** The upload filter and the stored photo name that both
  controllers share (`Uploads`).

Pure logic is modelled as functions with lemmas. The parts the source
writes step by step are modelled as classes whose methods change their
fields:

- a document's `slug` assigned by the save hook;
- `req.body.author`, `req.body.photo` and `req.body.location.type` assigned
  by the handlers;
- a user's `hearts` updated in place.

Things the program gets from outside are parameters of the model:

- the slug library's `slugify`;
- the store's id for a new document, the current time and the uuid;
- the text-search predicate and score, and the geodesic distance.

A query result is modelled as the sequence of stored documents in the
store's order. A `find` that sorts, such as the sake listing, takes its
input already in that order.

Where the code departs from what it evidently intends, the model follows
the code:

- **Slug pattern.** The hook's pattern is `^(base)((-[0-9]*$)?)` with flag
  `i`. Its optional group may match the empty string, so the pattern accepts
  every stored slug that merely *starts with* the base, ignoring case: a
  stored `foo-barbaz` makes a new `foo-bar` become `foo-bar-2`. The
  narrower, fully anchored `^base(-[0-9]*)?$` is modelled alongside, and
  `Slugs.AnchoredPatternIsNarrower` exhibits the difference.
- **Suffixes can repeat.** The suffix comes from a count, not from a search
  for a free number, so it can repeat a stored slug
  (`Slugs.CountedSuffixCanRepeat`).
- **Empty coordinates.** `required` sits on each element of
  `location.coordinates`, so an empty coordinates array passes validation.
  The `2dsphere` index on `location` then refuses the insert, as it refuses
  any `location` that is not a GeoJSON point with a longitude and latitude
  in range (section 3.1.1 of RFC 7946). The model returns that refusal as a
  failure of `save()`, after the slug hook has run.
- **Sakes have no tags.** The sake schema declares no `tags`. Under the
  schema's strict mode, stored sakes carry none, so the sake tag list and
  the sake tag page are always empty. For the page's `Sake.find({ tags })`
  this assumes that Mongoose passes the filter on the undeclared path to the
  store, as Mongoose 4, 5 and 7 do by default. Under Mongoose 6, whose
  `strictQuery` follows `strict`, the filter would be stripped and every
  sake would be listed.
- **Updates keep the slug.** Updates go through `findOneAndUpdate`, which
  does not run the save hook, so a renamed location or sake keeps its
  original slug.
- **Empty listing.** With no sakes at all, any page past the first
  redirects to page 0. There the skip is -4, which the store refuses.

## Model

| member | source | states |
|---|---|---|
| Text.TrimStart | models/Location.js:8 | `trim` removes exactly the leading white space: the result is a suffix of the input, everything dropped is white space, and the result does not start with white space |
| Text.TrimEnd | models/Location.js:8 | the mirror image for trailing white space: the result is a prefix, everything dropped is white space, and the result does not end with white space |
| Text.TrimIsInfix | models/Location.js:8 | a trimmed string is a contiguous piece of the input with only white space cut on either side, and it neither starts nor ends with white space |
| Text.TrimIdempotent | models/Sake.js:9 | trimming twice is trimming once |
| Text.TrimEmptyIffBlank | models/Location.js:8-9 | a value trims to the empty string exactly when it is all white space |
| Text.Split | controllers/sakeController.js:31 | `split("/")` yields at least one piece, no piece contains the separator, and joining the pieces with the separator gives back the input |
| Text.SplitFirstPiece | controllers/locationController.js:29 | a separator-free piece followed by the separator splits off as the first piece |
| Text.SplitNoSeparator | controllers/locationController.js:29 | a text without the separator splits into itself alone |
| Text.Decimal | models/Location.js:70 | the numeral of a number is non-empty, all digits, and has no leading zero unless it is 0 |
| Text.DecimalRoundTrip | models/Sake.js:39 | reading back the numeral written into the slug suffix gives the number |
| Text.Trimmed | models/Sake.js:7-10 | the `trim` setter keeps a value present exactly when it was given |
| Seqs.Count | models/Location.js:69 | the number of matching documents is at most the total, and is 0 exactly when none matches |
| Seqs.CountConcat | models/Location.js:68 | counting over two collections together adds the two counts |
| Seqs.CountPermutation | models/Location.js:68 | a count does not depend on the order the store returns documents in |
| Seqs.Filter | controllers/sakeController.js:136-138 | a `find` with a condition keeps as many documents as match; every kept one is stored and matches, and every stored match is kept |
| Seqs.FilterMembers | controllers/sakeController.js:136-138 | a document is in the result exactly when it is stored and matches |
| Seqs.FilterConcat | controllers/sakeController.js:128 | filtering a concatenation is the concatenation of the filtered parts |
| Seqs.FilterAll | controllers/locationController.js:106-108 | a condition every document meets keeps the collection as it is |
| Seqs.FilterNoDup | controllers/sakeController.js:128 | filtering a duplicate-free list leaves it duplicate-free |
| Seqs.First | controllers/sakeController.js:98-103 | `findOne` returns nothing exactly when no document matches, and otherwise the earliest match |
| Seqs.SumConcat | models/Location.js:81 | a `$sum` over two parts adds the two sums |
| Seqs.SumPermutation | models/Sake.js:78 | a sum does not depend on the order of the summed documents |
| Seqs.Map | models/Location.js:68 | a projection keeps one value per document, in collection order: the stored slugs the hook searches, the `tags` arrays the aggregation reads, the fields `select` keeps |
| Seqs.Take | models/Sake.js:86-88 | `$limit: k` keeps the first min(k, n) documents |
| Ranking.Insert | models/Sake.js:82-84 | inserting into the sorted prefix adds exactly the one element |
| Ranking.InsertSorted | models/Sake.js:82-84 | inserting into a list sorted by descending key keeps it sorted |
| Ranking.SortDesc | models/Location.js:82 | `$sort` with `-1` yields a permutation of its input sorted by non-increasing key |
| Ranking.SortedSplit | models/Sake.js:82-88 | in a sorted list every element of a prefix has a key at least that of every element after it |
| Ranking.TopSorted | models/Sake.js:82-88 | sort-then-limit is sorted by non-increasing key |
| Ranking.TopSplit | models/Sake.js:82-88 | sort-then-limit is a prefix of the sorted list, and it together with the rest is the whole input |
| Ranking.TopIsTopK | models/Sake.js:82-88 | sort-then-limit keeps min(k, n) elements of the input, sorted, and none left out outranks one kept |
| Slugs.UniqueSlug | models/Location.js:63-71 | the saved slug starts with the base, and equals it exactly when no stored slug starts with the base, ignoring case |
| Slugs.SlugPatternIsPrefix | models/Location.js:65 | the hook's pattern matches exactly the slugs that start with the base, ignoring case |
| Slugs.AnchoredPatternIsNarrower | models/Sake.js:35 | the anchored `base(-digits)?` pattern matches only slugs the hook's pattern matches, and `foo-barbaz` separates the two |
| Slugs.SuffixIsCountPlusOne | models/Location.js:68-71 | with N >= 1 matches the slug is the base, a dash and digits whose value is N + 1 |
| Slugs.SavedSlugMatches | models/Sake.js:35-40 | a saved slug matches its own base's pattern, so later saves of the same name count it |
| Slugs.CollisionGrowth | models/Sake.js:37-39 | a second save of the same name gets the suffix N + 2 |
| Slugs.UniqueSlugDeterministic | models/Location.js:63-71 | the slug depends only on the base and the multiset of stored slugs |
| Slugs.UniqueSlugExamples | models/Location.js:69-71 | `foo-bar` on an empty collection stays `foo-bar`; a second `foo-bar` becomes `foo-bar-2` |
| Slugs.UniqueSlugThirdSave | models/Sake.js:38-39 | with `foo-bar` and `foo-bar-2` stored, the next is `foo-bar-3` |
| Slugs.UniqueSlugIgnoresCase | models/Sake.js:35 | a stored `FOO-BAR` counts against `foo-bar` |
| Slugs.UniqueSlugCountsLongerSlugs | models/Location.js:65 | a stored `foo-barbaz` counts against `foo-bar` |
| Slugs.CountedSuffixCanRepeat | models/Location.js:69-70 | with only `foo-bar-2` stored, a new `foo-bar` is given `foo-bar-2` again |
| TagList.Unwind | models/Location.js:80 | `$unwind` emits each tag as many times as it occurs across the documents |
| TagList.Distinct | models/Location.js:81 | the group keys are duplicate-free and are exactly the tags that occur |
| TagList.Counted | models/Location.js:81 | each group's count is the number of unwound entries with its tag |
| TagList.TagsListCorrect | models/Location.js:77-84 | `getTagsList` has one entry per distinct used tag, each count is its number of occurrences, and counts are non-increasing |
| TagList.GroupCorrect | models/Location.js:80-81 | after unwind and group, counts are occurrences, tags are distinct, and the tag set is the set of used tags |
| TagList.GroupTags | models/Location.js:81 | `$group` with `$sum: 1` counts each distinct value of its input |
| TagList.EntriesKept | models/Location.js:82 | sorting keeps each entry's count and the set of tags |
| TagList.DistinctTagsKept | models/Location.js:82 | sorting keeps the tags distinct |
| TagList.DistinctAtMostOnce | models/Location.js:81 | each group entry appears once |
| TagList.TagsListCountsPositive | models/Location.js:81 | every reported count is at least 1 |
| TagList.TagsListSum | models/Location.js:79-81 | the counts add up to the total length of all `tags` arrays |
| TagList.UnwindLength | models/Location.js:80 | `$unwind` emits as many entries as there are tag uses |
| TagList.UnwindConcat | models/Location.js:80 | unwinding two collections together concatenates their unwinds |
| TagList.EmptyTagsContributeNothing | models/Location.js:80 | a document with no tags does not change the tag list |
| TagList.TagsListExample | models/Location.js:77-84 | tags `[a,b]`, `[a]`, `[]` give `a: 2` then `b: 1` |
| TagList.TagQueryFor | controllers/locationController.js:106 | `tag \|\| {$exists: true}` filters by the tag exactly when one is given and not empty |
| Uploads.FileFilter | controllers/sakeController.js:11-18 | a file is accepted iff its type starts with `image/`, and otherwise rejected with "That filetype isn't allowed" |
| Uploads.AcceptedExtension | controllers/locationController.js:29 | for an accepted file the extension is the subtype, up to any further `/` |
| Uploads.PhotoNameOfImage | controllers/sakeController.js:31-32 | `image/<subtype>` is accepted and stored as `<uuid>.<subtype>` |
| Uploads.Resize | controllers/locationController.js:22-30 | without a file `photo` is unchanged; with one it becomes `<uuid>.<extension>` |
| LocationModel.ValidationErrorsEmptyIff | models/Location.js:6-42 | a location is valid iff it has a non-empty name, every coordinate, a non-empty address and an author |
| LocationModel.BlankNameRejected | models/Location.js:6-10 | a name of only white space is reported as missing, because the setter trims before validation |
| LocationModel.LocationDocument.constructor | models/Location.js:5-43 | `new Location(body)` trims name and description, defaults `tags`, `created` and `location.type` ("Point"), and its validation errors are those of the trimmed form |
| LocationModel.LocationDocument.PreSave | models/Location.js:57-74 | an unmodified name leaves `slug` alone; otherwise the slug is the de-duplicated slug of the name |
| LocationModel.LocationDocument.Save | models/Location.js:5-74 | save fails with the validators' errors, without touching the slug, when validation fails; otherwise the slug hook runs, and the insert is refused iff the `2dsphere` index (lines 51-53) does not accept `location`; on success the stored location is the document's fields under the id, with the de-duplicated slug |
| LocationModel.ValidButNotIndexable | models/Location.js:26-31 | a location with no coordinates passes validation, yet the `2dsphere` index (lines 51-53) refuses it, as it refuses a single number or a latitude past a pole, and accepts `[139.7, 35.6]` |
| LocationModel.Values | models/Location.js:26-31 | a fully given coordinates array is stored element for element |
| LocationModel.GetTagsListCorrect | models/Location.js:77-84 | the location tag list meets the pipeline's specification and its counts add up to all tag uses |
| SakeModel.SakeDocument.constructor | models/Sake.js:5-25 | `new Sake(body)` trims name and description and keeps the schema's other fields |
| SakeModel.SakeDocument.PreSave | models/Sake.js:27-43 | an unmodified name leaves `slug` alone; otherwise the slug is the de-duplicated slug of the name |
| SakeModel.SakeDocument.Save | models/Sake.js:5-43 | save fails iff the name is missing or empty, with "Please enter a sake name" and the slug untouched; on success the sake has the id, name, description, categories, photo and de-duplicated slug |
| SakeModel.GetTagsListEmpty | models/Sake.js:45-51 | with no `tags` in the schema the sake tag list is empty |
| SakeModel.NoTagsNoOccurrences | models/Sake.js:47 | documents without tags have no tag occurrences |
| SakeModel.RankedLength | models/Sake.js:66-70 | `$match` on `reviews.1` keeps exactly the sakes with at least two reviews |
| SakeModel.RankedComplete | models/Sake.js:57-80 | every sake with two reviews is projected into the ranking |
| SakeModel.ProjectWellFormed | models/Sake.js:72-80 | a projected sake has its own reviews, all of them, at least two, and their mean as `averageRating` |
| SakeModel.ReviewsOfExact | models/Sake.js:57-64 | `$lookup` joins exactly the reviews whose `sake` is the sake's id |
| SakeModel.MeanTimesCount | models/Sake.js:78 | the average times the review count is the sum of the ratings |
| SakeModel.TopSakesQualify | models/Sake.js:53-90 | every output comes from a stored sake with at least two reviews, with those reviews and their mean |
| SakeModel.TopSakesFromRanked | models/Sake.js:82-88 | sort and limit only choose among the projected sakes |
| SakeModel.RankedElement | models/Sake.js:57-80 | every projected entry comes from a stored sake and is well formed |
| SakeModel.TopSakesSorted | models/Sake.js:82-84 | the output is ordered by `averageRating`, highest first |
| SakeModel.TopSakesLength | models/Sake.js:86-88 | the output has ten entries, or all qualifying sakes when fewer |
| SakeModel.TopSakesAreTop | models/Sake.js:82-88 | no qualifying sake left out has a higher average than one kept |
| SakeModel.SumBounds | models/Sake.js:78 | ratings between lo and hi sum to between lo·n and hi·n |
| SakeModel.MeanBounds | models/Sake.js:78 | the average lies between the lowest and the highest possible rating |
| SakeModel.TopSakesExample | models/Sake.js:53-90 | a sake rated 5 and 3 is listed with average 4; a sake with one review is not |
| SakeController.CreateSake | controllers/sakeController.js:46-50 | creation fails iff the name is absent or blank, with the schema's message; otherwise the sake has the id, the trimmed name, its de-duplicated slug, the trimmed description, the photo and both categories of the form |
| SakeController.UpdateSakeKeepsSlug | controllers/sakeController.js:83-95 | an update succeeds iff the id is stored; the sake keeps its id and slug and takes a given name |
| SakeController.PageCount | controllers/sakeController.js:65 | `ceil(count / 4)`: the least number of pages of four that hold every sake |
| SakeController.GetSakes | controllers/sakeController.js:52-75 | a page before the first is a store error; the handler redirects to the page count iff the page is empty and skip is not 0; otherwise it renders the four items from `page*4-4` |
| SakeController.FirstPageRenders | controllers/sakeController.js:53-55 | with no page, or page 1, the first four render, even when there are none |
| SakeController.ItemOnItsPage | controllers/sakeController.js:53-60 | item i renders on page i/4 + 1 at position i mod 4 |
| SakeController.NonEmptyPagesAreCounted | controllers/sakeController.js:65-74 | page p shows items iff 1 <= p <= the page count |
| SakeController.RedirectLandsOnLastPage | controllers/sakeController.js:66-71 | when there are sakes, the redirect target renders a non-empty page |
| SakeController.EmptyListRedirectsToPageZero | controllers/sakeController.js:65-71 | with no sakes a later page redirects to page 0, which the store then refuses |
| SakeController.PaginationExample | controllers/sakeController.js:52-75 | five sakes: page 99 redirects to page 2, which renders the fifth sake |
| SakeController.ToggleFlips | controllers/sakeController.js:124-128 | a toggle flips the id's membership and no other |
| SakeController.ToggleKeepsNoDup | controllers/sakeController.js:124-128 | a toggle keeps `hearts` duplicate-free |
| SakeController.ToggleTwiceRestoresMembership | controllers/sakeController.js:124-131 | toggling the same id twice restores every membership |
| SakeController.ToggleTwiceRestoresAbsent | controllers/sakeController.js:124-131 | toggling an absent id twice restores the list exactly |
| SakeController.ToggleTwiceReorders | controllers/sakeController.js:124-131 | toggling a present id twice can move it to the end |
| SakeController.User.constructor | controllers/sakeController.js:122 | a user starts with the given duplicate-free hearts |
| SakeController.User.HeartSake | controllers/sakeController.js:121-133 | `$pull` iff the id is hearted, else `$addToSet`; the new hearts are the toggle, flip the id only, and stay duplicate-free |
| SakeController.GetHeartsExact | controllers/sakeController.js:135-141 | the hearted sakes are exactly the stored sakes whose id is hearted |
| SakeController.SakesByTagEmpty | controllers/sakeController.js:108-119 | the sake tag page shows no tags and no sakes, whatever the tag |
| SakeController.GetSakeBySlug | controllers/sakeController.js:97-106 | not found iff no sake has the slug; a rendered sake is stored and has it |
| LocationController.SaveNewLocation | controllers/locationController.js:49 | `new Location(req.body).save()` fails with the validators' errors of the trimmed form, or, when those are none and the index refuses its `location`, with `NotAPoint`; otherwise it stores exactly the trimmed name, its de-duplicated slug, the trimmed description, the tags, the current time, the `location` with its coordinates as given, the photo and the author |
| LocationController.CreateLocation | controllers/locationController.js:47-52 | the author becomes the user; creation fails iff the form with that author is invalid (never for a missing author) or its `location` is not a point the index accepts, the latter with `NotAPoint` when the form is valid; otherwise the stored location is the one `SaveNewLocation` describes, with the user as author |
| LocationController.ConfirmOwner | controllers/locationController.js:59-63 | throws "You must own this store to edit" iff the author is not the user |
| LocationController.EditLocationOwnerOnly | controllers/locationController.js:65-69 | the edit page renders only a stored location with the id and the user as author; a missing id crashes |
| LocationController.EditLocationAuthorAllowed | controllers/locationController.js:65-69 | the author of a location gets its edit page |
| LocationController.UpdateLocation | controllers/locationController.js:71-89 | without a location object the handler throws; otherwise the type becomes "Point"; a missing id crashes on the `null` result; an update whose coordinates are not a point the index accepts (a blank one included) is refused; otherwise the location becomes `ApplyUpdate` of the stored one |
| LocationController.UpdateKeepsSlug | controllers/locationController.js:73-81 | an update keeps id, slug and creation time, sets type "Point", takes a given name, and writes the coordinates as given, element for element |
| LocationController.UpdateRefusesBlankCoordinate | controllers/locationController.js:74-81 | a form with a blank coordinate is never an indexable point, so that update is refused rather than stored |
| LocationController.GetLocationBySlug | controllers/locationController.js:91-100 | not found iff no location has the slug; a rendered location is stored and has it |
| LocationController.LocationsByTagAll | controllers/locationController.js:102-114 | with no tag every stored location is listed |
| LocationController.LocationsByTagExact | controllers/locationController.js:106-108 | with a tag exactly the locations carrying it are listed |
| LocationController.SearchLocationsCorrect | controllers/locationController.js:116-132 | at most five results, min(5, matches) of them; all match, ordered by score, and none left out scores higher |
| LocationController.MapQueryPoint | controllers/locationController.js:135-149 | the query point is `[lng, lat]` in that order (section 3.1.1 of RFC 7946), with `$maxDistance` 10000 and limit 10 |
| LocationController.MapLocations | controllers/locationController.js:134-151 | the request fails iff the parsed `[lng, lat]` is NaN or out of range; otherwise each entry is the selected fields of the corresponding location nearest to the query point `[lng, lat]` of `MapQuery` |
| LocationController.MapAnswerFollowsPoint | controllers/locationController.js:134-151 | the answer depends on the requested point: a location at `[0, 0]` is listed for a query there and not for one in Tokyo |
| LocationController.MapLocationsRefusals | controllers/locationController.js:135-147 | a NaN longitude or latitude, or a latitude past a pole, fails the map request; a point in Tokyo does not |
| LocationController.MapLocationsCorrect | controllers/locationController.js:134-151 | the query point is `[lng, lat]`; at most ten entries, all from locations within 10 km of that point, ordered by distance from it, none left out nearer to it |
| LocationController.NearestWithinRadius | controllers/locationController.js:143 | every result is stored and within `$maxDistance` of the query point |
| LocationController.NearestOfOne | controllers/locationController.js:138-149 | with a single stored location, `$near` lists it exactly when it is within the radius of the query point |
| LocationController.NearestAscending | controllers/locationController.js:138-149 | results are ordered nearest to the query point first |
| LocationController.NearestAreNearest | controllers/locationController.js:138-149 | no location within the radius that the limit left out is nearer to the query point than one shown |

## Left out

- The slug library. `slugify` is a function parameter; its transliteration rules are not part of this model.
- Slug characters. Stored slugs and bases are assumed to hold no regular-expression metacharacters, which slugified text does not contain.
- Case folding. Only ASCII letters are folded, not the full Unicode case folding of the `i` flag.
- Concurrency. Two saves running at once can both count the same stored slugs and pick the same suffix. The model runs one save at a time, and `Promise.all` is sequenced.
- SakeController.User.HeartSake: decides between `$pull` and `$addToSet` and writes on one state, whereas `heartSake` decides from the session's copy of `req.user.hearts` and the store applies the operator later, so two toggles running at once can both add; that race is not modelled.
- Anonymous requests. The routes of `createLocation`, `editLocation` and `heartSake` carry no `isLoggedIn`, so without a signed-in user reading `req.user._id` throws; the model always takes a signed-in user (`userId`, `User`) and does not model that failure.
- Non-numeric coordinates. A form coordinate is a number or blank (`Option<real>`); a text such as "abc", on which Mongoose records a cast error for the `Number` path and `save()` fails, is not modelled.
- The image pipeline. multer's memory storage and jimp's read, resize and write are I/O; only the filter and the file name are modelled, with the uuid as an input.
- Floating point. `$avg` is modelled as an exact `real` mean; IEEE rounding is not modelled.
- Text search. The relevance score and the matching are parameters of `SearchLocations`; MongoDB's stemming and tokenising are not modelled.
- Geodesy. The spherical distance of `$near` is a parameter, a function of the query point and the stored `location`; its spherical formula is not modelled. Parsing the query strings with `parseFloat` is reduced to a number or NaN given as input.
- Ordering of queries. `findOne` and an unsorted `find` use the store's natural order, which is modelled as the order of the input sequence. The listing's `sort({created: "desc"})` names a field the sake schema does not have, so the listing takes its order as an input.
- Page parameter. A non-numeric `:page` string, which would make the skip NaN, is not modelled; the page is an integer or absent.
- ObjectIds. An id that fails to cast is not modelled; ids are strings compared for equality.
- Update validators. The validators and setters that `runValidators` runs on `findOneAndUpdate` are not modelled. Apart from the index's refusal of a `location` that is not a point, the update applies the form's fields as given.
- LocationController.ApplyUpdate: replaces the stored `location` object as a whole when the form sends any part of it, with an absent address written as the empty string, rather than modelling Mongoose's casting of a partial sub-document.
- The `reviews` virtual and the autopopulate hooks of the sake schema. They only attach data for rendering.
- Views. Flash messages and `render`, `redirect` and `json` output are not modelled; handlers return what they would show, redirect to or fail with.
- Render-only handlers: `homePage`, `addLocation`, `addSake`, `getLocations`, `editSake` and `mapPage`, which have no logic beyond a query and a view.
- Routes and the browser map script. The routes are middleware wiring, and the map script is browser UI over a maps API.
- Index creation. Building the text and `2dsphere` indexes is store configuration. The `2dsphere` index's refusal of a document whose `location` is not a point is modelled.
