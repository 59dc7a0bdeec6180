/**
 * The `getTagsList` aggregation shared by both schemas:
 * `$unwind: "$tags"`, `$group: {_id: "$tags", count: {$sum: 1}}`,
 * `$sort: {count: -1}`; and the tag filter of the tag pages, `{tags: tag}` or
 * `{tags: {$exists: true}}`.
 */
module TagList {
  import opened Wrappers
  import opened Seqs
  import opened Ranking

  /** One output document of the pipeline: `{_id: tag, count}`. */
  datatype TagCount = TagCount(tag: string, count: nat)

  /** `$unwind`: one entry per (document, tag) pair, documents in order. */
  function Unwind(docs: seq<seq<string>>): (flat: seq<string>)
    ensures forall t :: multiset(flat)[t] == Occurrences(docs, t)
  {
    if docs == [] then []
    else
      var rest := Unwind(docs[1..]);
      assert multiset(docs[0] + rest) == multiset(docs[0]) + multiset(rest);
      docs[0] + rest
  }

  /** How many times `t` appears in the tag lists of `docs`, counting each document's list. */
  function Occurrences(docs: seq<seq<string>>, t: string): nat {
    if docs == [] then 0 else multiset(docs[0])[t] + Occurrences(docs[1..], t)
  }

  /** Total length of all tag lists. */
  function TotalTags(docs: seq<seq<string>>): nat {
    if docs == [] then 0 else |docs[0]| + TotalTags(docs[1..])
  }

  /** The distinct values of `xs`, in order of first appearance. */
  function Distinct(xs: seq<string>): (d: seq<string>)
    ensures NoDup(d)
    ensures forall t :: t in d <==> t in xs
  {
    if xs == [] then []
    else
      var d := Distinct(xs[..|xs| - 1]);
      var x := xs[|xs| - 1];
      assert xs == xs[..|xs| - 1] + [x];
      if x in d then d else d + [x]
  }

  /** Each tag of `d` with its number of occurrences in `xs`. */
  function Counted(d: seq<string>, xs: seq<string>): (r: seq<TagCount>)
    ensures |r| == |d|
    ensures forall i :: 0 <= i < |d| ==> r[i] == TagCount(d[i], multiset(xs)[d[i]])
  {
    if d == [] then [] else [TagCount(d[0], multiset(xs)[d[0]])] + Counted(d[1..], xs)
  }

  /** `$group`: one count per distinct tag (MongoDB leaves the group order unspecified). */
  function Group(xs: seq<string>): seq<TagCount> {
    Counted(Distinct(xs), xs)
  }

  function CountKey(e: TagCount): real {
    e.count as real
  }

  /** The whole pipeline over the `tags` arrays of the collection's documents. */
  function TagsList(docs: seq<seq<string>>): seq<TagCount> {
    SortDesc(Group(Unwind(docs)), CountKey)
  }

  function TagsOf(out: seq<TagCount>): set<string> {
    set e | e in out :: e.tag
  }

  /** What the pipeline is for: one entry per tag in use, its usage count, most used first. */
  ghost predicate IsTagsList(docs: seq<seq<string>>, out: seq<TagCount>) {
    && (forall i :: 0 <= i < |out| ==> out[i].count == Occurrences(docs, out[i].tag))
    && (forall i, j :: 0 <= i < j < |out| ==> out[i].tag != out[j].tag)
    && (forall t :: t in TagsOf(out) <==> Occurrences(docs, t) > 0)
    && (forall i, j :: 0 <= i < j < |out| ==> out[i].count >= out[j].count)
  }

  lemma TagsListCorrect(docs: seq<seq<string>>)
    ensures IsTagsList(docs, TagsList(docs))
  {
    var g := Group(Unwind(docs));
    var out := TagsList(docs);
    assert multiset(out) == multiset(g);
    GroupCorrect(docs);
    EntriesKept(docs, g, out);
    DistinctTagsKept(g, out);
    forall i, j | 0 <= i < j < |out| ensures out[i].count >= out[j].count {
      assert CountKey(out[i]) >= CountKey(out[j]);
    }
  }

  /** The `$group` stage alone: distinct tags, each with its usage count, covering every tag in use. */
  lemma GroupCorrect(docs: seq<seq<string>>)
    ensures var g := Group(Unwind(docs));
            && (forall i :: 0 <= i < |g| ==> g[i].count == Occurrences(docs, g[i].tag))
            && (forall i, j :: 0 <= i < j < |g| ==> g[i].tag != g[j].tag)
            && (forall t :: t in TagsOf(g) <==> Occurrences(docs, t) > 0)
  {
    var flat := Unwind(docs);
    GroupTags(flat);
    var g := Group(flat);
    forall t ensures t in TagsOf(g) <==> Occurrences(docs, t) > 0 {
      assert multiset(flat)[t] == Occurrences(docs, t);
      assert t in flat <==> t in multiset(flat);
    }
  }

  lemma GroupTags(flat: seq<string>)
    ensures var g := Group(flat);
            && (forall i :: 0 <= i < |g| ==> g[i].count == multiset(flat)[g[i].tag])
            && (forall i, j :: 0 <= i < j < |g| ==> g[i].tag != g[j].tag)
            && (forall t :: t in TagsOf(g) <==> t in flat)
  {
    var d := Distinct(flat);
    var g := Group(flat);
    assert forall i :: 0 <= i < |g| ==> g[i].tag == d[i];
    forall t | t in flat ensures t in TagsOf(g) {
      var k :| 0 <= k < |d| && d[k] == t;
      assert g[k] in g;
    }
  }

  /** Sorting keeps the entries: per-entry facts and the set of tags carry over to a permutation. */
  lemma EntriesKept(docs: seq<seq<string>>, g: seq<TagCount>, out: seq<TagCount>)
    requires multiset(out) == multiset(g)
    requires forall i :: 0 <= i < |g| ==> g[i].count == Occurrences(docs, g[i].tag)
    requires forall t :: t in TagsOf(g) <==> Occurrences(docs, t) > 0
    ensures forall i :: 0 <= i < |out| ==> out[i].count == Occurrences(docs, out[i].tag)
    ensures forall t :: t in TagsOf(out) <==> Occurrences(docs, t) > 0
  {
    forall i | 0 <= i < |out| ensures out[i].count == Occurrences(docs, out[i].tag) {
      assert out[i] in multiset(g);
    }
    forall e ensures e in out <==> e in g {
      assert e in out <==> e in multiset(out);
      assert e in g <==> e in multiset(g);
    }
    assert TagsOf(out) == TagsOf(g);
  }

  /** Tags distinct along `g` stay distinct along any permutation of `g`. */
  lemma DistinctTagsKept(g: seq<TagCount>, out: seq<TagCount>)
    requires forall i, j :: 0 <= i < j < |g| ==> g[i].tag != g[j].tag
    requires multiset(out) == multiset(g)
    ensures forall i, j :: 0 <= i < j < |out| ==> out[i].tag != out[j].tag
  {
    forall i, j | 0 <= i < j < |out| ensures out[i].tag != out[j].tag {
      if out[i].tag == out[j].tag {
        assert out[i] in multiset(g) && out[j] in multiset(g);
        var a :| 0 <= a < |g| && g[a] == out[i];
        var b :| 0 <= b < |g| && g[b] == out[j];
        assert a == b;
        assert multiset(out)[g[a]] >= 2 by {
          assert out == out[..j] + [out[j]] + out[j + 1..];
          assert out[i] in out[..j];
        }
        DistinctAtMostOnce(g, a);
      }
    }
  }

  /** An entry of a list with distinct tags occurs in it only once. */
  lemma DistinctAtMostOnce(g: seq<TagCount>, a: nat)
    requires a < |g|
    requires forall i, j :: 0 <= i < j < |g| ==> g[i].tag != g[j].tag
    ensures multiset(g)[g[a]] == 1
  {
    var e := g[a];
    assert g == g[..a] + [e] + g[a + 1..];
    assert e !in g[..a] && e !in g[a + 1..] by {
      forall i | 0 <= i < |g| && i != a ensures g[i] != e {
        if i < a { assert g[i].tag != g[a].tag; } else { assert g[a].tag != g[i].tag; }
      }
    }
  }

  /** Every entry has a positive count. */
  lemma TagsListCountsPositive(docs: seq<seq<string>>)
    ensures forall e :: e in TagsList(docs) ==> e.count >= 1
  {
    TagsListCorrect(docs);
    var out := TagsList(docs);
    forall e | e in out ensures e.count >= 1 {
      assert e.tag in TagsOf(out);
    }
  }

  /** The counts add up to the total number of (document, tag) pairs. */
  lemma TagsListSum(docs: seq<seq<string>>)
    ensures Sum(TagsList(docs), CountKeyInt) == TotalTags(docs)
  {
    var flat := Unwind(docs);
    SumPermutation(TagsList(docs), Group(flat), CountKeyInt);
    CountedCovers(Distinct(flat), flat);
    UnwindLength(docs);
  }

  function CountKeyInt(e: TagCount): int {
    e.count
  }

  lemma {:induction false} UnwindLength(docs: seq<seq<string>>)
    ensures |Unwind(docs)| == TotalTags(docs)
  {
    if docs != [] {
      UnwindLength(docs[1..]);
    }
  }

  /** Appending `x` to the counted text adds one to the sum exactly when `x` is among the counted tags. */
  lemma {:induction false} CountedSnoc(d: seq<string>, xs: seq<string>, x: string)
    requires NoDup(d)
    ensures Sum(Counted(d, xs + [x]), CountKeyInt) ==
            Sum(Counted(d, xs), CountKeyInt) + (if x in d then 1 else 0)
  {
    if d != [] {
      assert NoDup(d[1..]) by {
        forall i, j | 0 <= i < j < |d| - 1 ensures d[1..][i] != d[1..][j] {
          assert d[i + 1] != d[j + 1];
        }
      }
      CountedSnoc(d[1..], xs, x);
      assert multiset(xs + [x]) == multiset(xs) + multiset{x};
      assert d[0] == x ==> x !in d[1..];
      assert x in d <==> x == d[0] || x in d[1..];
    }
  }

  /** Counting every tag of `xs` over a duplicate-free list covering them sums to `|xs|`. */
  lemma {:induction false} CountedCovers(d: seq<string>, xs: seq<string>)
    requires NoDup(d)
    requires forall t :: t in xs ==> t in d
    ensures Sum(Counted(d, xs), CountKeyInt) == |xs|
  {
    if xs == [] {
      CountedNothing(d);
    } else {
      var init, x := xs[..|xs| - 1], xs[|xs| - 1];
      assert xs == init + [x];
      CountedCovers(d, init);
      CountedSnoc(d, init, x);
    }
  }

  lemma {:induction false} CountedNothing(d: seq<string>)
    ensures Sum(Counted(d, []), CountKeyInt) == 0
  {
    if d != [] {
      CountedNothing(d[1..]);
    }
  }

  lemma {:induction false} UnwindConcat(a: seq<seq<string>>, b: seq<seq<string>>)
    ensures Unwind(a + b) == Unwind(a) + Unwind(b)
  {
    if a == [] {
      assert a + b == b;
    } else {
      assert (a + b)[1..] == a[1..] + b;
      UnwindConcat(a[1..], b);
    }
  }

  /** A document with an empty `tags` array does not change the result. */
  lemma EmptyTagsContributeNothing(docs: seq<seq<string>>, i: nat)
    requires i < |docs| && docs[i] == []
    ensures TagsList(docs) == TagsList(docs[..i] + docs[i + 1..])
  {
    var a, b := docs[..i], docs[i + 1..];
    assert docs == a + [[]] + b;
    UnwindConcat(a + [[]], b);
    UnwindConcat(a, [[]]);
    assert Unwind([[]]) == [];
    assert Unwind(a + [[]]) == Unwind(a);
    UnwindConcat(a, b);
    assert Unwind(docs) == Unwind(a + b);
  }

  /** The worked example: tags `[["a","b"],["a"],[]]` give `a:2` before `b:1`. */
  lemma TagsListExample()
    ensures TagsList([["a", "b"], ["a"], []]) == [TagCount("a", 2), TagCount("b", 1)]
  {
    ExampleUnwind();
    ExampleGroup();
    ExampleSort();
  }

  lemma ExampleUnwind()
    ensures Unwind([["a", "b"], ["a"], []]) == ["a", "b", "a"]
  {
    var docs: seq<seq<string>> := [["a", "b"], ["a"], []];
    assert Unwind(docs[2..]) == [];
    assert Unwind(docs[1..]) == ["a"];
  }

  lemma ExampleGroup()
    ensures Group(["a", "b", "a"]) == [TagCount("a", 2), TagCount("b", 1)]
  {
    var flat := ["a", "b", "a"];
    assert Distinct(flat[..1]) == ["a"] by {
      assert flat[..1][..0] == [];
    }
    assert Distinct(flat[..2]) == ["a", "b"] by {
      assert flat[..2][..1] == flat[..1];
    }
    assert Distinct(flat) == ["a", "b"];
    assert multiset(flat)["a"] == 2 && multiset(flat)["b"] == 1;
  }

  lemma ExampleSort()
    ensures SortDesc([TagCount("a", 2), TagCount("b", 1)], CountKey) == [TagCount("a", 2), TagCount("b", 1)]
  {
    var g := [TagCount("a", 2), TagCount("b", 1)];
    assert SortDesc(g[..1], CountKey) == [TagCount("a", 2)] by {
      assert g[..1][..0] == [];
    }
    assert SortDesc(g, CountKey) == Insert([TagCount("a", 2)], TagCount("b", 1), CountKey);
  }

  /** The filter of the tag pages: one tag, or every document that has a `tags` field. */
  datatype TagQuery = HasTag(tag: string) | TagsExist

  /** `tag || { $exists: true }` for the route parameter `tag` (absent, or a string that may be empty). */
  function TagQueryFor(param: Option<string>): (q: TagQuery)
    ensures q.HasTag? <==> param.Some? && param.value != ""
    ensures q.HasTag? ==> q.tag == param.value
  {
    match param
    case Some(t) => if t != "" then HasTag(t) else TagsExist
    case None => TagsExist
  }

  /** Whether a document whose `tags` field is `tags` (absent when `None`) satisfies the filter. */
  predicate TagQueryMatches(q: TagQuery, tags: Option<seq<string>>) {
    match q
    case HasTag(t) => tags.Some? && t in tags.value
    case TagsExist => tags.Some?
  }
}
