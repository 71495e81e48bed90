/** The feed endpoint `GET`: published garden posts, newest first, as feed
    items, together with the channel metadata handed to the serialiser. */
module Rss {
  import opened Posts
  import opened DraftFilter
  import opened DateSort
  import opened FeedItems

  /** The site's home-page title and description, used as channel metadata. */
  const HomeTitle: string := "Home"
  const HomeDescription: string := "Astro Nano is a minimal and lightweight blog and portfolio."

  /** The options object passed to the feed serialiser. */
  datatype Feed = Feed(title: string, description: string, trailingSlash: bool, site: string, items: seq<FeedItem>)

  /** The items of `items` whose publication date is `t`, in order: the
      counterpart for items of `DateSort.WithDate` for posts, related to it by
      MapItemsDated. */
  function ItemsDated(items: seq<FeedItem>, t: int): seq<FeedItem>
  {
    if items == [] then []
    else (if items[0].pubDate == t then [items[0]] else []) + ItemsDated(items[1..], t)
  }

  /** `GET(context)`, given the collection `garden` that `getCollection("garden")`
      returns: drop drafts, sort a copy newest first, map each post to an item. */
  function Get(garden: seq<Post>, site: string, markup: Markup): (feed: Feed)
    ensures feed.title == HomeTitle && feed.description == HomeDescription
    ensures !feed.trailingSlash && feed.site == site
    ensures |feed.items| == NonDraftCount(garden)
    ensures forall i, j :: 0 <= i < j < |feed.items| ==> feed.items[i].pubDate >= feed.items[j].pubDate
  {
    var blog := FilterDrafts(garden);
    var items := SortByDate(blog);
    Feed(HomeTitle, HomeDescription, false, site, MapItems(items, markup))
  }

  /** Every item comes from a post of the collection that is not a draft. */
  lemma GetItemsArePublished(garden: seq<Post>, site: string, markup: Markup, k: nat)
    requires k < |Get(garden, site, markup).items|
    ensures exists p :: p in garden && !p.data.draft && Get(garden, site, markup).items[k] == ToItem(p, markup)
  {
    var sorted := SortByDate(FilterDrafts(garden));
    assert sorted[k] in multiset(FilterDrafts(garden));
    assert Get(garden, site, markup).items[k] == ToItem(sorted[k], markup);
  }

  /** Every post of the collection that is not a draft has its item in the feed. */
  lemma GetListsEveryPublishedPost(garden: seq<Post>, site: string, markup: Markup, p: Post)
    requires p in garden && !p.data.draft
    ensures ToItem(p, markup) in Get(garden, site, markup).items
  {
    var sorted := SortByDate(FilterDrafts(garden));
    SortedHasPublished(garden, p);
    var k :| 0 <= k < |sorted| && sorted[k] == p;
    assert MapItems(sorted, markup)[k] == ToItem(p, markup);
  }

  /** A published post survives the filter and the sort. */
  lemma SortedHasPublished(garden: seq<Post>, p: Post)
    requires p in garden && !p.data.draft
    ensures p in SortByDate(FilterDrafts(garden))
  {
    FilterMembership(garden, p);
    var blog := FilterDrafts(garden);
    assert p in multiset(blog);
    assert p in multiset(SortByDate(blog));
  }

  /** Selecting items by date commutes with the item mapping. */
  lemma {:induction false} MapItemsDated(posts: seq<Post>, markup: Markup, t: int)
    ensures ItemsDated(MapItems(posts, markup), t) == MapItems(WithDate(posts, t), markup)
  {
    if posts != [] {
      MapItemsDated(posts[1..], markup, t);
      var head := if posts[0].data.date == t then [posts[0]] else [];
      MapItemsAppend(head, WithDate(posts[1..], t), markup);
      assert MapItems(posts, markup)[1..] == MapItems(posts[1..], markup);
    }
  }

  /** Items that share a publication date appear in the order their posts
      have in the filtered collection. */
  lemma GetKeepsTieOrder(garden: seq<Post>, site: string, markup: Markup, t: int)
    ensures ItemsDated(Get(garden, site, markup).items, t) == MapItems(WithDate(FilterDrafts(garden), t), markup)
  {
    var blog := FilterDrafts(garden);
    SortIsStable(blog, t);
    MapItemsDated(SortByDate(blog), markup, t);
  }

  /** However the engine sorts, as long as the sort is stable and newest
      first, mapping its result gives the feed's items. */
  lemma GetIsAnyStableSort(garden: seq<Post>, site: string, markup: Markup, r: seq<Post>)
    requires multiset(r) == multiset(FilterDrafts(garden))
    requires Descending(r)
    requires forall t :: WithDate(r, t) == WithDate(FilterDrafts(garden), t)
    ensures MapItems(r, markup) == Get(garden, site, markup).items
  {
    StableSortIsUnique(FilterDrafts(garden), r);
  }

  /** Two published posts dated 2024-01-01 and 2024-06-01 (UTC, milliseconds):
      the June post comes first. */
  lemma ScenarioNewestFirst(markup: Markup)
    ensures
      var january := Post("garden", "new-year", "a", PostData("January", "", 1704067200000, false));
      var june := Post("garden", "mid-year", "b", PostData("June", "", 1717200000000, false));
      var feed := Get([january, june], "https://example.com", markup);
      |feed.items| == 2 && feed.items[0].title == "June" && feed.items[1].title == "January"
  {
    var january := Post("garden", "new-year", "a", PostData("January", "", 1704067200000, false));
    var june := Post("garden", "mid-year", "b", PostData("June", "", 1717200000000, false));
    FilterKeepsTwoPublished(january, june);
    SortSwapsTwo(january, june);
    var items := MapItems([june, january], markup);
    assert items[0].title == "June" && items[1].title == "January";
  }

  /** Two posts that are not drafts both pass the filter, in order. */
  lemma FilterKeepsTwoPublished(a: Post, b: Post)
    requires !a.data.draft && !b.data.draft
    ensures FilterDrafts([a, b]) == [a, b]
  {
    assert [a, b][..1] == [a] && [a][..0] == [];
    assert FilterDrafts([a]) == [a];
  }

  /** An older post followed by a newer one comes out swapped. */
  lemma SortSwapsTwo(older: Post, newer: Post)
    requires older.data.date < newer.data.date
    ensures SortByDate([older, newer]) == [newer, older]
  {
    assert [older, newer][1..] == [newer];
    assert SortByDate([newer]) == [newer];
    assert Insert(older, [newer]) == [newer] + Insert(older, []);
  }

  /** A collection holding only a draft gives a feed without items. */
  lemma ScenarioDraftOnly(markup: Markup)
    ensures Get([Post("garden", "wip", "", PostData("WIP", "", 0, true))], "https://example.com", markup).items == []
  {
  }
}
