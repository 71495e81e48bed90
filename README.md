# Garden RSS feed pipeline, in Dafny

This project models the feed endpoint of the site, `GET` in
`src/pages/rss.xml.ts`. It takes the entries of the "garden" content
collection and produces the options object that the feed serialiser receives.
The pipeline has three steps:

1. **Draft filter.** Every post whose front matter sets `draft` is dropped
   (`DraftFilter`).
2. **Date sort.** A copy of the remaining posts is sorted newest first with
   the comparator `dateOf(b) - dateOf(a)`. The JavaScript sort is stable, so
   posts with equal dates keep their filtered order (`DateSort`).
3. **Item mapping.** Each post becomes a feed item (`FeedItems`):
   - title, description and publication date are copied from the front matter;
   - the content is the sanitised markdown rendering of the body, with
     sanitize-html's default tags plus `img` allowed;
   - the link is `/` + collection + `/` + slug + `/`.

`Rss.Get` puts the three steps together and adds the channel metadata: the
home page's title and description, `trailingSlash: false` and the caller's
`site`. `Posts` holds the data model. Every operation is a pure function of
its inputs. Posts, items and collections are immutable values.

Some modelling details follow:

- **Timestamps.** Dates are integer millisecond timestamps. For a valid date,
  that is the value `new Date(...).valueOf()` yields. JavaScript subtracts
  two such values in floating point, so the difference can be rounded when
  it exceeds 2^53. Its sign is always right, though, and it is zero only when
  the dates are equal. `sort` reads only that sign, so integer subtraction in
  `DateSort.Compare` orders posts exactly as the source's comparator does.
- **The sort algorithm.** The sort is an insertion sort.
  `DateSort.StableSortIsUnique` proves that exactly one sequence is a
  permutation of the input, newest first, and stable. So every correct stable
  sort with this comparator, whatever algorithm the engine uses, returns what
  `SortByDate` returns.
- **Sorting a copy.** The source sorts a spread copy (`[...blog]`), which
  leaves `blog` unchanged. Here `blog` is a sequence value, so the sort cannot
  change it. The property holds by construction.
- **Foreign libraries.** markdown-it's `render`, sanitize-html's
  `sanitizeHtml` and sanitize-html's `defaults.allowedTags` are inputs,
  bundled in `FeedItems.Markup`. The feed is stated in terms of whatever
  they return.

Two more facts about the source shape the model:

- The channel title and description are always the constants `HOME.TITLE`
  and `HOME.DESCRIPTION` (src/consts.ts:11-14).
- Links are root-relative: `/${collection}/${slug}/`.

## Model

| member | source | states |
|---|---|---|
| `DraftFilter.FilterDrafts` | src/pages/rss.xml.ts:13-15 | the filtered collection has one entry per non-draft post, and every entry is a post of the input that is not a draft |
| `DraftFilter.FilterPlacesByRank` | src/pages/rss.xml.ts:13-15 | the non-draft post at input index i lands at position "number of non-draft posts before i"; with the length, this makes the result exactly the order-preserving subsequence of non-draft posts |
| `DraftFilter.FilterPreservesOrder` | src/pages/rss.xml.ts:13-15 | two non-draft posts at i < j come out at positions in the same order |
| `DraftFilter.FilterMembership` | src/pages/rss.xml.ts:13-15 | a post is in the filtered collection if and only if it is in the input and is not a draft |
| `DraftFilter.FilterIdempotent` | src/pages/rss.xml.ts:13-15 | filtering the filtered collection again changes nothing |
| `DraftFilter.NonDraftCountMonotone` | src/pages/rss.xml.ts:13-15 | helper about the count `NonDraftCount`: a longer prefix never holds fewer non-draft posts |
| `DateSort.Compare` | src/pages/rss.xml.ts:18 | the comparator is non-positive (so `sort` keeps `a` ahead of `b`) exactly when `a` is at least as new as `b` |
| `DateSort.DescendingByComparator` | src/pages/rss.xml.ts:17-19 | a sequence is newest first if and only if the comparator never puts a post after its right-hand neighbour, i.e. `Compare(r[i], r[i+1]) <= 0` for all neighbours |
| `DateSort.Insert` | src/pages/rss.xml.ts:17-19 | inserting a post adds exactly that post to the multiset of posts |
| `DateSort.InsertKeepsDescending` | src/pages/rss.xml.ts:17-19 | inserting into a newest-first sequence leaves it newest first |
| `DateSort.SortByDate` | src/pages/rss.xml.ts:17-19 | the sorted sequence is a permutation of its input (same multiset, same length), and no post is followed by a strictly newer one |
| `DateSort.InsertWithDate` | src/pages/rss.xml.ts:17-19 | insertion puts the post ahead of every post that has the same date |
| `DateSort.SortIsStable` | src/pages/rss.xml.ts:17-19 | for every timestamp, the posts with that timestamp come out in their input order (the stability of `Array.prototype.sort`) |
| `DateSort.StableSortIsUnique` | src/pages/rss.xml.ts:17-19 | any permutation of the input that is newest first and stable equals the sort result |
| `DateSort.SortedStableEqual` | src/pages/rss.xml.ts:17-19 | two newest-first permutations of each other that agree on every per-date subsequence are equal |
| `DateSort.WithDateCons` | src/pages/rss.xml.ts:17-19 | helper about the selector `WithDate`: it handles a sequence one post at a time from the front |
| `DateSort.DescendingCons` | src/pages/rss.xml.ts:17-19 | helper about the predicate `Descending`: a post at least as new as every post of a newest-first sequence can lead it |
| `FeedItems.AllowedTags` | src/pages/rss.xml.ts:31 | the allow-list is the library defaults, unchanged and in order, followed by `img`; a tag is allowed if and only if it is a default or `img` |
| `FeedItems.Link` | src/pages/rss.xml.ts:33 | the link starts and ends with `/`, is 3 characters longer than collection and slug together, and is the `/`-join of an empty head, the collection, the slug and an empty tail |
| `FeedItems.LinkSegments` | src/pages/rss.xml.ts:33 | if the collection and the slug contain no `/`, splitting the link on `/` gives back exactly an empty head, the collection, the slug and an empty tail |
| `FeedItems.SplitJoin` | src/pages/rss.xml.ts:33 | splitting on a separator undoes joining with it, for pieces that do not contain the separator |
| `FeedItems.ToItem` | src/pages/rss.xml.ts:26-34 | the item copies title, description and date from the post's front matter; its content is exactly sanitize(render(body), AllowedTags), the library defaults followed by `img`; its link is exactly `Link(collection, slug)`, so it starts and ends with `/`, and when collection and slug have no `/` it splits into exactly an empty head, the collection, the slug and an empty tail |
| `FeedItems.MapItems` | src/pages/rss.xml.ts:26-34 | one item per sorted post, in the same order; item k copies title, description and date from post k, its content is sanitize(render(body), defaults + ["img"]), and its link is "/" + collection + "/" + slug + "/" |
| `FeedItems.MapItemsAppend` | src/pages/rss.xml.ts:26-34 | mapping a concatenation is the concatenation of the mappings |
| `Rss.Get` | src/pages/rss.xml.ts:12-36 | the feed carries the home title and description, `trailingSlash` false and the caller's site; it has one item per non-draft post; item dates never increase along the feed |
| `Rss.GetItemsArePublished` | src/pages/rss.xml.ts:13-34 | every feed item is the item of a post from the collection that is not a draft, so no draft reaches the feed |
| `Rss.GetListsEveryPublishedPost` | src/pages/rss.xml.ts:13-34 | every non-draft post of the collection has its item in the feed |
| `Rss.SortedHasPublished` | src/pages/rss.xml.ts:13-19 | a non-draft post survives both the filter and the sort |
| `Rss.MapItemsDated` | src/pages/rss.xml.ts:26-34 | selecting items by date gives the mapping of the posts selected by the same date |
| `Rss.GetKeepsTieOrder` | src/pages/rss.xml.ts:13-34 | feed items that share a date appear in the order their posts have in the filtered collection |
| `Rss.GetIsAnyStableSort` | src/pages/rss.xml.ts:13-34 | mapping any stable, newest-first permutation of the filtered collection gives exactly the feed's items |
| `Rss.ScenarioNewestFirst` | src/pages/rss.xml.ts:17-19 | posts dated 2024-01-01 and 2024-06-01 give the June item first |
| `Rss.FilterKeepsTwoPublished` | src/pages/rss.xml.ts:13-15 | two posts that are not drafts both pass the filter, in their order |
| `Rss.SortSwapsTwo` | src/pages/rss.xml.ts:17-19 | an older post followed by a newer one comes out newer first |
| `Rss.ScenarioDraftOnly` | src/pages/rss.xml.ts:13-15 | a collection holding only a draft gives a feed with no items |

## Left out

- `getCollection("garden")` is asynchronous I/O against the content store. Its result is the `garden` input of `Rss.Get`.
- markdown-it and sanitize-html are foreign libraries whose code is not part of this model. They are the function-valued fields of `FeedItems.Markup`. No claim is made about what sanitisation removes or keeps, such as scripts, event handlers or `img`.
- Serialisation by `@astrojs/rss` is a foreign library. The model stops at the options object `Rss.Feed`. How `site` and `trailingSlash: false` affect the final XML and links is not modelled.
- The source has no per-item error isolation: a throw from `parser.render` or `sanitizeHtml`, or a rejected `getCollection`, rejects the whole `GET`, and there is no fallback to literal text. The model treats the renderer and the sanitiser as total functions and the collection as an input value, so it has no failure path.
- Date parsing by `new Date(...)` is not modelled. Dates are valid millisecond timestamps. An unparsable date gives `NaN` in the source, which makes the comparator inconsistent. The model does not represent that case, and it adds no exclusion or error the source lacks.
- The in-place mutation of the spread copy by `sort` is not modelled. The sort is a function on a sequence value, so the filtered collection is unchanged by construction.
- `pubDate` is the front matter's date value in the source. Here it is the timestamp that value denotes.
- src/consts.ts holds constant data only. The feed uses `HOME.TITLE` and `HOME.DESCRIPTION` (src/consts.ts:11-14), which appear as `Rss.HomeTitle` and `Rss.HomeDescription`. The other constants are not used by the feed.
- The `Promise.allSettled` snippet under src/content/garden/ is an article's example and not site logic. astro.config.mjs is build configuration. Neither is part of this model.
