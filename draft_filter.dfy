/** The publication filter: `(await getCollection("garden")).filter((post) => !post.data.draft)`. */
module DraftFilter {
  import opened Posts

  /** How many posts of `posts` are not drafts. Counted from the back, so that
      `NonDraftCount(posts[..i])` is the rank a published post at index `i`
      takes among the published posts. */
  function NonDraftCount(posts: seq<Post>): nat
  {
    if posts == [] then 0
    else NonDraftCount(posts[..|posts| - 1]) + (if posts[|posts| - 1].data.draft then 0 else 1)
  }

  /** The posts of `posts` whose draft flag is clear, in their original order
      (FilterPlacesByRank says where each one lands). */
  function FilterDrafts(posts: seq<Post>): (blog: seq<Post>)
    ensures |blog| == NonDraftCount(posts)
    ensures forall p :: p in blog ==> p in posts && !p.data.draft
  {
    if posts == [] then []
    else
      var init, last := posts[..|posts| - 1], posts[|posts| - 1];
      FilterDrafts(init) + (if last.data.draft then [] else [last])
  }

  /** Every published post at index `i` lands at its rank among the published
      posts. With the length of FilterDrafts this makes the result exactly the
      order-preserving subsequence of published posts. */
  lemma {:induction false} FilterPlacesByRank(posts: seq<Post>, i: nat)
    requires i < |posts| && !posts[i].data.draft
    ensures NonDraftCount(posts[..i]) < |FilterDrafts(posts)|
    ensures FilterDrafts(posts)[NonDraftCount(posts[..i])] == posts[i]
  {
    var init := posts[..|posts| - 1];
    if i < |posts| - 1 {
      assert init[..i] == posts[..i];
      FilterPlacesByRank(init, i);
    } else {
      assert init == posts[..i];
    }
  }

  /** Counting published posts is monotone along prefixes. */
  lemma {:induction false} NonDraftCountMonotone(posts: seq<Post>, i: nat, j: nat)
    requires i <= j <= |posts|
    ensures NonDraftCount(posts[..i]) <= NonDraftCount(posts[..j])
  {
    if i < j {
      assert posts[..j][..j - 1] == posts[..j - 1];
      NonDraftCountMonotone(posts, i, j - 1);
    }
  }

  /** Two published posts keep their relative order through the filter. */
  lemma FilterPreservesOrder(posts: seq<Post>, i: nat, j: nat)
    requires i < j < |posts|
    requires !posts[i].data.draft && !posts[j].data.draft
    ensures NonDraftCount(posts[..i]) < NonDraftCount(posts[..j]) < |FilterDrafts(posts)|
    ensures FilterDrafts(posts)[NonDraftCount(posts[..i])] == posts[i]
    ensures FilterDrafts(posts)[NonDraftCount(posts[..j])] == posts[j]
  {
    assert posts[..i + 1][..i] == posts[..i];
    NonDraftCountMonotone(posts, i + 1, j);
    FilterPlacesByRank(posts, i);
    FilterPlacesByRank(posts, j);
  }

  /** A post survives the filter exactly when it is in the input and is not a draft. */
  lemma FilterMembership(posts: seq<Post>, p: Post)
    ensures p in FilterDrafts(posts) <==> p in posts && !p.data.draft
  {
    if p in posts && !p.data.draft {
      var i :| 0 <= i < |posts| && posts[i] == p;
      FilterPlacesByRank(posts, i);
    }
  }

  /** Filtering an already filtered collection changes nothing. */
  lemma {:induction false} FilterIdempotent(posts: seq<Post>)
    ensures FilterDrafts(FilterDrafts(posts)) == FilterDrafts(posts)
  {
    if posts != [] {
      var init, last := posts[..|posts| - 1], posts[|posts| - 1];
      FilterIdempotent(init);
      var kept := if last.data.draft then [] else [last];
      var blog := FilterDrafts(init) + kept;
      if kept == [] {
        assert blog == FilterDrafts(init);
      } else {
        assert blog[..|blog| - 1] == FilterDrafts(init);
      }
    }
  }
}
