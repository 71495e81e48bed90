/** The entries of the "garden" content collection that the feed is built from. */
module Posts {

  /** A post's front matter (its `data` object). `date` is the post's
      timestamp in milliseconds, the value `new Date(date).valueOf()` yields
      for a valid date; a missing `draft` flag reads as `false`. */
  datatype PostData = PostData(title: string, description: string, date: int, draft: bool)

  /** One collection entry: the collection it belongs to, its slug, its raw
      markdown body and its front matter. */
  datatype Post = Post(collection: string, slug: string, body: string, data: PostData)
}
