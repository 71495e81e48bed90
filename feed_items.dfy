/** The item mapping: each sorted post becomes one feed item, with its content
    rendered from markdown and then sanitised, and its link built from the
    collection and the slug. */
module FeedItems {
  import opened Posts

  /** The two foreign libraries the mapping calls, as the values the feed
      receives: markdown-it's `render`, sanitize-html's `sanitizeHtml` (HTML
      and the allowed tag names in, HTML out) and sanitize-html's
      `defaults.allowedTags`. Their internals are not part of this model. */
  datatype Markup = Markup(
    render: string -> string,
    sanitize: (string, seq<string>) -> string,
    defaultAllowedTags: seq<string>)

  /** One feed item as handed to the feed serialiser. */
  datatype FeedItem = FeedItem(title: string, description: string, pubDate: int, content: string, link: string)

  /** The allow-list: sanitize-html's defaults followed by `"img"`. */
  function AllowedTags(markup: Markup): (tags: seq<string>)
    ensures |tags| == |markup.defaultAllowedTags| + 1 && tags[|tags| - 1] == "img"
    ensures tags[..|markup.defaultAllowedTags|] == markup.defaultAllowedTags
    ensures forall tag :: tag in tags <==> tag in markup.defaultAllowedTags || tag == "img"
  {
    markup.defaultAllowedTags + ["img"]
  }

  /** The parts of `parts` glued together with `sep` between neighbours. */
  function Join(parts: seq<string>, sep: char): string
    requires parts != []
  {
    if |parts| == 1 then parts[0] else parts[0] + [sep] + Join(parts[1..], sep)
  }

  /** The pieces of `s` between occurrences of `sep` (always at least one). */
  function Split(s: string, sep: char): (parts: seq<string>)
    ensures parts != []
    ensures forall k :: 0 <= k < |parts| ==> sep !in parts[k]
    ensures Join(parts, sep) == s
  {
    if s == [] then [""]
    else if s[0] == sep then
      var rest := Split(s[1..], sep);
      assert [s[0]] + s[1..] == s;
      [""] + rest
    else
      var rest := Split(s[1..], sep);
      var parts := [[s[0]] + rest[0]] + rest[1..];
      assert parts[1..] == rest[1..];
      assert s == [s[0]] + s[1..];
      parts
  }

  /** Splitting a piece free of `sep` followed by `sep` and more text yields
      that piece first. */
  lemma {:induction false} SplitAfterPiece(piece: string, sep: char, tail: string)
    requires sep !in piece
    ensures Split(piece + [sep] + tail, sep) == [piece] + Split(tail, sep)
  {
    if piece == [] {
      assert piece + [sep] + tail == [sep] + tail;
    } else {
      var s := piece + [sep] + tail;
      assert s[0] == piece[0] && s[1..] == piece[1..] + [sep] + tail;
      SplitAfterPiece(piece[1..], sep, tail);
      assert [piece[0]] + piece[1..] == piece;
    }
  }

  /** Join and Split are inverse on pieces that do not contain the separator. */
  lemma {:induction false} SplitJoin(parts: seq<string>, sep: char)
    requires parts != []
    requires forall k :: 0 <= k < |parts| ==> sep !in parts[k]
    ensures Split(Join(parts, sep), sep) == parts
  {
    if |parts| == 1 {
      SplitPiece(parts[0], sep);
    } else {
      SplitJoin(parts[1..], sep);
      SplitAfterPiece(parts[0], sep, Join(parts[1..], sep));
      assert [parts[0]] + parts[1..] == parts;
    }
  }

  /** A piece free of the separator splits into itself alone. */
  lemma {:induction false} SplitPiece(piece: string, sep: char)
    requires sep !in piece
    ensures Split(piece, sep) == [piece]
  {
    if piece != [] {
      SplitPiece(piece[1..], sep);
      assert [piece[0]] + piece[1..] == piece;
    }
  }

  /** The item link `/${collection}/${slug}/`: it starts and ends with `/`,
      and it is the path whose segments are the collection and the slug. */
  function Link(collection: string, slug: string): (link: string)
    ensures |link| == |collection| + |slug| + 3
    ensures link[0] == '/' && link[|link| - 1] == '/'
    ensures link == Join(["", collection, slug, ""], '/')
  {
    var parts: seq<string> := ["", collection, slug, ""];
    assert parts[1..] == [collection, slug, ""] && parts[1..][1..] == [slug, ""];
    assert parts[1..][1..][1..] == [""];
    assert Join([slug, ""], '/') == slug + "/";
    assert Join([collection, slug, ""], '/') == collection + "/" + slug + "/";
    "/" + collection + "/" + slug + "/"
  }

  /** When neither the collection nor the slug contains `/`, the link splits
      on `/` into exactly an empty head, the collection, the slug and an empty
      tail: the slug is one whole segment of the link. */
  lemma LinkSegments(collection: string, slug: string)
    requires '/' !in collection && '/' !in slug
    ensures Split(Link(collection, slug), '/') == ["", collection, slug, ""]
  {
    SplitJoin(["", collection, slug, ""], '/');
  }

  /** The item built from one post. */
  function ToItem(post: Post, markup: Markup): (item: FeedItem)
    ensures item.title == post.data.title && item.description == post.data.description
    ensures item.pubDate == post.data.date
    ensures item.content == markup.sanitize(markup.render(post.body), AllowedTags(markup))
    ensures item.link == Link(post.collection, post.slug)
    ensures |item.link| >= 3 && item.link[0] == '/' && item.link[|item.link| - 1] == '/'
    ensures '/' !in post.collection && '/' !in post.slug ==>
              Split(item.link, '/') == ["", post.collection, post.slug, ""]
  {
    assert '/' !in post.collection && '/' !in post.slug ==>
             Split(Link(post.collection, post.slug), '/') == ["", post.collection, post.slug, ""] by {
      if '/' !in post.collection && '/' !in post.slug { LinkSegments(post.collection, post.slug); }
    }
    FeedItem(
      post.data.title,
      post.data.description,
      post.data.date,
      markup.sanitize(markup.render(post.body), AllowedTags(markup)),
      Link(post.collection, post.slug))
  }

  /** `items.map(...)`: one item per post, in the same order, each carrying
      its post's front matter, its sanitised rendering and its link. */
  function MapItems(posts: seq<Post>, markup: Markup): (items: seq<FeedItem>)
    ensures |items| == |posts|
    ensures forall k :: 0 <= k < |posts| ==>
              && items[k].title == posts[k].data.title
              && items[k].description == posts[k].data.description
              && items[k].pubDate == posts[k].data.date
              && items[k].content == markup.sanitize(markup.render(posts[k].body), markup.defaultAllowedTags + ["img"])
              && items[k].link == "/" + posts[k].collection + "/" + posts[k].slug + "/"
  {
    if posts == [] then []
    else [ToItem(posts[0], markup)] + MapItems(posts[1..], markup)
  }

  /** Mapping distributes over concatenation (the map keeps order). */
  lemma {:induction false} MapItemsAppend(a: seq<Post>, b: seq<Post>, markup: Markup)
    ensures MapItems(a + b, markup) == MapItems(a, markup) + MapItems(b, markup)
  {
    if a != [] {
      assert (a + b)[1..] == a[1..] + b;
      MapItemsAppend(a[1..], b, markup);
    }
  }
}
