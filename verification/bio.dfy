/**
 * The bio decorator (blocks/bio/bio.js). It works out an author name from
 * the first image of a bio block on the page, then from the page's
 * `meta[name="author"]` tag, and appends it to the block as a `strong`
 * element. The two page-wide lookups are inputs here.
 */
module Bio {
  import opened Wrappers
  import opened Dom

  /** The image found by `.bio.block img`, with its `alt` attribute if it has one. */
  datatype Img = Img(alt: Option<string>)

  /** The tag found by `meta[name="author"]`, with its `content` attribute if it has one. */
  datatype Meta = Meta(content: Option<string>)

  /** The alt text an image lookup yields: empty for no image and for no `alt`. */
  function AltOf(img: Option<Img>): string {
    match img
    case Some(Img(Some(alt))) => alt
    case _ => ""
  }

  /**
   * The name shown: a non-empty alt first, then the meta tag's content, then
   * nothing. A meta tag without `content` yields null, which `textContent`
   * shows as the empty string.
   */
  function AuthorName(img: Option<Img>, meta: Option<Meta>): (name: string)
    ensures AltOf(img) != "" ==> name == AltOf(img)
    ensures AltOf(img) == "" && meta.Some? ==> name == meta.value.content.GetOr("")
    ensures AltOf(img) == "" && meta.None? ==> name == ""
  {
    var authorName :=
      if img.Some? && img.value.alt.Some? && img.value.alt.value != "" then img.value.alt.value else "";
    if authorName != "" then authorName
    else if meta.Some? then
      match meta.value.content
      case Some(content) => content
      case None => ""
    else ""
  }

  /** The element that carries the name. */
  function NameElement(name: string): Node {
    Plain("strong", TextContent(name))
  }

  /** `decorate(block)`: one `strong` is appended; the existing children stay as they are. */
  method Decorate(block: Block, img: Option<Img>, meta: Option<Meta>)
    modifies block
    ensures block.children == old(block.children) + [NameElement(AuthorName(img, meta))]
  {
    block.children := block.children + [NameElement(AuthorName(img, meta))];
  }

  /** Decorating twice appends the name twice: the decorator is not idempotent. */
  method DecorateTwice(block: Block, img: Option<Img>, meta: Option<Meta>)
    modifies block
    ensures var e := NameElement(AuthorName(img, meta));
      block.children == old(block.children) + [e, e]
    ensures |block.children| == |old(block.children)| + 2
  {
    Decorate(block, img, meta);
    Decorate(block, img, meta);
  }

  /** An image with an empty or missing `alt` counts for as much as no image at all. */
  lemma EmptyAltFallsThrough(meta: Option<Meta>)
    ensures AuthorName(Some(Img(Some(""))), meta) == AuthorName(None, meta)
    ensures AuthorName(Some(Img(None)), meta) == AuthorName(None, meta)
  {
  }

  /** A non-empty alt wins: the meta tag is then never looked at. */
  lemma AltOverridesMeta(img: Option<Img>, meta1: Option<Meta>, meta2: Option<Meta>)
    requires AltOf(img) != ""
    ensures AuthorName(img, meta1) == AuthorName(img, meta2) == AltOf(img)
  {
  }

  /** The name is always taken whole from one of the two sources, or is empty. */
  lemma NameFromASource(img: Option<Img>, meta: Option<Meta>)
    ensures var name := AuthorName(img, meta);
      name == "" || name == AltOf(img) || (meta.Some? && meta.value.content == Some(name))
  {
  }
}
