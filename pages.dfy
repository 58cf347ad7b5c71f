/**
 * The records the site generator passes between its stages: configuration
 * values, page metadata, pages, and the observable events of one run.
 *
 * A page's identity is its position in the engine's page list: the category
 * buckets, the `subpages` lists, the tag index and the slug index all hold
 * such positions where the source holds references to meta dictionaries.
 */
module Pages {

  /** A configuration value, as the config loader produces it. */
  datatype OptValue = Str(s: string) | Flag(b: bool) | Number(n: int) | Strs(items: seq<string>)

  /** The resolved options mapping (defaults merged with the user's file). */
  type Options = map<string, OptValue>

  /**
   * The keys of a page's meta dictionary that the engine reads.
   * `subpages` holds the positions of this page's children in the page list.
   */
  datatype Meta = Meta(
    slug: string,
    category: seq<string>,
    tags: set<string>,
    published: bool,
    makeFile: bool,
    subpages: seq<nat>)

  /** A page: the file it came from and its metadata. */
  datatype Page = Page(path: string, meta: Meta)

  /** The observable events of a generation run (log records and effects). */
  datatype Event =
    | HookRan(stage: string)        // a hook stage was invoked
    | NoRenderer(file: string)      // warning: unknown extension, identity renderer used
    | Orphan(path: string)          // error: category chain could not be resolved
    | Rendered(index: nat)          // the page at this position was rendered
    | Wrote(index: nat)             // the page at this position was written
    | MediaCopyFailed               // warning: copying the media directory failed
}
