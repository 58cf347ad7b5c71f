/**
 * `woklib/engine.py`: the engine object and the stages of one site
 * generation. The filesystem, the hook functions, `Page.from_file` and
 * `Page.render` are given to the engine as values and functions.
 */
module Engine {
  import opened Wrappers
  import opened Pages
  import opened Renderers
  import Hooks
  import Loader
  import Tree
  import Render
  import Output
  import Glob
  import Util

  /** A path option: `Some` when the option is there and is a string. */
  function PathOption(options: Options, name: string): Option<string> {
    if name in options && options[name].Str? then Some(options[name].s) else None
  }

  /** `self.options['output_exclude']` as a list of patterns, when it is one. */
  function ExcludeList(options: Options): Option<seq<string>> {
    if "output_exclude" in options && options["output_exclude"].Strs? then Some(options["output_exclude"].items) else None
  }

  /** The patterns `exclude_output` tries; a missing or malformed list gives none. */
  function Patterns(options: Options): seq<string> {
    ExcludeList(options).GetOr([])
  }

  /** The directory named by an option exists. */
  predicate DirPresent(options: Options, isDir: set<string>, name: string) {
    PathOption(options, name).Some? && PathOption(options, name).value in isDir
  }

  /** The message of a failed sanity check. */
  function Missing(name: string): string {
    name + " not found, aborting"
  }

  /**
   * `sanity_check`: the template and content directories must exist (else the
   * program exits), and `.*` is appended to `output_exclude`.
   */
  function Sanity(options: Options, isDir: set<string>): Result<Options, string> {
    if !DirPresent(options, isDir, "template_dir") then Err(Missing("template_dir"))
    else if !DirPresent(options, isDir, "content_dir") then Err(Missing("content_dir"))
    else
      match ExcludeList(options)
      case None => Err("output_exclude is not a list")
      case Some(ps) => Ok(options["output_exclude" := Strs(ps + [".*"])])
  }

  /** After the sanity check, `exclude_output` holds for every dotfile. */
  lemma SanityProtectsDotfiles(options: Options, isDir: set<string>, name: string)
    requires Sanity(options, isDir).Ok?
    requires |name| > 0 && name[0] == '.'
    ensures Glob.Excluded(Patterns(Sanity(options, isDir).value), name)
  {
    Glob.DotfilesExcluded(ExcludeList(options).value, name);
  }

  /** The sanity check changes nothing but `output_exclude`, which it extends by one pattern. */
  lemma SanityOnlyExtends(options: Options, isDir: set<string>)
    requires Sanity(options, isDir).Ok?
    ensures var o := Sanity(options, isDir).value;
      && o.Keys == options.Keys
      && (forall k :: k in o && k != "output_exclude" ==> o[k] == options[k])
      && Patterns(o) == Patterns(options) + [".*"]
  {
  }

  /**
   * The walk of one page's category path from the top-level list `top`,
   * through the `subpages` of the pages; `pages` are the pages `sorted` with
   * the `subpages` of `links`.
   */
  method Walk(pages: seq<Page>, top: seq<nat>, cats: seq<string>, ghost sorted: seq<Page>, ghost links: Tree.Links)
    returns (r: Option<Tree.Loc>)
    requires |links.subs| == |sorted| && pages == Tree.WithSubpages(sorted, links) && top == links.top
    ensures r == Tree.Resolve(sorted, links, cats, Tree.Top)
  {
    var loc := Tree.Top;
    var c := 0;
    assert cats[c..] == cats;
    while c < |cats|
      invariant 0 <= c <= |cats|
      invariant loc.Under? ==> loc.parent < |sorted|
      invariant Tree.Resolve(sorted, links, cats, Tree.Top) == Tree.Resolve(sorted, links, cats[c..], loc)
    {
      var siblings := if loc.Top? then top else pages[loc.parent].meta.subpages;
      assert siblings == Tree.ListAt(links, loc);
      Tree.FirstWithSlugSameSlugs(pages, sorted, siblings, cats[c]);
      assert cats[c..][0] == cats[c] && cats[c..][1..] == cats[c + 1..];
      var parent := Tree.FirstWithSlug(pages, siblings, cats[c]);
      if parent.None? {
        return None;
      }
      loc := Tree.Under(parent.value);
      c := c + 1;
    }
    return Some(loc);
  }

  /** Sorting keeps the pages, so it keeps them without subpages. */
  lemma SortedFresh(pages: seq<Page>)
    requires Loader.Fresh(pages)
    ensures Loader.Fresh(Tree.SortByDepth(pages))
  {
    var sorted := Tree.SortByDepth(pages);
    forall j | 0 <= j < |sorted|
      ensures sorted[j].meta.subpages == []
    {
      assert sorted[j] in multiset(pages);
    }
  }

  /** Append the page at position `i` to the bucket of its top category, if it has one. */
  method AddToBucket(buckets: map<string, seq<nat>>, cats: seq<string>, i: nat) returns (r: map<string, seq<nat>>)
    ensures r == Tree.AddToBucket(buckets, cats, i)
  {
    r := buckets;
    if |cats| > 0 {
      var topCat := cats[0];
      if topCat !in r {
        r := r[topCat := []];
      }
      r := r[topCat := r[topCat] + [i]];
    }
  }

  /**
   * Walk the category path of the page at position `i`, and append `i` to
   * the list where the walk ended, if it did.
   */
  method Place(pages: seq<Page>, top: seq<nat>, cats: seq<string>, i: nat, ghost sorted: seq<Page>, ghost links: Tree.Links)
    returns (pages': seq<Page>, top': seq<nat>, loc: Option<Tree.Loc>)
    requires |links.subs| == |sorted| && pages == Tree.WithSubpages(sorted, links) && top == links.top
    ensures loc == Tree.Resolve(sorted, links, cats, Tree.Top)
    ensures loc.None? ==> pages' == pages && top' == top
    ensures loc.Some? ==>
      && pages' == Tree.WithSubpages(sorted, Tree.Append(links, loc.value, i))
      && top' == Tree.Append(links, loc.value, i).top
  {
    pages', top' := pages, top;
    loc := Walk(pages, top, cats, sorted, links);
    if loc.Some? {
      match loc.value {
        case Top =>
          Tree.WithSubpagesTop(sorted, links, i);
          top' := top + [i];
        case Under(q) =>
          Tree.WithSubpagesAppend(sorted, links, q, i);
          pages' := Tree.AddSubpage(pages, q, i);
      }
    }
  }

  /**
   * The loop of `make_tree` over pages sorted by depth: bucket each under its
   * top category, and append each to the `subpages` of the page its category
   * path leads to, logging the pages whose path leads nowhere.
   */
  method PlaceAll(sorted: seq<Page>) returns (pages: seq<Page>, buckets: map<string, seq<nat>>, orphans: seq<Event>)
    requires Loader.Fresh(sorted)
    ensures pages == Tree.WithSubpages(sorted, Tree.LinksOf(sorted, |sorted|))
    ensures buckets == Tree.Categories(sorted, |sorted|)
    ensures orphans == Tree.OrphanEvents(sorted, Tree.OrphansOf(sorted, |sorted|))
  {
    buckets, orphans := map[], [];
    var top: seq<nat> := [];
    pages := sorted;
    Tree.WithEmptySubpages(sorted);
    var i := 0;
    while i < |sorted|
      invariant 0 <= i <= |sorted|
      invariant pages == Tree.WithSubpages(sorted, Tree.LinksOf(sorted, i))
      invariant top == Tree.LinksOf(sorted, i).top
      invariant buckets == Tree.Categories(sorted, i)
      invariant orphans == Tree.OrphanEvents(sorted, Tree.OrphansOf(sorted, i))
    {
      ghost var links := Tree.LinksOf(sorted, i);
      Tree.PlaceOutcome(sorted, i);
      var p := pages[i];
      var cats := p.meta.category;
      assert cats == sorted[i].meta.category && p.path == sorted[i].path;
      buckets := AddToBucket(buckets, cats, i);
      var loc;
      pages, top, loc := Place(pages, top, cats, i, sorted, links);
      if loc.None? {
        orphans := orphans + [Orphan(p.path)];
      }
      i := i + 1;
    }
  }

  /**
   * The loop of `render_site` over the growing page list: render each page
   * with a fresh context, write it if it asks for a file, and append the
   * pages the rendering returns. At most `fuel` pages are rendered.
   */
  method RenderPages(env: Render.Env, start: seq<Page>, log: seq<Event>, fuel: nat)
    returns (pages: seq<Page>, events: seq<Event>, next: nat)
    ensures Render.Run(env, Render.RunState(start, 0, log), fuel) == Render.RunState(pages, next, events)
  {
    pages, events := start, log;
    var i := 0;
    var left := fuel;
    while i < |pages| && left > 0
      invariant i <= |pages|
      invariant Render.Run(env, Render.RunState(pages, i, events), left) == Render.Run(env, Render.RunState(start, 0, log), fuel)
      decreases left
    {
      ghost var before := Render.RunState(pages, i, events);
      var p := pages[i];
      var site := Render.BaseSite(env.options, env.tags, pages, env.categories, env.slugs);
      site := Render.CopyOptions(site, env.options);
      if "author" in env.options {
        site := site["author" := Render.Opt(env.options["author"])];
      }
      assert site == Render.SiteContext(env.options, env.tags, pages, env.categories, env.slugs);
      var newPages := env.render(p, site);
      events := events + [Rendered(i)];
      if p.meta.makeFile {
        events := events + [Wrote(i)];
      }
      if newPages != [] {
        pages := pages + newPages;
      } else {
        assert pages + newPages == pages;
      }
      assert Render.StepRun(env, before) == Render.RunState(pages, i + 1, events);
      i := i + 1;
      left := left - 1;
    }
    next := i;
  }

  /**
   * How copying the media directory ends: without error, with an `OSError`,
   * which is caught and logged, or with another `EnvironmentError` that the
   * `except OSError` does not catch. Under Python 2 a failing `shutil.copy`
   * raises `IOError` and a failing `copytree` raises `shutil.Error`.
   */
  datatype MediaCopy = Copied | CopyOSError | CopyRaised(exc: string)

  /**
   * The events after the media directory was found: a caught `OSError` is
   * logged, then the post hooks run; an escaping exception ends the stage
   * before them.
   */
  function MediaEvents(media: MediaCopy): (r: seq<Event>)
    ensures MediaCopyFailed in r <==> media.CopyOSError?
    ensures r == [] <==> media.CopyRaised?
    ensures r != [] ==> r[|r| - 1] == HookRan("site.output.post") && HookRan("site.output.post") !in r[..|r| - 1]
  {
    match media
    case Copied => [HookRan("site.output.post")]
    case CopyOSError => [MediaCopyFailed, HookRan("site.output.post")]
    case CopyRaised(_) => []
  }

  /** The log at the end of `prepare_output`, which started with the log `log`. */
  function PreparedLog(log: seq<Event>, mediaIsDir: bool, media: MediaCopy): seq<Event> {
    log + [HookRan("site.output.pre")] + (if mediaIsDir then MediaEvents(media) else [])
  }

  /** The page list, the category buckets and the log once the content is built. */
  datatype Built = Built(pages: seq<Page>, categories: map<string, seq<nat>>, log: seq<Event>)

  /**
   * The stages of `generate_site` after `prepare_output`, from an empty page
   * list and the log `log`: the loaded pages (`Loader.LoadedPages`), with the
   * pre-hook stage, the walk's warnings and the post-hook stage logged, then
   * `BuiltTree` of them sorted by depth.
   */
  function BuiltContent(options: Options, hooks: Hooks.HookTable, call: Hooks.Caller,
                        all: seq<Kind>, files: seq<Loader.WalkedFile>, fromFile: Loader.FromFile,
                        render: Render.RenderPage, fuel: nat, log: seq<Event>): Built
  {
    var loaded := Loader.LoadedPages([], hooks, call, options, all, files, fromFile);
    BuiltTree(options, render, fuel, Tree.SortByDepth(loaded),
              log + [HookRan("site.content.gather.pre")] + Loader.WalkWarnings(all, files)
              + [HookRan("site.content.gather.post")])
  }

  /**
   * The pages `sorted` linked into a tree and bucketed as `Tree` describes,
   * with the orphans logged, then rendered with the indices of the linked list.
   */
  function BuiltTree(options: Options, render: Render.RenderPage, fuel: nat, sorted: seq<Page>, log: seq<Event>): Built {
    var linked := Tree.WithSubpages(sorted, Tree.LinksOf(sorted, |sorted|));
    var categories := Tree.Categories(sorted, |sorted|);
    RenderedSite(Render.Env(options, Render.TagIndex(linked), categories, Render.SlugIndex(linked, |linked|), render),
                 linked, log + Tree.OrphanEvents(sorted, Tree.OrphansOf(sorted, |sorted|)), fuel)
  }

  /** The render loop as `Render.Run` describes it, then `site.done`. */
  function RenderedSite(env: Render.Env, pages: seq<Page>, log: seq<Event>, fuel: nat): Built {
    var r := Render.Run(env, Render.RunState(pages, 0, log), fuel);
    Built(r.pages, env.categories, r.events + [HookRan("site.done")])
  }

  /** `RenderedSite` of a run whose outcome is `r`. */
  lemma RenderedSiteOf(env: Render.Env, pages: seq<Page>, log: seq<Event>, fuel: nat, r: Render.RunState)
    requires r == Render.Run(env, Render.RunState(pages, 0, log), fuel)
    ensures RenderedSite(env, pages, log, fuel) == Built(r.pages, env.categories, r.events + [HookRan("site.done")])
  {
  }

  /** `BuiltContent` in terms of the loaded pages `loaded` and the log `treeLog` after loading. */
  lemma BuiltContentOf(options: Options, hooks: Hooks.HookTable, call: Hooks.Caller,
                       all: seq<Kind>, files: seq<Loader.WalkedFile>, fromFile: Loader.FromFile,
                       render: Render.RenderPage, fuel: nat, log: seq<Event>, loaded: seq<Page>, treeLog: seq<Event>)
    requires loaded == Loader.LoadedPages([], hooks, call, options, all, files, fromFile)
    requires treeLog == log + [HookRan("site.content.gather.pre")] + Loader.WalkWarnings(all, files)
                        + [HookRan("site.content.gather.post")]
    ensures BuiltContent(options, hooks, call, all, files, fromFile, render, fuel, log)
            == BuiltTree(options, render, fuel, Tree.SortByDepth(loaded), treeLog)
  {
  }

  /** The render loop keeps the pages it starts with in front, and `site.done` follows its events. */
  lemma RenderedSiteShape(env: Render.Env, pages: seq<Page>, log: seq<Event>, fuel: nat)
    ensures var b := RenderedSite(env, pages, log, fuel);
      && |pages| <= |b.pages| && b.pages[..|pages|] == pages
      && |log| < |b.log| && b.log[..|log|] == log
      && b.log[|b.log| - 1] == HookRan("site.done")
  {
    var r := Render.Run(env, Render.RunState(pages, 0, log), fuel);
    Render.RunShape(env, Render.RunState(pages, 0, log), fuel);
    RenderedSiteOf(env, pages, log, fuel, r);
    assert RenderedSite(env, pages, log, fuel).log == log + (Render.Trace(r.pages, 0, r.next) + [HookRan("site.done")]);
  }

  /**
   * What building the content does to the page list and the log: the linked
   * pages stay at the front of the list, the buckets are those of the sorted
   * pages, and the log gains the loading and tree stages, then the render
   * events, and ends with `site.done`.
   */
  lemma BuiltContentShape(options: Options, hooks: Hooks.HookTable, call: Hooks.Caller,
                          all: seq<Kind>, files: seq<Loader.WalkedFile>, fromFile: Loader.FromFile,
                          render: Render.RenderPage, fuel: nat, log: seq<Event>)
    ensures var sorted := Tree.SortByDepth(Loader.LoadedPages([], hooks, call, options, all, files, fromFile));
      var linked := Tree.WithSubpages(sorted, Tree.LinksOf(sorted, |sorted|));
      var treeLog := log + [HookRan("site.content.gather.pre")] + Loader.WalkWarnings(all, files)
                     + [HookRan("site.content.gather.post")]
                     + Tree.OrphanEvents(sorted, Tree.OrphansOf(sorted, |sorted|));
      var b := BuiltContent(options, hooks, call, all, files, fromFile, render, fuel, log);
      && |linked| <= |b.pages| && b.pages[..|linked|] == linked
      && b.categories == Tree.Categories(sorted, |sorted|)
      && |treeLog| < |b.log| && b.log[..|treeLog|] == treeLog
      && b.log[|b.log| - 1] == HookRan("site.done")
  {
    var loaded := Loader.LoadedPages([], hooks, call, options, all, files, fromFile);
    var sorted := Tree.SortByDepth(loaded);
    var linked := Tree.WithSubpages(sorted, Tree.LinksOf(sorted, |sorted|));
    var loadLog := log + [HookRan("site.content.gather.pre")] + Loader.WalkWarnings(all, files)
                   + [HookRan("site.content.gather.post")];
    var treeLog := loadLog + Tree.OrphanEvents(sorted, Tree.OrphansOf(sorted, |sorted|));
    var env := Render.Env(options, Render.TagIndex(linked), Tree.Categories(sorted, |sorted|),
                          Render.SlugIndex(linked, |linked|), render);
    BuiltContentOf(options, hooks, call, all, files, fromFile, render, fuel, log, loaded, loadLog);
    BuiltTreeOf(options, render, fuel, sorted, loadLog, env, linked, treeLog);
    RenderedSiteShape(env, linked, treeLog, fuel);
  }

  /** `BuiltTree` in terms of the linked pages `linked`, the render inputs `env` and the log `treeLog`. */
  lemma BuiltTreeOf(options: Options, render: Render.RenderPage, fuel: nat, sorted: seq<Page>, log: seq<Event>,
                    env: Render.Env, linked: seq<Page>, treeLog: seq<Event>)
    requires linked == Tree.WithSubpages(sorted, Tree.LinksOf(sorted, |sorted|))
    requires env == Render.Env(options, Render.TagIndex(linked), Tree.Categories(sorted, |sorted|),
                               Render.SlugIndex(linked, |linked|), render)
    requires treeLog == log + Tree.OrphanEvents(sorted, Tree.OrphansOf(sorted, |sorted|))
    ensures BuiltTree(options, render, fuel, sorted, log) == RenderedSite(env, linked, treeLog, fuel)
  {
  }

  /** `make_tree` on the values: sort the pages by depth, then place each one (`PlaceAll`). */
  method SortAndPlace(pages: seq<Page>) returns (linked: seq<Page>, buckets: map<string, seq<nat>>, orphans: seq<Event>)
    requires Loader.Fresh(pages)
    ensures var sorted := Tree.SortByDepth(pages);
      && linked == Tree.WithSubpages(sorted, Tree.LinksOf(sorted, |sorted|))
      && buckets == Tree.Categories(sorted, |sorted|)
      && orphans == Tree.OrphanEvents(sorted, Tree.OrphansOf(sorted, |sorted|))
  {
    var sorted := Tree.SortByDepth(pages);
    SortedFresh(pages);
    linked, buckets, orphans := PlaceAll(sorted);
  }

  /** The engine: its options, hooks and page list, the output directory, and the log. */
  class Engine {
    /** `realpath(abspath(site_root))`. */
    const siteRoot: string
    /** Calls a hook function. */
    const call: Hooks.Caller

    var options: Options
    var hooks: Hooks.HookTable
    var allPages: seq<Page>
    var categories: map<string, seq<nat>>
    var output: Output.OutDir
    var log: seq<Event>

    constructor (siteRoot: string, options: Options, output: Output.OutDir, call: Hooks.Caller)
      ensures this.siteRoot == siteRoot && this.call == call
      ensures this.options == options && this.output == output
      ensures hooks == map[] && allPages == [] && categories == map[] && log == []
    {
      this.siteRoot := siteRoot;
      this.call := call;
      this.options := options;
      this.output := output;
      hooks := map[];
      allPages := [];
      categories := map[];
      log := [];
    }

    /** `sanity_check`; `isDir` is the set of paths `os.path.isdir` accepts. */
    method SanityCheck(isDir: set<string>) returns (error: Option<string>)
      modifies this`options
      ensures match Sanity(old(options), isDir)
              case Ok(o) => error.None? && options == o
              case Err(e) => error == Some(e) && options == old(options)
    {
      // the loop over the two required directories, unrolled
      if !DirPresent(options, isDir, "template_dir") {
        return Some(Missing("template_dir"));
      }
      if !DirPresent(options, isDir, "content_dir") {
        return Some(Missing("content_dir"));
      }
      var ps := ExcludeList(options);
      if ps.None? {
        return Some("output_exclude is not a list");
      }
      options := options["output_exclude" := Strs(ps.value + [".*"])];
      return None;
    }

    /** `load_hooks`, with a missing hooks module meaning no hooks. */
    method LoadHooks(m: Hooks.HookModule) returns (error: Option<string>)
      modifies this`hooks
      ensures match Hooks.LoadHooks(m)
              case Ok(h) => error.None? && hooks == h
              case Err(e) => error == Some(e) && hooks == old(hooks)
    {
      match m {
        case Imported(h) => hooks := h;
        case NoHooksModule => hooks := map[];
        case FailedInside(msg) => return Some(msg);
      }
      return None;
    }

    /** `run_hook(stage, *args)`: the results of every function of the stage. */
    method RunHook(stage: string, arg: Hooks.HookArg) returns (results: seq<Hooks.HookResult>)
      modifies this`log
      ensures results == Hooks.RunHook(hooks, call, options, stage, arg)
      ensures log == old(log) + [HookRan(stage)]
    {
      results := Hooks.RunHook(hooks, call, options, stage, arg);
      log := log + [HookRan(stage)];
    }

    /**
     * `prepare_output`: clear a sane output directory down to its excluded
     * entries, or create a missing one; then the `site.output.pre` hooks, and
     * the `site.output.post` hooks when the media directory exists. `out` is
     * `realpath(abspath(output_dir))`. Copying the media is outside the model;
     * `media` says how it ended.
     */
    method PrepareOutput(out: string, mediaIsDir: bool, media: MediaCopy) returns (error: Option<string>)
      modifies this`output, this`log
      ensures match Output.Prepared(old(output), out, siteRoot, Patterns(old(options)))
              case Err(e) => error == Some(e) && output == old(output) && log == old(log)
              case Ok(o) =>
                && output == o
                && log == PreparedLog(old(log), mediaIsDir, media)
                && (if mediaIsDir && media.CopyRaised? then error == Some(media.exc) else error.None?)
    {
      var path := PathOption(options, "output_dir").GetOr(out);
      if Util.IsSaneOutdir(output.Dir?, out, siteRoot) {
        var kept, removed := Output.Clear(output.entries, Patterns(options));
        output := Output.Dir(kept);
      } else if output.Absent? {
        output := Output.Dir(map[]);
      } else {
        return Some("OSError: [Errno 17] File exists");
      }
      var _ := RunHook("site.output.pre", Hooks.PathArg(path));
      if mediaIsDir {
        match media {
          case Copied =>
          case CopyOSError => log := log + [MediaCopyFailed];
          case CopyRaised(exc) => return Some(exc);
        }
        var _ := RunHook("site.output.post", Hooks.PathArg(path));
      }
      return None;
    }

    /**
     * `load_pages`: the pages of the `site.content.gather.pre` hooks, the
     * published pages of the walked files, then those of the
     * `site.content.gather.post` hooks.
     */
    method LoadPages(all: seq<Kind>, files: seq<Loader.WalkedFile>, fromFile: Loader.FromFile)
      modifies this`allPages, this`log
      ensures allPages == Loader.LoadedPages(old(allPages), hooks, call, options, all, files, fromFile)
      ensures log == old(log) + [HookRan("site.content.gather.pre")] + Loader.WalkWarnings(all, files)
                     + [HookRan("site.content.gather.post")]
    {
      var pre := RunHook("site.content.gather.pre", Hooks.NoArg);
      allPages := Loader.Extend(allPages, pre);
      var pages, warnings := Loader.LoadFiles(all, files, fromFile);
      allPages := allPages + pages;
      log := log + warnings;
      var post := RunHook("site.content.gather.post", Hooks.PagesArg(allPages));
      allPages := Loader.Extend(allPages, post);
    }

    /**
     * `make_tree`: sort the pages by depth, then place each one (`PlaceAll`).
     */
    method MakeTree()
      modifies this`allPages, this`categories, this`log
      requires Loader.Fresh(allPages)
      ensures var sorted := Tree.SortByDepth(old(allPages));
        && allPages == Tree.WithSubpages(sorted, Tree.LinksOf(sorted, |sorted|))
        && categories == Tree.Categories(sorted, |sorted|)
        && log == old(log) + Tree.OrphanEvents(sorted, Tree.OrphansOf(sorted, |sorted|))
      ensures unchanged(this`options, this`hooks, this`output)
    {
      var pages, buckets, orphans := SortAndPlace(allPages);
      allPages, categories := pages, buckets;
      log := log + orphans;
    }

    /**
     * `render_site`: build the tag and slug indices, then render every page
     * of the growing list with a fresh context, writing those that ask for
     * a file. At most `fuel` pages are rendered; `done` says whether the
     * list was exhausted.
     */
    method RenderSite(render: Render.RenderPage, fuel: nat) returns (done: bool)
      modifies this`allPages, this`log
      ensures var env := Render.Env(old(options), Render.TagIndex(old(allPages)), old(categories),
                                    Render.SlugIndex(old(allPages), |old(allPages)|), render);
        var r := Render.Run(env, Render.RunState(old(allPages), 0, old(log)), fuel);
        && allPages == r.pages && log == r.events
        && (done <==> r.next == |r.pages|)
      ensures |old(log)| <= |log| && log[..|old(log)|] == old(log)
    {
      var tagDict := Render.GatherTags(allPages);
      var slugDict := Render.SlugIndex(allPages, |allPages|);
      var env := Render.Env(options, tagDict, categories, slugDict, render);
      var pages, events, next := RenderPages(env, allPages, log, fuel);
      Render.RunShape(env, Render.RunState(allPages, 0, log), fuel);
      allPages, log := pages, events;
      done := next == |pages|;
    }

    /**
     * `generate_site`: load the hooks, run `site.start`, prepare the output,
     * load the pages, make the tree, render the site and run `site.done`.
     * An error is an exception that ends the generation.
     */
    method GenerateSite(m: Hooks.HookModule, out: string, mediaIsDir: bool, media: MediaCopy,
                        all: seq<Kind>, files: seq<Loader.WalkedFile>, fromFile: Loader.FromFile,
                        render: Render.RenderPage, fuel: nat)
      returns (error: Option<string>)
      modifies this`hooks, this`allPages, this`output, this`categories, this`log
      requires Loader.FreshReads(fromFile) && Loader.FreshResults(call)
      ensures Hooks.LoadHooks(m).Err? ==> error == Some(Hooks.LoadHooks(m).error) && log == old(log)
      ensures Hooks.LoadHooks(m).Ok? ==> hooks == Hooks.LoadHooks(m).value
      ensures (Hooks.LoadHooks(m).Ok? && Output.Prepared(old(output), out, siteRoot, Patterns(options)).Err?)
              ==> error == Some(Output.Prepared(old(output), out, siteRoot, Patterns(options)).error)
                  && log == old(log) + [HookRan("site.start")]
      ensures (Hooks.LoadHooks(m).Ok? && Output.Prepared(old(output), out, siteRoot, Patterns(options)).Ok?)
              ==> output == Output.Prepared(old(output), out, siteRoot, Patterns(options)).value
      ensures (Hooks.LoadHooks(m).Ok? && Output.Prepared(old(output), out, siteRoot, Patterns(options)).Ok?
               && mediaIsDir && media.CopyRaised?)
              ==> error == Some(media.exc) && log == PreparedLog(old(log) + [HookRan("site.start")], mediaIsDir, media)
      ensures error.None? <==>
              && Hooks.LoadHooks(m).Ok? && Output.Prepared(old(output), out, siteRoot, Patterns(options)).Ok?
              && !(mediaIsDir && media.CopyRaised?)
      ensures error.None? ==>
              Built(allPages, categories, log)
              == BuiltContent(options, hooks, call, all, files, fromFile, render, fuel,
                              PreparedLog(old(log) + [HookRan("site.start")], mediaIsDir, media))
    {
      allPages := [];
      error := LoadHooks(m);
      if error.Some? {
        return;
      }
      var _ := RunHook("site.start", Hooks.NoArg);
      assert output == old(output) && allPages == [];
      error := PrepareAndBuild(out, mediaIsDir, media, all, files, fromFile, render, fuel);
    }

    /** The stages of `generate_site` from `prepare_output` on, from an empty page list. */
    method PrepareAndBuild(out: string, mediaIsDir: bool, media: MediaCopy,
                           all: seq<Kind>, files: seq<Loader.WalkedFile>, fromFile: Loader.FromFile,
                           render: Render.RenderPage, fuel: nat)
      returns (error: Option<string>)
      modifies this`allPages, this`output, this`categories, this`log
      requires allPages == [] && Loader.FreshReads(fromFile) && Loader.FreshResults(call)
      ensures Output.Prepared(old(output), out, siteRoot, Patterns(options)).Err?
              ==> error == Some(Output.Prepared(old(output), out, siteRoot, Patterns(options)).error)
                  && log == old(log)
      ensures Output.Prepared(old(output), out, siteRoot, Patterns(options)).Ok?
              ==> output == Output.Prepared(old(output), out, siteRoot, Patterns(options)).value
      ensures (Output.Prepared(old(output), out, siteRoot, Patterns(options)).Ok? && mediaIsDir && media.CopyRaised?)
              ==> error == Some(media.exc)
                  && log == PreparedLog(old(log), mediaIsDir, media)
      ensures error.None? <==>
              Output.Prepared(old(output), out, siteRoot, Patterns(options)).Ok? && !(mediaIsDir && media.CopyRaised?)
      ensures error.None? ==>
              Built(allPages, categories, log)
              == BuiltContent(options, hooks, call, all, files, fromFile, render, fuel, PreparedLog(old(log), mediaIsDir, media))
      ensures unchanged(this`options, this`hooks)
    {
      error := PrepareOutput(out, mediaIsDir, media);
      if error.Some? {
        return;
      }
      BuildContent(all, files, fromFile, render, fuel);
    }

    /**
     * The stages of `generate_site` after the output is prepared, from an
     * empty page list: load, make the tree, render, and run `site.done`.
     * Each stage only appends to the log.
     */
    method BuildContent(all: seq<Kind>, files: seq<Loader.WalkedFile>, fromFile: Loader.FromFile,
                        render: Render.RenderPage, fuel: nat)
      modifies this`allPages, this`categories, this`log
      requires allPages == [] && Loader.FreshReads(fromFile) && Loader.FreshResults(call)
      ensures Built(allPages, categories, log)
              == BuiltContent(options, hooks, call, all, files, fromFile, render, fuel, old(log))
      ensures unchanged(this`options, this`hooks, this`output)
    {
      ghost var opts, hks := options, hooks;
      LoadPages(all, files, fromFile);
      assert options == opts && hooks == hks && output == old(output);
      Loader.LoadedFresh([], hooks, call, options, all, files, fromFile);
      ghost var loaded := log;
      ghost var sorted := Tree.SortByDepth(allPages);
      BuiltContentOf(opts, hks, call, all, files, fromFile, render, fuel, old(log), allPages, loaded);
      MakeTree();
      assert options == opts;
      ghost var env := Render.Env(opts, Render.TagIndex(allPages), categories,
                                  Render.SlugIndex(allPages, |allPages|), render);
      assert BuiltTree(opts, render, fuel, sorted, loaded) == RenderedSite(env, allPages, log, fuel);
      RenderAndFinish(render, fuel);
    }

    /** `render_site` and then the `site.done` hooks. */
    method RenderAndFinish(render: Render.RenderPage, fuel: nat)
      modifies this`allPages, this`log
      ensures Built(allPages, categories, log)
              == RenderedSite(Render.Env(old(options), Render.TagIndex(old(allPages)), old(categories),
                                         Render.SlugIndex(old(allPages), |old(allPages)|), render),
                              old(allPages), old(log), fuel)
      ensures unchanged(this`options, this`hooks, this`output)
    {
      ghost var env := Render.Env(options, Render.TagIndex(allPages), categories,
                                  Render.SlugIndex(allPages, |allPages|), render);
      ghost var r := Render.Run(env, Render.RunState(allPages, 0, log), fuel);
      RenderedSiteOf(env, allPages, log, fuel, r);
      var _ := RenderSite(render, fuel);
      ghost var pages := allPages;
      var _ := RunHook("site.done", Hooks.NoArg);
      assert allPages == pages;
    }
  }
}
