/**
 * `Engine.render_site`: the tag and slug indices built once from the page
 * list, the template context built afresh for every page, and the render
 * loop, which also visits the pages that rendering adds to the list.
 */
module Render {
  import opened Wrappers
  import opened Pages
  import Tree

  // ---------------------------------------------------------------------
  // The tag index
  // ---------------------------------------------------------------------

  /** `tag_set` after the first `k` pages: the union of their tags. */
  function TagsUpTo(pages: seq<Page>, k: nat): set<string>
    requires k <= |pages|
  {
    if k == 0 then {} else TagsUpTo(pages, k - 1) + pages[k - 1].meta.tags
  }

  /** `[p.meta for p in all_pages if tag in p.meta['tags']]` over the first `k` pages. */
  function WithTag(pages: seq<Page>, t: string, k: nat): seq<nat>
    requires k <= |pages|
  {
    if k == 0 then [] else WithTag(pages, t, k - 1) + (if t in pages[k - 1].meta.tags then [k - 1] else [])
  }

  /** `tag_dict`: every tag of the list, with the pages that carry it. */
  function TagIndex(pages: seq<Page>): map<string, seq<nat>> {
    map t | t in TagsUpTo(pages, |pages|) :: WithTag(pages, t, |pages|)
  }

  /** The two loops that build `tag_set` and then `tag_dict`. */
  method GatherTags(pages: seq<Page>) returns (tagDict: map<string, seq<nat>>)
    ensures tagDict == TagIndex(pages)
  {
    var tagSet: set<string> := {};
    var i := 0;
    while i < |pages|
      invariant 0 <= i <= |pages|
      invariant tagSet == TagsUpTo(pages, i)
      decreases |pages| - i
    {
      tagSet := tagSet + pages[i].meta.tags;
      i := i + 1;
    }
    tagDict := map[];
    var remaining := tagSet;
    while remaining != {}
      invariant remaining <= tagSet
      invariant tagDict.Keys == tagSet - remaining
      invariant forall t :: t in tagDict ==> tagDict[t] == WithTag(pages, t, |pages|)
      decreases remaining
    {
      var t :| t in remaining;
      tagDict := tagDict[t := WithTag(pages, t, |pages|)];
      remaining := remaining - {t};
    }
  }

  /** The keys are exactly the tags some page carries. */
  lemma {:induction false} TagsUpToMembership(pages: seq<Page>, k: nat, t: string)
    requires k <= |pages|
    ensures t in TagsUpTo(pages, k) <==> exists j :: 0 <= j < k && t in pages[j].meta.tags
  {
    if k > 0 {
      TagsUpToMembership(pages, k - 1, t);
    }
  }

  /** A tag's list holds each page that carries it, once, in list order. */
  lemma {:induction false} WithTagMembership(pages: seq<Page>, t: string, k: nat)
    requires k <= |pages|
    ensures forall j: nat :: j in WithTag(pages, t, k) <==> j < k && t in pages[j].meta.tags
    ensures Tree.Increasing(WithTag(pages, t, k)) && Tree.Below(WithTag(pages, t, k), k)
  {
    if k > 0 {
      WithTagMembership(pages, t, k - 1);
    }
  }

  /** The tag index, stated on `TagIndex`. */
  lemma TagIndexContents(pages: seq<Page>, t: string)
    ensures t in TagIndex(pages) <==> exists j :: 0 <= j < |pages| && t in pages[j].meta.tags
    ensures t in TagIndex(pages) ==>
              && (forall j: nat :: j in TagIndex(pages)[t] <==> j < |pages| && t in pages[j].meta.tags)
              && Tree.Increasing(TagIndex(pages)[t])
  {
    TagsUpToMembership(pages, |pages|, t);
    WithTagMembership(pages, t, |pages|);
  }

  // ---------------------------------------------------------------------
  // The slug index
  // ---------------------------------------------------------------------

  /** `dict((p.meta['slug'], p.meta) for p in all_pages)` over the first `k` pages. */
  function SlugIndex(pages: seq<Page>, k: nat): map<string, nat>
    requires k <= |pages|
  {
    if k == 0 then map[] else SlugIndex(pages, k - 1)[pages[k - 1].meta.slug := k - 1]
  }

  /** Every slug of the list is a key, mapped to the last page carrying it. */
  lemma {:induction false} SlugIndexLast(pages: seq<Page>, k: nat, s: string)
    requires k <= |pages|
    ensures s in SlugIndex(pages, k) <==> exists j :: 0 <= j < k && pages[j].meta.slug == s
    ensures s in SlugIndex(pages, k) ==>
              var v := SlugIndex(pages, k)[s];
              && v < k && pages[v].meta.slug == s
              && forall j :: v < j < k ==> pages[j].meta.slug != s
  {
    if k > 0 {
      SlugIndexLast(pages, k - 1, s);
    }
  }

  // ---------------------------------------------------------------------
  // The template context
  // ---------------------------------------------------------------------

  /** The three readings of `datetime.now()`, whose values are outside the model. */
  datatype ClockPart = NowDateTime | NowDate | NowTime

  /** A value of `templ_vars['site']`. */
  datatype SiteValue =
    | Opt(value: OptValue)
    | Clock(part: ClockPart)
    | TagMap(tags: map<string, seq<nat>>)
    | PageList(pages: seq<Page>)
    | CategoryMap(categories: map<string, seq<nat>>)
    | SlugMap(slugs: map<string, nat>)

  type Site = map<string, SiteValue>

  /** The option keys that are never copied into the context. */
  const ExcludedKeys: set<string> :=
    {"site_title", "output_dir", "content_dir", "templates_dir", "media_dir", "url_pattern"}

  /** The literal dictionary every page's context starts from. */
  function BaseSite(options: Options, tags: map<string, seq<nat>>, pages: seq<Page>,
                    categories: map<string, seq<nat>>, slugs: map<string, nat>): Site
  {
    map[
      "title" := Opt(if "site_title" in options then options["site_title"] else Str("Untitled")),
      "datetime" := Clock(NowDateTime),
      "date" := Clock(NowDate),
      "time" := Clock(NowTime),
      "tags" := TagMap(tags),
      "pages" := PageList(pages),
      "categories" := CategoryMap(categories),
      "slugs" := SlugMap(slugs)
    ]
  }

  /** The site dictionary with the options `done` that are outside `ExcludedKeys` written over it. */
  function OverlayOn(site: Site, options: Options, done: set<string>): Site
    requires done <= options.Keys
  {
    map k | k in site.Keys + (done - ExcludedKeys) ::
      if k in done && k !in ExcludedKeys then Opt(options[k]) else site[k]
  }

  /** The site dictionary with every option outside `ExcludedKeys` written over it. */
  function Overlay(site: Site, options: Options): Site {
    OverlayOn(site, options, options.Keys)
  }

  /** Copying one more option writes it over the site dictionary, unless it is excluded. */
  lemma OverlayStep(site: Site, options: Options, done: set<string>, k: string)
    requires done <= options.Keys && k in options && k !in done
    ensures OverlayOn(site, options, done + {k})
         == if k in ExcludedKeys then OverlayOn(site, options, done)
            else OverlayOn(site, options, done)[k := Opt(options[k])]
  {
  }

  /** The loop over `options.iteritems()`; the order of the keys does not matter. */
  method CopyOptions(site: Site, options: Options) returns (r: Site)
    ensures r == Overlay(site, options)
  {
    r := site;
    var todo := options.Keys;
    assert r == OverlayOn(site, options, {});
    while todo != {}
      invariant todo <= options.Keys
      invariant r == OverlayOn(site, options, options.Keys - todo)
      decreases todo
    {
      var k :| k in todo;
      OverlayStep(site, options, options.Keys - todo, k);
      if k !in ExcludedKeys {
        r := r[k := Opt(options[k])];
      }
      assert options.Keys - (todo - {k}) == (options.Keys - todo) + {k};
      todo := todo - {k};
    }
  }

  /** `templ_vars['site']` for one page. */
  function SiteContext(options: Options, tags: map<string, seq<nat>>, pages: seq<Page>,
                       categories: map<string, seq<nat>>, slugs: map<string, nat>): Site
  {
    var site := Overlay(BaseSite(options, tags, pages, categories, slugs), options);
    if "author" in options then site["author" := Opt(options["author"])] else site
  }

  /**
   * Each key of the context: an option outside `ExcludedKeys` wins over the
   * literal field of the same name, and nothing else is there.
   */
  lemma ContextKeys(options: Options, tags: map<string, seq<nat>>, pages: seq<Page>,
                    categories: map<string, seq<nat>>, slugs: map<string, nat>, k: string)
    ensures var base := BaseSite(options, tags, pages, categories, slugs);
      var c := SiteContext(options, tags, pages, categories, slugs);
      && (k in c <==> k in base || (k in options && k !in ExcludedKeys))
      && (k in c && k in options && k !in ExcludedKeys ==> c[k] == Opt(options[k]))
      && (k in c && !(k in options && k !in ExcludedKeys) ==> c[k] == base[k])
  {
  }

  /** No excluded option reaches the context under its own name. */
  lemma ExcludedAbsent(options: Options, tags: map<string, seq<nat>>, pages: seq<Page>,
                       categories: map<string, seq<nat>>, slugs: map<string, nat>, k: string)
    requires k in ExcludedKeys
    ensures k !in SiteContext(options, tags, pages, categories, slugs)
  {
  }

  /**
   * The exclusion list names `templates_dir`, not the `template_dir` option
   * the engine uses, so the template directory reaches every context.
   */
  lemma TemplateDirPassesThrough(options: Options, tags: map<string, seq<nat>>, pages: seq<Page>,
                                 categories: map<string, seq<nat>>, slugs: map<string, nat>)
    requires "template_dir" in options
    ensures SiteContext(options, tags, pages, categories, slugs)["template_dir"] == Opt(options["template_dir"])
  {
  }

  /** The title is the `site_title` option, `Untitled` without one, unless an option named `title` replaces it. */
  lemma Title(options: Options, tags: map<string, seq<nat>>, pages: seq<Page>,
              categories: map<string, seq<nat>>, slugs: map<string, nat>)
    requires "title" !in options
    ensures SiteContext(options, tags, pages, categories, slugs)["title"] ==
              Opt(if "site_title" in options then options["site_title"] else Str("Untitled"))
  {
  }

  /** The page list in the context is the list as it stands when the page is rendered. */
  lemma PagesSnapshot(options: Options, tags: map<string, seq<nat>>, pages: seq<Page>,
                      categories: map<string, seq<nat>>, slugs: map<string, nat>)
    requires "pages" !in options
    ensures SiteContext(options, tags, pages, categories, slugs)["pages"] == PageList(pages)
  {
  }

  /** The separate `author` assignment changes nothing: the option loop has already copied it. */
  lemma AuthorAlreadyCopied(options: Options, tags: map<string, seq<nat>>, pages: seq<Page>,
                            categories: map<string, seq<nat>>, slugs: map<string, nat>)
    ensures SiteContext(options, tags, pages, categories, slugs)
         == Overlay(BaseSite(options, tags, pages, categories, slugs), options)
  {
    var site := Overlay(BaseSite(options, tags, pages, categories, slugs), options);
    if "author" in options {
      assert site["author" := Opt(options["author"])] == site;
    }
  }

  // ---------------------------------------------------------------------
  // The render loop
  // ---------------------------------------------------------------------

  /** `p.render(templ_vars)`, outside the model: the new pages it returns (none for a falsy result). */
  type RenderPage = (Page, Site) -> seq<Page>

  /** What the loop reads but does not change. */
  datatype Env = Env(
    options: Options,
    tags: map<string, seq<nat>>,
    categories: map<string, seq<nat>>,
    slugs: map<string, nat>,
    render: RenderPage)

  /** The page list, the position of the next page to render, and the events so far. */
  datatype RunState = RunState(pages: seq<Page>, next: nat, events: seq<Event>)

  /** The events of handling the page at `i`: it is rendered, then written if `make_file`. */
  function PageEvents(pages: seq<Page>, i: nat): seq<Event>
    requires i < |pages|
  {
    [Rendered(i)] + (if pages[i].meta.makeFile then [Wrote(i)] else [])
  }

  /** One turn of the loop: render the next page with a fresh context and append what it returns. */
  function StepRun(env: Env, s: RunState): (r: RunState)
    requires s.next < |s.pages|
    ensures r.next == s.next + 1 && |s.pages| <= |r.pages| && r.pages[..|s.pages|] == s.pages
  {
    var ctx := SiteContext(env.options, env.tags, s.pages, env.categories, env.slugs);
    var newPages := env.render(s.pages[s.next], ctx);
    var r := RunState(s.pages + newPages, s.next + 1, s.events + PageEvents(s.pages, s.next));
    assert r.pages[..|s.pages|] == s.pages;
    r
  }

  /** At most `fuel` turns of the loop, stopping when every page has been rendered. */
  function Run(env: Env, s: RunState, fuel: nat): RunState
    decreases fuel
  {
    if fuel == 0 || s.next >= |s.pages| then s else Run(env, StepRun(env, s), fuel - 1)
  }

  /** The events of handling the pages at positions `a` to `b - 1`, in order. */
  function Trace(pages: seq<Page>, a: nat, b: nat): seq<Event>
    requires a <= b <= |pages|
    decreases b - a
  {
    if a == b then [] else PageEvents(pages, a) + Trace(pages, a + 1, b)
  }

  /** The indices of the `Rendered` events, in order. */
  function RenderOrder(events: seq<Event>): seq<nat> {
    if events == [] then []
    else (if events[0].Rendered? then [events[0].index] else []) + RenderOrder(events[1..])
  }

  /** `[a, a + 1, ..., b - 1]`. */
  function Range(a: nat, b: nat): seq<nat>
    requires a <= b
    decreases b - a
  {
    if a == b then [] else [a] + Range(a + 1, b)
  }

  lemma {:induction false} RenderOrderConcat(a: seq<Event>, b: seq<Event>)
    ensures RenderOrder(a + b) == RenderOrder(a) + RenderOrder(b)
  {
    if a != [] {
      assert (a + b)[1..] == a[1..] + b;
      RenderOrderConcat(a[1..], b);
    } else {
      assert a + b == b;
    }
  }

  /** The pages are rendered one after the other, each once and in list order. */
  lemma {:induction false} TraceOrder(pages: seq<Page>, a: nat, b: nat)
    requires a <= b <= |pages|
    ensures RenderOrder(Trace(pages, a, b)) == Range(a, b)
    decreases b - a
  {
    if a < b {
      TraceOrder(pages, a + 1, b);
      RenderOrderConcat(PageEvents(pages, a), Trace(pages, a + 1, b));
      var w := if pages[a].meta.makeFile then [Wrote(a)] else [];
      RenderOrderConcat([Rendered(a)], w);
      assert RenderOrder([Rendered(a)]) == [a];
    }
  }

  /** A page is written exactly when it is handled and asks for a file. */
  lemma {:induction false} TraceWrites(pages: seq<Page>, a: nat, b: nat, j: nat)
    requires a <= b <= |pages|
    ensures Wrote(j) in Trace(pages, a, b) <==> a <= j < b && pages[j].meta.makeFile
    decreases b - a
  {
    if a < b {
      TraceWrites(pages, a + 1, b, j);
      PageWrites(pages, a, j);
      assert Trace(pages, a, b) == PageEvents(pages, a) + Trace(pages, a + 1, b);
    }
  }

  lemma PageWrites(pages: seq<Page>, i: nat, j: nat)
    requires i < |pages|
    ensures Wrote(j) in PageEvents(pages, i) <==> j == i && pages[i].meta.makeFile
  {
  }

  lemma {:induction false} TraceExtend(pages: seq<Page>, more: seq<Page>, a: nat, b: nat)
    requires a <= b <= |pages|
    ensures Trace(pages + more, a, b) == Trace(pages, a, b)
    decreases b - a
  {
    if a < b {
      TraceExtend(pages, more, a + 1, b);
    }
  }

  lemma {:induction false} TraceSnoc(pages: seq<Page>, a: nat, b: nat)
    requires a <= b < |pages|
    ensures Trace(pages, a, b + 1) == Trace(pages, a, b) + PageEvents(pages, b)
    decreases b - a
  {
    if a < b {
      TraceSnoc(pages, a + 1, b);
    }
  }

  /**
   * What the loop does: the pages it started with stay at the front of the
   * list, new pages only ever go to the end, and the events are exactly the
   * handling of the pages from the start position to where it stopped.
   */
  lemma {:induction false} RunShape(env: Env, s: RunState, fuel: nat)
    requires s.next <= |s.pages|
    ensures var r := Run(env, s, fuel);
      && s.next <= r.next <= |r.pages|
      && |s.pages| <= |r.pages| && r.pages[..|s.pages|] == s.pages
      && r.events == s.events + Trace(r.pages, s.next, r.next)
    decreases fuel
  {
    if fuel > 0 && s.next < |s.pages| {
      var t := StepRun(env, s);
      RunShape(env, t, fuel - 1);
      var r := Run(env, s, fuel);
      assert r == Run(env, t, fuel - 1);
      assert r.pages[..|s.pages|] == r.pages[..|t.pages|][..|s.pages|];
      TraceExtend(s.pages, t.pages[|s.pages|..], s.next, s.next);
      assert Trace(r.pages, s.next, r.next) == PageEvents(r.pages, s.next) + Trace(r.pages, t.next, r.next);
      assert r.pages[s.next] == s.pages[s.next];
      assert PageEvents(r.pages, s.next) == PageEvents(s.pages, s.next);
    }
  }

  /** The loop stops only when every page has been rendered or the fuel is spent. */
  lemma {:induction false} RunStops(env: Env, s: RunState, fuel: nat)
    requires s.next <= |s.pages|
    ensures var r := Run(env, s, fuel);
      r.next == |r.pages| || r.next - s.next == fuel
    decreases fuel
  {
    if fuel > 0 && s.next < |s.pages| {
      RunStops(env, StepRun(env, s), fuel - 1);
    }
  }

  /** When rendering never adds pages, enough fuel renders exactly the pages there were. */
  lemma {:induction false} RunCompletes(env: Env, s: RunState, fuel: nat)
    requires s.next <= |s.pages|
    requires forall p, c :: env.render(p, c) == []
    requires fuel >= |s.pages| - s.next
    ensures Run(env, s, fuel).pages == s.pages
    ensures Run(env, s, fuel).next == |s.pages|
    decreases fuel
  {
    if fuel > 0 && s.next < |s.pages| {
      var t := StepRun(env, s);
      assert t.pages == s.pages + [];
      RunCompletes(env, t, fuel - 1);
    }
  }
}
