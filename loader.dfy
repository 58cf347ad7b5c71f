/**
 * The selection logic of `Engine.load_pages`: which walked files become
 * pages, which renderer each is read with, and how the pages that hooks
 * return are added before and after the walk.
 */
module Loader {
  import opened Wrappers
  import opened Pages
  import opened Renderers
  import opened Hooks

  // ---------------------------------------------------------------------
  // File names
  // ---------------------------------------------------------------------

  /** `f.startswith('.')`: hidden files are never read. */
  predicate Hidden(name: string) { |name| > 0 && name[0] == '.' }

  /**
   * `f.split('.')[-1]`: the text after the last dot, or the whole name when
   * it has no dot.
   */
  function Extension(name: string): string {
    if name == [] then []
    else if name[|name| - 1] == '.' then []
    else Extension(name[..|name| - 1]) + [name[|name| - 1]]
  }

  /** The extension is a dot-free suffix of the name, preceded by a dot unless it is the whole name. */
  lemma {:induction false} ExtensionIsLastPart(name: string)
    ensures var r := Extension(name);
      && |r| <= |name| && r == name[|name| - |r|..]
      && '.' !in r
      && (|r| < |name| ==> name[|name| - |r| - 1] == '.')
  {
    if name != [] && name[|name| - 1] != '.' {
      var init := name[..|name| - 1];
      ExtensionIsLastPart(init);
      var r := Extension(name);
      assert init[|init| - |r| + 1..] + [name[|name| - 1]] == name[|name| - |r|..];
    }
  }

  /** A name made of a stem, a dot and a dot-free suffix has that suffix as its extension. */
  lemma ExtensionOf(stem: string, ext: string)
    requires '.' !in ext
    ensures Extension(stem + "." + ext) == ext
  {
    var name := stem + "." + ext;
    ExtensionIsLastPart(name);
    assert name[|stem|] == '.';
    assert name[|stem| + 1..] == ext;
  }

  /** A name without a dot is its own extension (`'README'.split('.')[-1]`). */
  lemma NoDotWholeName(name: string)
    requires '.' !in name
    ensures Extension(name) == name
  {
    ExtensionIsLastPart(name);
  }

  // ---------------------------------------------------------------------
  // Renderer lookup
  // ---------------------------------------------------------------------

  /** The first renderer of `all` whose `extensions` contain `ext`. */
  function FirstListing(all: seq<Kind>, ext: string): (r: Option<Kind>)
    ensures r.Some? ==> r.value in all && ext in Extensions(r.value)
  {
    if all == [] then None
    else if ext in Extensions(all[0]) then Some(all[0])
    else FirstListing(all[1..], ext)
  }

  /** Nothing is found exactly when no renderer of the registry lists the extension. */
  lemma {:induction false} FirstListingNone(all: seq<Kind>, ext: string)
    ensures FirstListing(all, ext).None? <==> forall k :: 0 <= k < |all| ==> ext !in Extensions(all[k])
  {
    if all != [] && ext !in Extensions(all[0]) {
      FirstListingNone(all[1..], ext);
      assert forall k :: 1 <= k < |all| ==> all[k] == all[1..][k - 1];
    }
  }

  /** The renderer a file is read with: the first one listing its extension, else the identity. */
  function Chosen(all: seq<Kind>, ext: string): Kind {
    match FirstListing(all, ext)
    case Some(k) => k
    case None => Base
  }

  /**
   * The `for ... else` of `load_pages`: the first renderer listing the
   * extension, or the identity renderer with a warning.
   */
  method SelectRenderer(all: seq<Kind>, ext: string) returns (renderer: Kind, warned: bool)
    ensures renderer == Chosen(all, ext)
    ensures warned <==> FirstListing(all, ext).None?
  {
    renderer := Plain;
    var i := 0;
    while i < |all|
      invariant 0 <= i <= |all|
      invariant FirstListing(all[i..], ext) == FirstListing(all, ext)
      decreases |all| - i
    {
      assert all[i..][1..] == all[i + 1..];
      if ext in Extensions(all[i]) {
        renderer := all[i];
        return renderer, false;
      }
      i := i + 1;
    }
    renderer := Base;
    warned := true;
  }

  /** The lookup never settles on the base renderer: it lists no extension. */
  lemma NeverBase(all: seq<Kind>, ext: string)
    ensures FirstListing(all, ext) != Some(Base)
  {
  }

  /**
   * In a registry the lookup is unambiguous: whichever renderer lists the
   * extension is the one chosen.
   */
  lemma RegistryLookup(libs: Libraries, ext: string, j: nat)
    requires j < |Registry(libs)| && ext in Extensions(Registry(libs)[j])
    ensures Chosen(Registry(libs), ext) == Registry(libs)[j]
  {
    var all := Registry(libs);
    var r := FirstListing(all, ext);
    FirstListingNone(all, ext);
    var i :| 0 <= i < |all| && all[i] == r.value;
    if i < j {
      ExtensionsDisjoint(libs, i, j, ext);
    } else if j < i {
      ExtensionsDisjoint(libs, j, i, ext);
    }
  }

  /** A `.txt` file is always read with `Plain`. */
  lemma TextIsPlain(libs: Libraries)
    ensures Chosen(Registry(libs), "txt") == Plain
  {
    RegistryLookup(libs, "txt", 1);
  }

  // ---------------------------------------------------------------------
  // The walk
  // ---------------------------------------------------------------------

  /** A file found by `os.walk`: the directory it is in and its name. */
  datatype WalkedFile = WalkedFile(root: string, name: string)

  /** `os.path.join(root, name)` for a plain file name. */
  function PathJoin(root: string, name: string): string {
    if root == [] || root[|root| - 1] == '/' then root + name else root + "/" + name
  }

  /** `Page.from_file(path, options, engine, renderer)`, outside the model. */
  type FromFile = (string, Kind) -> Option<Page>

  /** The page a walked file contributes: a published page read from a visible file. */
  function FilePage(all: seq<Kind>, f: WalkedFile, fromFile: FromFile): seq<Page> {
    if Hidden(f.name) then []
    else
      match fromFile(PathJoin(f.root, f.name), Chosen(all, Extension(f.name)))
      case Some(p) => if p.meta.published then [p] else []
      case None => []
  }

  /** The warning a walked file causes: a visible file whose extension no renderer lists. */
  function FileWarning(all: seq<Kind>, f: WalkedFile): seq<Event> {
    if !Hidden(f.name) && FirstListing(all, Extension(f.name)).None? then [NoRenderer(f.name)] else []
  }

  /** The pages read from the walked files, in walk order. */
  function WalkPages(all: seq<Kind>, files: seq<WalkedFile>, fromFile: FromFile): seq<Page> {
    if files == [] then []
    else WalkPages(all, files[..|files| - 1], fromFile) + FilePage(all, files[|files| - 1], fromFile)
  }

  /** The warnings of the walk, in walk order. */
  function WalkWarnings(all: seq<Kind>, files: seq<WalkedFile>): seq<Event> {
    if files == [] then []
    else WalkWarnings(all, files[..|files| - 1]) + FileWarning(all, files[|files| - 1])
  }

  /** The loop over the walked files. */
  method LoadFiles(all: seq<Kind>, files: seq<WalkedFile>, fromFile: FromFile) returns (pages: seq<Page>, warnings: seq<Event>)
    ensures pages == WalkPages(all, files, fromFile)
    ensures warnings == WalkWarnings(all, files)
  {
    pages, warnings := [], [];
    var i := 0;
    while i < |files|
      invariant 0 <= i <= |files|
      invariant pages == WalkPages(all, files[..i], fromFile)
      invariant warnings == WalkWarnings(all, files[..i])
      decreases |files| - i
    {
      WalkStep(all, files, i, fromFile);
      var f := files[i];
      if !Hidden(f.name) {
        var ext := Extension(f.name);
        var renderer, warned := SelectRenderer(all, ext);
        if warned {
          warnings := warnings + [NoRenderer(f.name)];
        }
        var p := fromFile(PathJoin(f.root, f.name), renderer);
        if p.Some? && p.value.meta.published {
          pages := pages + [p.value];
        }
      }
      i := i + 1;
    }
    assert files[..i] == files;
  }

  /** One turn of the walk loop extends both results by what the next file contributes. */
  lemma WalkStep(all: seq<Kind>, files: seq<WalkedFile>, i: nat, fromFile: FromFile)
    requires i < |files|
    ensures WalkPages(all, files[..i + 1], fromFile) == WalkPages(all, files[..i], fromFile) + FilePage(all, files[i], fromFile)
    ensures WalkWarnings(all, files[..i + 1]) == WalkWarnings(all, files[..i]) + FileWarning(all, files[i])
  {
    assert files[..i + 1][..i] == files[..i];
  }

  /** A file contributes a page exactly when it is visible and reads as a published page. */
  predicate ReadsAs(all: seq<Kind>, f: WalkedFile, fromFile: FromFile, p: Page) {
    !Hidden(f.name) && p.meta.published &&
    fromFile(PathJoin(f.root, f.name), Chosen(all, Extension(f.name))) == Some(p)
  }

  lemma FilePageReadsAs(all: seq<Kind>, f: WalkedFile, fromFile: FromFile, p: Page)
    ensures p in FilePage(all, f, fromFile) <==> ReadsAs(all, f, fromFile, p)
  {
  }

  /**
   * Every page of the walk is a published page read from a visible file
   * with its chosen renderer, and every such page is in the walk.
   */
  lemma {:induction false} WalkPagesMembership(all: seq<Kind>, files: seq<WalkedFile>, fromFile: FromFile, p: Page)
    ensures p in WalkPages(all, files, fromFile) <==>
              exists i :: 0 <= i < |files| && ReadsAs(all, files[i], fromFile, p)
  {
    WalkPagesFrom(all, files, fromFile, p);
    if p in WalkPages(all, files, fromFile) {
      var i :| 0 <= i < |files| && p in FilePage(all, files[i], fromFile);
      FilePageReadsAs(all, files[i], fromFile, p);
    } else {
      forall i | 0 <= i < |files| ensures !ReadsAs(all, files[i], fromFile, p) {
        FilePageReadsAs(all, files[i], fromFile, p);
      }
    }
  }

  /** A page is in the walk exactly when some walked file yields it. */
  lemma WalkPagesFrom(all: seq<Kind>, files: seq<WalkedFile>, fromFile: FromFile, p: Page)
    ensures p in WalkPages(all, files, fromFile) <==>
              exists i :: 0 <= i < |files| && p in FilePage(all, files[i], fromFile)
  {
    var read := (f: WalkedFile) => FilePage(all, f, fromFile);
    WalkPagesConcat(all, files, fromFile);
    ConcatMember(read, files, p);
    assert forall i :: 0 <= i < |files| ==> read(files[i]) == FilePage(all, files[i], fromFile);
  }

  lemma {:induction false} WalkPagesConcat(all: seq<Kind>, files: seq<WalkedFile>, fromFile: FromFile)
    ensures WalkPages(all, files, fromFile) == Concat((f: WalkedFile) => FilePage(all, f, fromFile), files)
  {
    if files != [] {
      WalkPagesConcat(all, files[..|files| - 1], fromFile);
    }
  }

  /** The lists `f` gives for the elements of `xs`, one after another. */
  function Concat<A, B>(f: A -> seq<B>, xs: seq<A>): seq<B> {
    if xs == [] then [] else Concat(f, xs[..|xs| - 1]) + f(xs[|xs| - 1])
  }

  lemma {:induction false} ConcatMember<A, B>(f: A -> seq<B>, xs: seq<A>, y: B)
    ensures y in Concat(f, xs) <==> exists i :: 0 <= i < |xs| && y in f(xs[i])
  {
    if xs != [] {
      var n := |xs| - 1;
      var init := xs[..n];
      ConcatMember(f, init, y);
      assert Concat(f, xs) == Concat(f, init) + f(xs[n]);
      if y in Concat(f, init) {
        var i :| 0 <= i < |init| && y in f(init[i]);
        assert init[i] == xs[i];
      } else if y !in f(xs[n]) {
        forall i | 0 <= i < |xs| ensures y !in f(xs[i]) {
          if i < n {
            assert init[i] == xs[i];
          }
        }
      }
    }
  }



  /** Hidden files contribute neither pages nor warnings. */
  lemma {:induction false} AllHidden(all: seq<Kind>, files: seq<WalkedFile>, fromFile: FromFile)
    requires forall i :: 0 <= i < |files| ==> Hidden(files[i].name)
    ensures WalkPages(all, files, fromFile) == [] && WalkWarnings(all, files) == []
  {
    if files != [] {
      AllHidden(all, files[..|files| - 1], fromFile);
    }
  }

  // ---------------------------------------------------------------------
  // Pages from hooks
  // ---------------------------------------------------------------------

  /** `for pages in results: if pages: all_pages.extend(pages)`. */
  function Gathered(results: seq<HookResult>): seq<Page> {
    if results == [] then []
    else Gathered(results[..|results| - 1]) + results[|results| - 1].GetOr([])
  }

  /** The loop that adds the pages hooks returned; `None` and empty results add nothing. */
  method Extend(pages: seq<Page>, results: seq<HookResult>) returns (r: seq<Page>)
    ensures r == pages + Gathered(results)
  {
    r := pages;
    var i := 0;
    while i < |results|
      invariant 0 <= i <= |results|
      invariant r == pages + Gathered(results[..i])
      decreases |results| - i
    {
      assert results[..i + 1][..i] == results[..i];
      if results[i].Some? && results[i].value != [] {
        r := r + results[i].value;
      }
      i := i + 1;
    }
    assert results[..i] == results;
  }

  /** Pages returned by hooks keep the order of the hooks and of each list. */
  lemma {:induction false} GatheredConcat(a: seq<HookResult>, b: seq<HookResult>)
    ensures Gathered(a + b) == Gathered(a) + Gathered(b)
  {
    if b != [] {
      var init := b[..|b| - 1];
      GatheredConcat(a, init);
      assert (a + b)[..|a + b| - 1] == a + init;
    } else {
      assert a + b == a;
    }
  }

  /** Hooks that return nothing add nothing. */
  lemma {:induction false} GatheredNothing(results: seq<HookResult>)
    requires forall i :: 0 <= i < |results| ==> results[i].None? || results[i] == Some([])
    ensures Gathered(results) == []
  {
    if results != [] {
      GatheredNothing(results[..|results| - 1]);
    }
  }

  /**
   * The pages `load_pages` leaves in the list: what was there, what the
   * `site.content.gather.pre` hooks returned, the walk, and what the
   * `site.content.gather.post` hooks returned when shown the list so far.
   */
  function LoadedPages(start: seq<Page>, hooks: HookTable, call: Caller, options: Options,
                       all: seq<Kind>, files: seq<WalkedFile>, fromFile: FromFile): (r: seq<Page>)
    ensures |start| <= |r| && r[..|start|] == start
  {
    var before := start + Gathered(RunHook(hooks, call, options, "site.content.gather.pre", NoArg))
                  + WalkPages(all, files, fromFile);
    var r := before + Gathered(RunHook(hooks, call, options, "site.content.gather.post", PagesArg(before)));
    assert r[..|start|] == start;
    r
  }

  /** Without hooks, the list gains exactly the pages of the walk. */
  lemma NoHooksOnlyWalk(start: seq<Page>, call: Caller, options: Options,
                        all: seq<Kind>, files: seq<WalkedFile>, fromFile: FromFile)
    ensures LoadedPages(start, map[], call, options, all, files, fromFile) == start + WalkPages(all, files, fromFile)
  {
    var rs: seq<HookResult> := [];
    assert Gathered(rs) == [];
    assert start + [] + WalkPages(all, files, fromFile) + [] == start + WalkPages(all, files, fromFile);
  }

  // ---------------------------------------------------------------------
  // Pages arrive without subpages
  // ---------------------------------------------------------------------

  /** No page of the list has a `subpages` entry yet. */
  ghost predicate Fresh(pages: seq<Page>) {
    forall j :: 0 <= j < |pages| ==> pages[j].meta.subpages == []
  }

  /** Every page `Page.from_file` returns starts without subpages. */
  ghost predicate FreshReads(fromFile: FromFile) {
    forall path, k :: fromFile(path, k).Some? ==> fromFile(path, k).value.meta.subpages == []
  }

  /** Every page a hook returns starts without subpages. */
  ghost predicate FreshResults(call: Caller) {
    forall h, o, a :: call(h, o, a).Some? ==> Fresh(call(h, o, a).value)
  }

  lemma FreshConcat(a: seq<Page>, b: seq<Page>)
    requires Fresh(a) && Fresh(b)
    ensures Fresh(a + b)
  {
    assert forall j :: |a| <= j < |a + b| ==> (a + b)[j] == b[j - |a|];
  }

  lemma {:induction false} GatheredFresh(results: seq<HookResult>)
    requires forall i :: 0 <= i < |results| && results[i].Some? ==> Fresh(results[i].value)
    ensures Fresh(Gathered(results))
  {
    if results != [] {
      GatheredFresh(results[..|results| - 1]);
      FreshConcat(Gathered(results[..|results| - 1]), results[|results| - 1].GetOr([]));
    }
  }

  lemma {:induction false} WalkFresh(all: seq<Kind>, files: seq<WalkedFile>, fromFile: FromFile)
    requires FreshReads(fromFile)
    ensures Fresh(WalkPages(all, files, fromFile))
  {
    if files != [] {
      WalkFresh(all, files[..|files| - 1], fromFile);
      FreshConcat(WalkPages(all, files[..|files| - 1], fromFile), FilePage(all, files[|files| - 1], fromFile));
    }
  }

  /** If files and hooks deliver pages without subpages, so does `load_pages`. */
  lemma LoadedFresh(start: seq<Page>, hooks: HookTable, call: Caller, options: Options,
                    all: seq<Kind>, files: seq<WalkedFile>, fromFile: FromFile)
    requires Fresh(start) && FreshReads(fromFile) && FreshResults(call)
    ensures Fresh(LoadedPages(start, hooks, call, options, all, files, fromFile))
  {
    var pre := RunHook(hooks, call, options, "site.content.gather.pre", NoArg);
    GatheredFresh(pre);
    WalkFresh(all, files, fromFile);
    FreshConcat(start, Gathered(pre));
    var before := start + Gathered(pre) + WalkPages(all, files, fromFile);
    FreshConcat(start + Gathered(pre), WalkPages(all, files, fromFile));
    var post := RunHook(hooks, call, options, "site.content.gather.post", PagesArg(before));
    GatheredFresh(post);
    FreshConcat(before, Gathered(post));
  }
}
