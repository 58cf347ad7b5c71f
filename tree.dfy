/**
 * The category tree builder (`Engine.make_tree`): a stable sort of the page
 * list by category depth, the `categories` buckets keyed by first category
 * segment, and the forest of pages linked through their `subpages` lists.
 *
 * Everything here is a specification: `Build(pages, k)` is the state after
 * the first `k` pages of the (already sorted) list have been processed. The
 * imperative loop that does the work is `Engine.Engine.MakeTree`.
 */
module Tree {
  import opened Wrappers
  import opened Pages

  // ---------------------------------------------------------------------
  // Stable sort by category depth
  // ---------------------------------------------------------------------

  /** The sort key: the length of the page's category path. */
  function Depth(p: Page): nat { |p.meta.category| }

  ghost predicate SortedByDepth(s: seq<Page>) {
    forall i, j :: 0 <= i < j < |s| ==> Depth(s[i]) <= Depth(s[j])
  }

  /** The pages of depth `d`, in their order in `s`. */
  function OfDepth(s: seq<Page>, d: nat): seq<Page> {
    if s == [] then [] else (if Depth(s[0]) == d then [s[0]] else []) + OfDepth(s[1..], d)
  }

  lemma OfDepthCons(p: Page, s: seq<Page>, d: nat)
    ensures OfDepth([p] + s, d) == (if Depth(p) == d then [p] else []) + OfDepth(s, d)
  {
    assert ([p] + s)[1..] == s;
  }

  lemma OfDepthUnfold(s: seq<Page>, d: nat)
    requires s != []
    ensures Depth(s[0]) == d ==> OfDepth(s, d) == [s[0]] + OfDepth(s[1..], d)
    ensures Depth(s[0]) != d ==> OfDepth(s, d) == OfDepth(s[1..], d)
  {
    if Depth(s[0]) != d {
      assert [] + OfDepth(s[1..], d) == OfDepth(s[1..], d);
    }
  }

  /** The first page of a sorted list is among the shallowest. */
  lemma HeadShallowest(s: seq<Page>, x: Page)
    requires SortedByDepth(s) && x in s
    ensures Depth(s[0]) <= Depth(x)
  {
    var j :| 0 <= j < |s| && s[j] == x;
    if j > 0 {
      assert Depth(s[0]) <= Depth(s[j]);
    }
  }

  lemma {:induction false} OfDepthMember(s: seq<Page>, x: Page, d: nat)
    ensures x in OfDepth(s, d) <==> x in s && Depth(x) == d
  {
    if s != [] {
      OfDepthMember(s[1..], x, d);
      assert s == [s[0]] + s[1..];
    }
  }

  /** Insert `p` before the first page that is at least as deep. */
  function Insert(p: Page, s: seq<Page>): (r: seq<Page>)
    ensures multiset(r) == multiset(s) + multiset{p}
    ensures r[0] == p || (s != [] && r[0] == s[0])
  {
    if s == [] || Depth(p) <= Depth(s[0]) then
      [p] + s
    else
      assert s == [s[0]] + s[1..];
      [s[0]] + Insert(p, s[1..])
  }

  lemma {:induction false} InsertSorted(p: Page, s: seq<Page>)
    requires SortedByDepth(s)
    ensures SortedByDepth(Insert(p, s))
  {
    if s != [] && Depth(p) > Depth(s[0]) {
      var t := Insert(p, s[1..]);
      InsertSorted(p, s[1..]);
      assert Depth(s[0]) <= Depth(t[0]);
      assert Insert(p, s) == [s[0]] + t;
    }
  }

  /** Inserting `p` puts it in front of the pages of its own depth. */
  lemma {:induction false} InsertOfDepth(p: Page, s: seq<Page>, d: nat)
    ensures OfDepth(Insert(p, s), d) == (if Depth(p) == d then [p] else []) + OfDepth(s, d)
  {
    if s == [] || Depth(p) <= Depth(s[0]) {
      OfDepthCons(p, s, d);
    } else {
      var t := Insert(p, s[1..]);
      assert Insert(p, s) == [s[0]] + t;
      InsertOfDepth(p, s[1..], d);
      OfDepthCons(s[0], t, d);
      OfDepthUnfold(s, d);
    }
  }

  /**
   * The page list as `list.sort(key=lambda p: len(p.meta['category']))`
   * leaves it: ordered by depth, and within one depth in the original order.
   */
  function SortByDepth(s: seq<Page>): (r: seq<Page>)
    ensures SortedByDepth(r)
    ensures multiset(r) == multiset(s)
    ensures forall d :: OfDepth(r, d) == OfDepth(s, d)
  {
    if s == [] then []
    else
      var t := SortByDepth(s[1..]);
      assert s == [s[0]] + s[1..];
      InsertSorted(s[0], t);
      assert forall d :: OfDepth(Insert(s[0], t), d) == OfDepth(s, d) by {
        forall d ensures OfDepth(Insert(s[0], t), d) == OfDepth(s, d) {
          InsertOfDepth(s[0], t, d);
          OfDepthCons(s[0], s[1..], d);
        }
      }
      Insert(s[0], t)
  }

  /** Two sorted lists with the same pages at every depth start with the same page. */
  lemma SameHead(a: seq<Page>, b: seq<Page>)
    requires SortedByDepth(a) && SortedByDepth(b) && a != [] && b != []
    requires forall d :: OfDepth(a, d) == OfDepth(b, d)
    ensures a[0] == b[0]
  {
    var da, db := Depth(a[0]), Depth(b[0]);
    assert OfDepth(a, da) == OfDepth(b, da) && OfDepth(a, db) == OfDepth(b, db);
    SameShallowest(a, b);
    HeadOfDepth(a);
    HeadOfDepth(b);
  }

  /** The two lists agree on their smallest depth. */
  lemma SameShallowest(a: seq<Page>, b: seq<Page>)
    requires SortedByDepth(a) && SortedByDepth(b) && a != [] && b != []
    requires OfDepth(a, Depth(a[0])) == OfDepth(b, Depth(a[0]))
    requires OfDepth(a, Depth(b[0])) == OfDepth(b, Depth(b[0]))
    ensures Depth(a[0]) == Depth(b[0])
  {
    OfDepthMember(a, a[0], Depth(a[0]));
    OfDepthMember(b, a[0], Depth(a[0]));
    HeadShallowest(b, a[0]);
    OfDepthMember(b, b[0], Depth(b[0]));
    OfDepthMember(a, b[0], Depth(b[0]));
    HeadShallowest(a, b[0]);
  }

  /** A list's first page leads the pages of its depth. */
  lemma HeadOfDepth(s: seq<Page>)
    requires s != []
    ensures OfDepth(s, Depth(s[0])) != [] && OfDepth(s, Depth(s[0]))[0] == s[0]
  {
    OfDepthUnfold(s, Depth(s[0]));
  }




  /** Removing the same first page keeps the pages of every depth equal. */
  lemma SameTails(a: seq<Page>, b: seq<Page>, d: nat)
    requires a != [] && b != [] && a[0] == b[0] && OfDepth(a, d) == OfDepth(b, d)
    ensures OfDepth(a[1..], d) == OfDepth(b[1..], d)
  {
    OfDepthUnfold(a, d);
    OfDepthUnfold(b, d);
    var x, y := OfDepth(a[1..], d), OfDepth(b[1..], d);
    if Depth(a[0]) == d {
      assert [a[0]] + x == [a[0]] + y;
      assert x == ([a[0]] + x)[1..] && y == ([a[0]] + y)[1..];
    }
  }

  /**
   * Sortedness and per-depth order determine a sequence, so every stable
   * sort by depth (Python's included) yields exactly `SortByDepth(s)`.
   */
  lemma {:induction false} StableSortUnique(a: seq<Page>, b: seq<Page>)
    requires SortedByDepth(a) && SortedByDepth(b)
    requires forall d :: OfDepth(a, d) == OfDepth(b, d)
    ensures a == b
  {
    if a != [] && b != [] {
      SameHead(a, b);
      forall d ensures OfDepth(a[1..], d) == OfDepth(b[1..], d) {
        SameTails(a, b, d);
      }
      StableSortUnique(a[1..], b[1..]);
      assert a == [a[0]] + a[1..];
      assert b == [b[0]] + b[1..];
    } else if a != [] {
      OfDepthMember(a, a[0], Depth(a[0]));
      OfDepthMember(b, a[0], Depth(a[0]));
    } else if b != [] {
      OfDepthMember(b, b[0], Depth(b[0]));
      OfDepthMember(a, b[0], Depth(b[0]));
    }
  }

  // ---------------------------------------------------------------------
  // The forest
  // ---------------------------------------------------------------------

  /**
   * A place where a page's meta can be appended: the local top-level list
   * of `make_tree`, or the `subpages` list of the page at `parent`.
   */
  datatype Loc = Top | Under(parent: nat)

  /** The top-level list and every page's `subpages` list. */
  datatype Links = Links(top: seq<nat>, subs: seq<seq<nat>>)

  /** The state of `make_tree`: buckets, links, and the pages found orphaned. */
  datatype Forest = Forest(categories: map<string, seq<nat>>, links: Links, orphans: seq<nat>)

  ghost predicate Below(ls: seq<nat>, n: nat) {
    forall m :: 0 <= m < |ls| ==> ls[m] < n
  }

  ghost predicate Increasing(ls: seq<nat>) {
    forall a, b :: 0 <= a < b < |ls| ==> ls[a] < ls[b]
  }

  /** Every position stored in the links names a page of an `n`-page list. */
  ghost predicate Bounded(l: Links, n: nat) {
    && |l.subs| == n
    && Below(l.top, n)
    && forall p :: 0 <= p < n ==> Below(l.subs[p], n)
  }

  predicate ValidLoc(l: Links, loc: Loc) {
    loc.Under? ==> loc.parent < |l.subs|
  }

  /** The list at `loc`; a position outside the links names no list. */
  function ListAt(l: Links, loc: Loc): seq<nat> {
    match loc
    case Top => l.top
    case Under(p) => if p < |l.subs| then l.subs[p] else []
  }

  /**
   * The first sibling whose slug is `slug` (`[... if subpage['slug'] == cat][0]`).
   * Positions outside the page list never occur (see `PathConsistency`) and
   * are passed over.
   */
  function FirstWithSlug(pages: seq<Page>, ls: seq<nat>, slug: string): (r: Option<nat>)
    ensures r.Some? ==> r.value in ls && r.value < |pages| && pages[r.value].meta.slug == slug
  {
    if ls == [] then None
    else if ls[0] < |pages| && pages[ls[0]].meta.slug == slug then Some(ls[0])
    else FirstWithSlug(pages, ls[1..], slug)
  }

  /** Nothing is found exactly when no sibling has the slug. */
  lemma {:induction false} FirstWithSlugNone(pages: seq<Page>, ls: seq<nat>, slug: string)
    ensures FirstWithSlug(pages, ls, slug).None? <==>
              forall m :: 0 <= m < |ls| && ls[m] < |pages| ==> pages[ls[m]].meta.slug != slug
  {
    if ls != [] && !(ls[0] < |pages| && pages[ls[0]].meta.slug == slug) {
      FirstWithSlugNone(pages, ls[1..], slug);
      assert forall m :: 1 <= m < |ls| ==> ls[m] == ls[1..][m - 1];
    }
  }

  /** The sibling found is the first one with that slug. */
  lemma {:induction false} FirstWithSlugIsFirst(pages: seq<Page>, ls: seq<nat>, slug: string)
    ensures FirstWithSlug(pages, ls, slug).Some? ==>
              exists k :: 0 <= k < |ls| && ls[k] == FirstWithSlug(pages, ls, slug).value &&
                forall m :: 0 <= m < k && ls[m] < |pages| ==> pages[ls[m]].meta.slug != slug
  {
    if ls != [] && !(ls[0] < |pages| && pages[ls[0]].meta.slug == slug) {
      var r := FirstWithSlug(pages, ls[1..], slug);
      if r.Some? {
        FirstWithSlugIsFirst(pages, ls[1..], slug);
        var k :| 0 <= k < |ls| - 1 && ls[1..][k] == r.value &&
                 forall m :: 0 <= m < k && ls[1..][m] < |pages| ==> pages[ls[1..][m]].meta.slug != slug;
        assert ls[k + 1] == r.value;
        forall m | 0 <= m < k + 1 && ls[m] < |pages| ensures pages[ls[m]].meta.slug != slug {
          if m > 0 {
            assert ls[m] == ls[1..][m - 1];
          }
        }
        assert 0 <= k + 1 < |ls| && ls[k + 1] == FirstWithSlug(pages, ls, slug).value;
      }
    } else if ls != [] {
      assert ls[0] == FirstWithSlug(pages, ls, slug).value;
    }
  }

  /** Walk a category path from `loc`, descending into the first matching sibling. */
  function Resolve(pages: seq<Page>, l: Links, cats: seq<string>, loc: Loc): (r: Option<Loc>)
    ensures r.Some? && r.value != loc ==> r.value.Under? && r.value.parent < |pages|
    decreases cats
  {
    if cats == [] then Some(loc)
    else
      match FirstWithSlug(pages, ListAt(l, loc), cats[0])
      case None => None
      case Some(j) => Resolve(pages, l, cats[1..], Under(j))
  }

  /** `siblings.append(p.meta)` on the list at `loc`. */
  function Append(l: Links, loc: Loc, i: nat): (r: Links)
    ensures |r.subs| == |l.subs|
  {
    match loc
    case Top => l.(top := l.top + [i])
    case Under(p) => if p < |l.subs| then l.(subs := l.subs[p := l.subs[p] + [i]]) else l
  }

  /** Appending changes the list at `loc` only, and only by its last element. */
  lemma AppendListAt(l: Links, loc: Loc, i: nat, q: Loc)
    requires ValidLoc(l, q)
    ensures ListAt(Append(l, loc, i), q) == ListAt(l, q) + (if q == loc && ValidLoc(l, loc) then [i] else [])
  {
  }

  /** `self.categories[top_cat].append(p.meta)` for a page with a category. */
  function AddToBucket(cs: map<string, seq<nat>>, cats: seq<string>, i: nat): map<string, seq<nat>> {
    if |cats| == 0 then cs
    else cs[cats[0] := (if cats[0] in cs then cs[cats[0]] else []) + [i]]
  }

  /** The links after the page at position `i` has been walked and, if the walk ended, appended. */
  function Place(pages: seq<Page>, l: Links, i: nat): (r: Links)
    requires i < |pages|
    ensures |r.subs| == |l.subs|
  {
    match Resolve(pages, l, pages[i].meta.category, Top)
    case None => l
    case Some(loc) => Append(l, loc, i)
  }

  /** Processing of the page at position `i`: one turn of the loop of `make_tree`. */
  function Step(pages: seq<Page>, f: Forest, i: nat): (r: Forest)
    requires i < |pages|
    ensures |r.links.subs| == |f.links.subs|
  {
    var cats := pages[i].meta.category;
    var cs := AddToBucket(f.categories, cats, i);
    match Resolve(pages, f.links, cats, Top)
    case None => Forest(cs, f.links, f.orphans + [i])
    case Some(loc) => Forest(cs, Append(f.links, loc, i), f.orphans)
  }

  /** Every page starts with an empty `subpages` list. */
  function EmptyLinks(n: nat): (l: Links)
    ensures |l.subs| == n
  {
    Links([], seq(n, _ => []))
  }

  /** The links after the first `k` pages have been processed. */
  function LinksOf(pages: seq<Page>, k: nat): (r: Links)
    requires k <= |pages|
    ensures |r.subs| == |pages|
  {
    if k == 0 then EmptyLinks(|pages|) else Place(pages, LinksOf(pages, k - 1), k - 1)
  }

  /** Where the walk of the page at position `i` ended, if anywhere. */
  function Placed(pages: seq<Page>, i: nat): Option<Loc>
    requires i < |pages|
  {
    Resolve(pages, LinksOf(pages, i), pages[i].meta.category, Top)
  }

  /** Whether the walk of the page at position `j` failed. */
  function IsOrphan(pages: seq<Page>): nat -> bool {
    (j: nat) => j < |pages| && Placed(pages, j).None?
  }

  /** The positions below `k` that `f` selects, in increasing order. */
  function Select(f: nat -> bool, k: nat): seq<nat> {
    if k == 0 then [] else Select(f, k - 1) + (if f(k - 1) then [k - 1] else [])
  }

  /** The orphans among the first `k` pages, in processing order. */
  function OrphansOf(pages: seq<Page>, k: nat): seq<nat>
    requires k <= |pages|
  {
    Select(IsOrphan(pages), k)
  }

  /** The bucket map after the first `k` pages have been processed. */
  function Categories(pages: seq<Page>, k: nat): map<string, seq<nat>>
    requires k <= |pages|
  {
    if k == 0 then map[] else AddToBucket(Categories(pages, k - 1), pages[k - 1].meta.category, k - 1)
  }

  /** The state after the first `k` pages of the sorted list have been processed. */
  function Build(pages: seq<Page>, k: nat): (r: Forest)
    requires k <= |pages|
    ensures |r.links.subs| == |pages|
  {
    Forest(Categories(pages, k), LinksOf(pages, k), OrphansOf(pages, k))
  }

  /** `Build` is the loop of `make_tree`: each turn is one `Step`. */
  lemma BuildStep(pages: seq<Page>, k: nat)
    requires 0 < k <= |pages|
    ensures Build(pages, k) == Step(pages, Build(pages, k - 1), k - 1)
  {
  }

  /** The page list with each page's `subpages` replaced by the links' list. */
  function WithSubpages(pages: seq<Page>, l: Links): (r: seq<Page>)
    requires |l.subs| == |pages|
    ensures |r| == |pages|
    ensures forall j :: 0 <= j < |r| ==>
              r[j].path == pages[j].path && r[j].meta == pages[j].meta.(subpages := l.subs[j])
  {
    seq(|pages|, j requires 0 <= j < |pages| => pages[j].(meta := pages[j].meta.(subpages := l.subs[j])))
  }

  /**
   * The error log record naming the file of the page at position `x`;
   * orphan positions are always inside the page list (`OrphansOrdered`).
   */
  function OrphanRecord(pages: seq<Page>, x: nat): Event {
    Orphan(if x < |pages| then pages[x].path else "")
  }

  /** The error log records for the orphans, in the order they were found. */
  function OrphanEvents(pages: seq<Page>, orphans: seq<nat>): (r: seq<Event>)
    ensures |r| == |orphans|
  {
    if orphans == [] then [] else [OrphanRecord(pages, orphans[0])] + OrphanEvents(pages, orphans[1..])
  }

  // ---------------------------------------------------------------------
  // Properties of the forest
  // ---------------------------------------------------------------------

  /** The category path of the pages that belong at `loc`. */
  function PathOf(pages: seq<Page>, loc: Loc): seq<string>
    requires loc.Under? ==> loc.parent < |pages|
  {
    match loc
    case Top => []
    case Under(p) => pages[p].meta.category + [pages[p].meta.slug]
  }

  /** Every linked page sits where its category path says it belongs. */
  ghost predicate Consistent(pages: seq<Page>, l: Links)
    requires Bounded(l, |pages|)
  {
    && (forall m :: 0 <= m < |l.top| ==> pages[l.top[m]].meta.category == [])
    && forall p, m :: 0 <= p < |pages| && 0 <= m < |l.subs[p]| ==>
         pages[l.subs[p][m]].meta.category == PathOf(pages, Under(p))
  }

  /** Every list holds positions below `k`, in increasing order. */
  ghost predicate Ordered(l: Links, k: nat) {
    && Below(l.top, k) && Increasing(l.top)
    && forall p :: 0 <= p < |l.subs| ==> Below(l.subs[p], k) && Increasing(l.subs[p])
  }

  /** A page listed at `loc` has the category path of `loc`. */
  lemma ListedAt(pages: seq<Page>, l: Links, loc: Loc, j: nat)
    requires Bounded(l, |pages|) && Consistent(pages, l) && ValidLoc(l, loc) && j in ListAt(l, loc)
    ensures j < |pages| && pages[j].meta.category == PathOf(pages, loc)
  {
    var ls := ListAt(l, loc);
    var m :| 0 <= m < |ls| && ls[m] == j;
    match loc
    case Top =>
      assert pages[l.top[m]].meta.category == [];
    case Under(p) =>
      assert pages[l.subs[p][m]].meta.category == PathOf(pages, Under(p));
  }

  /** A successful walk ends at a place whose path is the walked path. */
  lemma {:induction false} ResolvePath(pages: seq<Page>, l: Links, cats: seq<string>, loc: Loc)
    requires Bounded(l, |pages|) && Consistent(pages, l) && ValidLoc(l, loc)
    ensures Resolve(pages, l, cats, loc).Some? ==>
              PathOf(pages, Resolve(pages, l, cats, loc).value) == PathOf(pages, loc) + cats
  {
    if cats != [] {
      var found := FirstWithSlug(pages, ListAt(l, loc), cats[0]);
      if found.Some? {
        var j := found.value;
        ListedAt(pages, l, loc, j);
        ResolvePath(pages, l, cats[1..], Under(j));
        assert cats == [cats[0]] + cats[1..];
      }
    }
  }

  lemma ExtendIncreasing(ls: seq<nat>, i: nat)
    requires Below(ls, i) && Increasing(ls)
    ensures Below(ls + [i], i + 1) && Increasing(ls + [i])
  {
  }

  lemma AppendOrdered(l: Links, loc: Loc, i: nat, n: nat)
    requires Bounded(l, n) && Ordered(l, i) && ValidLoc(l, loc) && i < n
    ensures Bounded(Append(l, loc, i), n) && Ordered(Append(l, loc, i), i + 1)
  {
    var r := Append(l, loc, i);
    AppendListAt(l, loc, i, Top);
    if loc == Top {
      ExtendIncreasing(l.top, i);
    }
    forall p | 0 <= p < n
      ensures Below(r.subs[p], n) && Below(r.subs[p], i + 1) && Increasing(r.subs[p])
    {
      AppendListAt(l, loc, i, Under(p));
      if Under(p) == loc {
        ExtendIncreasing(l.subs[p], i);
      }
    }
  }

  lemma AppendConsistent(pages: seq<Page>, l: Links, loc: Loc, i: nat)
    requires Bounded(l, |pages|) && Consistent(pages, l) && ValidLoc(l, loc) && i < |pages|
    requires PathOf(pages, loc) == pages[i].meta.category
    ensures Bounded(Append(l, loc, i), |pages|) && Consistent(pages, Append(l, loc, i))
  {
    var r := Append(l, loc, i);
    AppendListAt(l, loc, i, Top);
    forall p | 0 <= p < |pages|
      ensures r.subs[p] == l.subs[p] + (if Under(p) == loc then [i] else [])
    {
      AppendListAt(l, loc, i, Under(p));
    }
  }

  /** Placing position `i` appends it to the list its walk reached, if any. */
  lemma PlaceListAt(pages: seq<Page>, l: Links, i: nat, loc: Loc)
    requires i < |pages| && |l.subs| == |pages| && ValidLoc(l, loc)
    ensures ListAt(Place(pages, l, i), loc) ==
              ListAt(l, loc) + (if Resolve(pages, l, pages[i].meta.category, Top) == Some(loc) then [i] else [])
  {
    var r := Resolve(pages, l, pages[i].meta.category, Top);
    if r.Some? {
      AppendListAt(l, r.value, i, loc);
    }
  }

  /** One turn keeps the links bounded, ordered and consistent. */
  lemma PlaceInv(pages: seq<Page>, l: Links, i: nat)
    requires i < |pages| && Bounded(l, |pages|) && Ordered(l, i) && Consistent(pages, l)
    ensures Bounded(Place(pages, l, i), |pages|) && Ordered(Place(pages, l, i), i + 1)
    ensures Consistent(pages, Place(pages, l, i))
  {
    var cats := pages[i].meta.category;
    ResolvePath(pages, l, cats, Top);
    match Resolve(pages, l, cats, Top)
    case None =>
      assert Ordered(l, i + 1);
    case Some(loc) =>
      AppendOrdered(l, loc, i, |pages|);
      AppendConsistent(pages, l, loc, i);
  }

  lemma {:induction false} LinksInv(pages: seq<Page>, k: nat)
    requires k <= |pages|
    ensures Bounded(LinksOf(pages, k), |pages|) && Ordered(LinksOf(pages, k), k)
    ensures Consistent(pages, LinksOf(pages, k))
  {
    if k > 0 {
      var l := LinksOf(pages, k - 1);
      LinksInv(pages, k - 1);
      PlaceInv(pages, l, k - 1);
      assert LinksOf(pages, k) == Place(pages, l, k - 1);
    }
  }

  /**
   * The forest invariant of the category tree: every page in the top-level
   * list has an empty category path, and every page in the `subpages` of `p`
   * has the category path of `p` extended by the slug of `p`. Each list holds
   * processed positions only, in processing order, none twice.
   */
  lemma PathConsistency(pages: seq<Page>, k: nat)
    requires k <= |pages|
    ensures var l := Build(pages, k).links;
      && (forall m :: 0 <= m < |l.top| ==> l.top[m] < k && pages[l.top[m]].meta.category == [])
      && (forall p, m :: 0 <= p < |pages| && 0 <= m < |l.subs[p]| ==>
            l.subs[p][m] < k &&
            pages[l.subs[p][m]].meta.category == pages[p].meta.category + [pages[p].meta.slug])
      && Increasing(l.top)
      && (forall p :: 0 <= p < |pages| ==> Increasing(l.subs[p]))
  {
    LinksInv(pages, k);
  }

  /** The pages whose walk ended at `loc`. */
  function PlacedAt(pages: seq<Page>, loc: Loc): nat -> bool {
    (j: nat) => j < |pages| && Placed(pages, j) == Some(loc)
  }

  /** After `k` turns the list at `loc` holds exactly the pages placed there, in turn order. */
  lemma {:induction false} ListAtSelect(pages: seq<Page>, k: nat, loc: Loc)
    requires k <= |pages|
    requires loc.Under? ==> loc.parent < |pages|
    ensures ListAt(LinksOf(pages, k), loc) == Select(PlacedAt(pages, loc), k)
  {
    if k == 0 {
      assert LinksOf(pages, 0) == EmptyLinks(|pages|);
      assert loc.Under? ==> EmptyLinks(|pages|).subs[loc.parent] == [];
    } else {
      ListAtSelect(pages, k - 1, loc);
      SelectStep(pages, k, loc);
    }
  }

  /** One turn appends the page to the list at `loc` exactly when its walk ended there. */
  lemma SelectStep(pages: seq<Page>, k: nat, loc: Loc)
    requires 0 < k <= |pages|
    requires loc.Under? ==> loc.parent < |pages|
    requires ListAt(LinksOf(pages, k - 1), loc) == Select(PlacedAt(pages, loc), k - 1)
    ensures ListAt(LinksOf(pages, k), loc) == Select(PlacedAt(pages, loc), k)
  {
    LinksOfStep(pages, k, loc);
    PlaceSelect(pages, LinksOf(pages, k - 1), PlacedAt(pages, loc), k, loc);
  }

  /** The `k`-th turn, unfolded once. */
  lemma LinksOfStep(pages: seq<Page>, k: nat, loc: Loc)
    requires 0 < k <= |pages|
    ensures LinksOf(pages, k) == Place(pages, LinksOf(pages, k - 1), k - 1)
    ensures PlacedAt(pages, loc)(k - 1) <==>
              Resolve(pages, LinksOf(pages, k - 1), pages[k - 1].meta.category, Top) == Some(loc)
  {
  }

  /** Placing page `i` extends the list at `loc` as selecting `i` extends the selection. */
  lemma PlaceSelect(pages: seq<Page>, l: Links, f: nat -> bool, k: nat, loc: Loc)
    requires 0 < k <= |pages| && |l.subs| == |pages| && ValidLoc(l, loc)
    requires ListAt(l, loc) == Select(f, k - 1)
    requires f(k - 1) <==> Resolve(pages, l, pages[k - 1].meta.category, Top) == Some(loc)
    ensures ListAt(Place(pages, l, k - 1), loc) == Select(f, k)
  {
    PlaceListAt(pages, l, k - 1, loc);
  }

  /**
   * A processed page is in the list at `loc` exactly when its own walk ended
   * at `loc`: it is in one list if it resolved and in none if it is an orphan,
   * and later pages never move it.
   */
  lemma Membership(pages: seq<Page>, k: nat, i: nat, loc: Loc)
    requires i < k <= |pages|
    requires loc.Under? ==> loc.parent < |pages|
    ensures i in ListAt(LinksOf(pages, k), loc) <==> Placed(pages, i) == Some(loc)
  {
    ListAtSelect(pages, k, loc);
    SelectMembership(PlacedAt(pages, loc), k, i);
  }



  lemma {:induction false} SelectOrdered(f: nat -> bool, k: nat)
    ensures Below(Select(f, k), k) && Increasing(Select(f, k))
  {
    if k > 0 {
      SelectOrdered(f, k - 1);
      ExtendIncreasing(Select(f, k - 1), k - 1);
    }
  }

  lemma {:induction false} SelectMembership(f: nat -> bool, k: nat, i: nat)
    requires i < k
    ensures i in Select(f, k) <==> f(i)
  {
    SelectOrdered(f, k - 1);
    if i < k - 1 {
      SelectMembership(f, k - 1, i);
    }
    SnocMembership(Select(f, k - 1), k - 1, f(k - 1), i);
  }

  lemma OrphansOrdered(pages: seq<Page>, k: nat)
    requires k <= |pages|
    ensures Below(OrphansOf(pages, k), k) && Increasing(OrphansOf(pages, k))
  {
    SelectOrdered(IsOrphan(pages), k);
  }

  lemma OrphanMembership(pages: seq<Page>, k: nat, i: nat)
    requires i < k <= |pages|
    ensures i in OrphansOf(pages, k) <==> Placed(pages, i).None?
  {
    SelectMembership(IsOrphan(pages), k, i);
  }

  /** Membership after appending a position larger than every listed one, or nothing. */
  lemma SnocMembership(o: seq<nat>, x: nat, add: bool, i: nat)
    requires Below(o, x) && i <= x
    ensures i < x ==> (i in o + (if add then [x] else []) <==> i in o)
    ensures i == x ==> (i in o + (if add then [x] else []) <==> add)
  {
  }

  /**
   * Orphans: a processed page is reported as an orphan exactly when the walk
   * of its category path failed, and then it is in no list of the forest.
   * The orphan list is in processing order.
   */
  lemma OrphanNotLinked(pages: seq<Page>, k: nat, i: nat)
    requires i < k <= |pages|
    ensures i in Build(pages, k).orphans <==> Placed(pages, i) == None
    ensures i in Build(pages, k).orphans ==>
              i !in Build(pages, k).links.top &&
              forall p :: 0 <= p < |pages| ==> i !in Build(pages, k).links.subs[p]
    ensures Increasing(Build(pages, k).orphans)
  {
    OrphansOrdered(pages, k);
    OrphanMembership(pages, k, i);
    Membership(pages, k, i, Top);
    forall p | 0 <= p < |pages| ensures i in OrphansOf(pages, k) ==> i !in LinksOf(pages, k).subs[p] {
      Membership(pages, k, i, Under(p));
    }
  }

  predicate HasTopCategory(p: Page, c: string) {
    |p.meta.category| > 0 && p.meta.category[0] == c
  }

  /** The positions below `k` whose category path starts with `c`, in order. */
  function Bucket(pages: seq<Page>, c: string, k: nat): (r: seq<nat>)
    requires k <= |pages|
    ensures forall i: nat :: i in r <==> i < k && HasTopCategory(pages[i], c)
    ensures Increasing(r) && Below(r, k)
  {
    if k == 0 then []
    else
      var b := Bucket(pages, c, k - 1);
      assert forall m :: 0 <= m < |b| ==> b[m] in b;
      b + (if HasTopCategory(pages[k - 1], c) then [k - 1] else [])
  }

  /**
   * The buckets: `categories[c]` lists, in processing order and once each,
   * every processed page whose category path starts with `c`, orphans
   * included; a page with an empty path is in no bucket, and a key exists
   * only for a first segment some processed page has.
   */
  lemma Buckets(pages: seq<Page>, k: nat, c: string)
    requires k <= |pages|
    ensures c in Build(pages, k).categories ==> Build(pages, k).categories[c] == Bucket(pages, c, k)
    ensures c !in Build(pages, k).categories <==> Bucket(pages, c, k) == []
  {
    CategoriesBuckets(pages, k, c);
  }

  lemma {:induction false} CategoriesBuckets(pages: seq<Page>, k: nat, c: string)
    requires k <= |pages|
    ensures c in Categories(pages, k) ==> Categories(pages, k)[c] == Bucket(pages, c, k)
    ensures c !in Categories(pages, k) <==> Bucket(pages, c, k) == []
  {
    if k > 0 {
      CategoriesBuckets(pages, k - 1, c);
      AddToBucketEntry(Categories(pages, k - 1), pages[k - 1].meta.category, k - 1, c,
                       Bucket(pages, c, k - 1));
    }
  }

  /** One `append` to a bucket map, seen from the bucket of one key. */
  lemma AddToBucketEntry(cs: map<string, seq<nat>>, cats: seq<string>, i: nat, c: string, b: seq<nat>)
    requires c in cs ==> cs[c] == b
    requires c !in cs <==> b == []
    ensures var r, b' := AddToBucket(cs, cats, i), b + (if |cats| > 0 && cats[0] == c then [i] else []);
      (c in r ==> r[c] == b') && (c !in r <==> b' == [])
  {
  }

  /**
   * A page whose only category names a slug no top-level page has is an
   * orphan: it is bucketed under that category and the forest stays empty.
   */
  lemma OrphanExample()
    ensures var pages := [Page("b.txt", Meta("b", ["a"], {}, true, true, []))];
      Build(pages, 1) == Forest(map["a" := [0]], Links([], [[]]), [0])
  {
    var pages := [Page("b.txt", Meta("b", ["a"], {}, true, true, []))];
    assert EmptyLinks(1) == Links([], [[]]);
    assert Build(pages, 0) == Forest(map[], Links([], [[]]), []);
    assert FirstWithSlug(pages, [], "a") == None;
    assert ListAt(Links([], [[]]), Top) == [];
    assert Resolve(pages, Links([], [[]]), ["a"], Top) == None;
    var none: map<string, seq<nat>> := map[];
    assert "a" !in none;
    assert AddToBucket(none, ["a"], 0) == none["a" := [] + [0]];
    var zero: seq<nat> := [0];
    assert [] + zero == zero;
    assert none["a" := zero] == map["a" := [0]];
    assert Step(pages, Forest(none, Links([], [[]]), []), 0) == Forest(map["a" := [0]], Links([], [[]]), [0]);
    assert Build(pages, 1) == Step(pages, Build(pages, 0), 0);
  }

  // ---------------------------------------------------------------------
  // Support for the loop of `make_tree`
  // ---------------------------------------------------------------------

  /** The record at position `m` of the log names the file of the `m`-th orphan. */
  lemma {:induction false} OrphanEventsAt(pages: seq<Page>, orphans: seq<nat>, m: nat)
    requires m < |orphans|
    ensures OrphanEvents(pages, orphans)[m] == OrphanRecord(pages, orphans[m])
  {
    if m > 0 {
      OrphanEventsAt(pages, orphans[1..], m - 1);
    }
  }

  /** Recording one more orphan, or none, appends its record, or nothing. */
  lemma OrphanEventsStep(pages: seq<Page>, o: seq<nat>, x: nat, orphan: bool)
    requires x < |pages|
    ensures OrphanEvents(pages, o + (if orphan then [x] else []))
         == OrphanEvents(pages, o) + (if orphan then [Orphan(pages[x].path)] else [])
  {
    if orphan {
      var r := OrphanEvents(pages, o + [x]);
      var e := OrphanEvents(pages, o) + [Orphan(pages[x].path)];
      forall m | 0 <= m < |r| ensures r[m] == e[m] {
        OrphanEventsAt(pages, o + [x], m);
        if m < |o| {
          OrphanEventsAt(pages, o, m);
        }
        assert (o + [x])[m] == if m < |o| then o[m] else x;
      }
    } else {
      assert o + [] == o;
    }
  }

  /** The first-sibling search looks at slugs only, so it ignores every other field. */
  lemma {:induction false} FirstWithSlugSameSlugs(a: seq<Page>, b: seq<Page>, ls: seq<nat>, slug: string)
    requires |a| == |b| && forall j :: 0 <= j < |a| ==> a[j].meta.slug == b[j].meta.slug
    ensures FirstWithSlug(a, ls, slug) == FirstWithSlug(b, ls, slug)
  {
    if ls != [] {
      FirstWithSlugSameSlugs(a, b, ls[1..], slug);
    }
  }

  /** `parent['subpages'].append(p.meta)` on the page list. */
  function AddSubpage(pages: seq<Page>, q: nat, i: nat): (r: seq<Page>)
    requires q < |pages|
    ensures |r| == |pages|
  {
    pages[q := pages[q].(meta := pages[q].meta.(subpages := pages[q].meta.subpages + [i]))]
  }

  /** Appending below a page is `AddSubpage` on the page list carrying the links. */
  lemma WithSubpagesAppend(pages: seq<Page>, l: Links, q: nat, i: nat)
    requires |l.subs| == |pages| && q < |pages|
    ensures WithSubpages(pages, Append(l, Under(q), i)) == AddSubpage(WithSubpages(pages, l), q, i)
  {
    var a := WithSubpages(pages, Append(l, Under(q), i));
    var b := AddSubpage(WithSubpages(pages, l), q, i);
    assert forall j :: 0 <= j < |a| ==> a[j] == b[j];
  }

  /** Pages that have no `subpages` yet are their own starting state. */
  lemma WithEmptySubpages(pages: seq<Page>)
    requires forall j :: 0 <= j < |pages| ==> pages[j].meta.subpages == []
    ensures WithSubpages(pages, EmptyLinks(|pages|)) == pages
  {
    var a := WithSubpages(pages, EmptyLinks(|pages|));
    assert forall j :: 0 <= j < |a| ==> a[j] == pages[j];
  }

  /** Appending to the top-level list leaves every page's `subpages` alone. */
  lemma WithSubpagesTop(pages: seq<Page>, l: Links, i: nat)
    requires |l.subs| == |pages|
    ensures WithSubpages(pages, Append(l, Top, i)) == WithSubpages(pages, l)
  {
    var a := WithSubpages(pages, Append(l, Top, i));
    var b := WithSubpages(pages, l);
    assert forall j :: 0 <= j < |a| ==> a[j] == b[j];
  }

  /** Processing the page at position `i`: its bucket, its placement, its orphan record. */
  lemma PlaceOutcome(pages: seq<Page>, i: nat)
    requires i < |pages|
    ensures Categories(pages, i + 1) == AddToBucket(Categories(pages, i), pages[i].meta.category, i)
    ensures Placed(pages, i).None? ==> LinksOf(pages, i + 1) == LinksOf(pages, i)
    ensures Placed(pages, i).Some? ==> LinksOf(pages, i + 1) == Append(LinksOf(pages, i), Placed(pages, i).value, i)
    ensures OrphanEvents(pages, OrphansOf(pages, i + 1))
         == OrphanEvents(pages, OrphansOf(pages, i)) + (if Placed(pages, i).None? then [Orphan(pages[i].path)] else [])
  {
    OrphanEventsStep(pages, OrphansOf(pages, i), i, Placed(pages, i).None?);
  }
}
