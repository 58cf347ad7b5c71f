# wok, modelled in Dafny

wok is a static site generator. It reads a site root with a content
directory, a template directory, an optional media directory and an
optional hooks module. From those it:

- clears the output directory down to its protected entries;
- loads every published page from the content files, each with the renderer
  its extension selects;
- arranges the pages into a category tree;
- renders each page with a freshly built template context and writes the
  pages that ask for a file.

Hook functions run at fixed stages along the way and may contribute pages.

This project models the engine of that pipeline (`woklib/engine.py`), its
helpers (`woklib/util.py`) and the renderer registry (`woklib/renderers.py`).
The model proves what each of them promises.

Modules, in the order of the pipeline:

- `Wrappers`: `Option` and `Result`.
- `Pages`: options, page metadata and the events of a run.
- `Renderers`: the renderer classes, their `extensions` and the registry
  `all`, which the module body builds step by step.
- `Glob`: `fnmatch` on `*`, `?` and literal characters, and `exclude_output`.
- `Util`: `is_sane_outdir` and `chunk`.
- `Slug`: `slugify`, with NFKD normalisation taken as the identity. The model
  is exact on text that NFKD leaves unchanged, ASCII text in particular.
- `DateTimes`: `date_and_times`. It updates a page's meta dictionary in
  place, which the class `MetaDict` models.
- `Hooks`: the hook table and `run_hook`, both as written and corrected
  (see Findings).
- `HostPort`: the `host:port` split of `start_server`, with Python's base-10
  `int()`.
- `Output`: the clearing part of `prepare_output`.
- `Loader`: the selection logic of `load_pages`.
- `Tree`: `make_tree`. The processed page list is a sequence, and every
  page's `subpages` holds positions in it.
- `Render`: the tag and slug indices, the template context, and the render
  loop over a list that grows while it is traversed.
- `Engine`: the class `Engine.Engine`. Its fields are the options, the
  hooks, the page list, the category buckets, the output directory and the
  log. Its methods are the stages of `generate_site`, with the loops of
  `make_tree` and `render_site` written as loops.

A page is known by its position in the page list. The `subpages` lists, the
category buckets, the tag index and the slug index all hold positions. The
events of a run (hook stages, warnings, orphan errors, renders and writes)
are collected in a log, so a contract can say what happened and in what
order.

Where the repository's own description and its code differ, the model
follows the code:

- The option loop of `render_site` skips `templates_dir` (plural), a key the
  engine never uses. So the `template_dir` option does reach the context
  (`Render.TemplateDirPassesThrough`).
- When the output directory fails `is_sane_outdir`, `os.makedirs` is
  called. That call raises when something already exists at the path, so
  preparing the output is not idempotent there (`Output.Prepared`,
  `Output.RefusedDeletesNothing`).
- `is_sane_outdir` is a substring test on the resolved paths, not an
  ancestor test. The dot it checks for is in the site root after the output
  path, not in the output path itself (`Util.UnrelatedDirectoryRefused`,
  `Util.DotSuffixAccepted`).

## Model

| member | source | states |
|---|---|---|
| Renderers.BuildRegistry | woklib/renderers.py:10-111 | the module body leaves `all` equal to the registry of the libraries that import, and prints the install hint exactly when `len(all) <= 2` |
| Renderers.RegistryOrder | woklib/renderers.py:10-102 | `all` starts with `Renderer`, then `Plain`. Markdown is present iff its library imports; Markdown2 iff markdown2 imports and Markdown does not; reStructuredText and Textile iff theirs do. The entries are distinct and in file order |
| Renderers.DegradedIffNoLibrary | woklib/renderers.py:107-111 | the install hint is printed exactly when none of the four optional libraries imports |
| Renderers.ExtensionsDisjoint | woklib/renderers.py:13-96 | no extension is listed by two renderers of any registry |
| Renderers.OnlyBaseListsNothing | woklib/renderers.py:13-96 | the base `Renderer` is the only class with an empty `extensions` list |
| Renderers.RenderIdentity | woklib/renderers.py:15-17 | `Renderer.render` returns its input unchanged |
| Renderers.RenderPlain | woklib/renderers.py:24-26 | the output of `Plain.render` contains no newline |
| Renderers.PlainConcat | woklib/renderers.py:26 | `replace` works piecewise: rendering `a + b` is rendering `a` followed by rendering `b` |
| Renderers.PlainLength | woklib/renderers.py:26 | each newline makes the text three characters longer, and nothing else changes the length |
| Renderers.PlainFixes | woklib/renderers.py:26 | text without a newline comes back unchanged |
| Renderers.PlainChars | woklib/renderers.py:26 | every output character is a non-newline character of the input or a character of `<br>` |
| Glob.StarSplit | woklib/engine.py:145-148 | a leading `*` matches iff the rest of the pattern matches some suffix of the name, the whole name and the empty suffix included |
| Glob.StarMatchesAll | woklib/engine.py:145-148 | `*` matches every name |
| Glob.Literal | woklib/engine.py:145-148 | a pattern without wildcards matches exactly the name equal to it |
| Glob.QuestionOne | woklib/engine.py:145-148 | `?` matches exactly the one-character names |
| Glob.DotFiles | woklib/engine.py:122 | `.*` matches exactly the names that start with a dot |
| Glob.Excluded | woklib/engine.py:145-148 | `exclude_output(n)` holds iff some configured pattern matches `n` |
| Glob.DotfilesExcluded | woklib/engine.py:122 | once `.*` is appended, every dotfile is excluded, whatever the other patterns are |
| Glob.AppendKeeps | woklib/engine.py:122 | appending a pattern excludes exactly the names that were already excluded plus those it matches |
| Util.Find | woklib/util.py:27 | the search answers true iff `needle` occurs in `hay` at or after the start offset |
| Util.IsSaneOutdir | woklib/util.py:19-33 | a path that is not a directory is refused. A directory is accepted iff the output path does not occur in the site root, or the site root continues with a dot after its first `len(d)` characters |
| Util.SameDirRefused | woklib/util.py:27-32 | the site root itself is never a sane output directory |
| Util.AncestorRefused | woklib/util.py:27-32 | a directory above the site root is refused |
| Util.SubdirectoryAccepted | woklib/util.py:27-33 | a directory strictly below the site root is accepted |
| Util.UnrelatedDirectoryRefused | woklib/util.py:27-32 | a directory whose path merely occurs inside the site root's path is refused too (`/srv/out` against `/data/srv/out/site`) |
| Util.DotSuffixAccepted | woklib/util.py:29-33 | a site root that continues the output path with a dot does not block it |
| Util.ChunksFlatten | woklib/util.py:54-57 | concatenating the chunks gives back the list |
| Util.ChunksWellCut | woklib/util.py:54-57 | every chunk but the last has `n` elements, and the last has between 1 and `n` |
| Util.ChunksCount | woklib/util.py:54-57 | there are `ceil(len(li) / n)` chunks |
| Util.ChunksStep | woklib/util.py:56-57 | one turn of the generator yields `li[i:i+n]`, cut at the end, and goes on from the end of that chunk |
| Util.Chunk | woklib/util.py:54-57 | a step of zero raises, a negative step yields no chunks, and a positive one yields exactly the chunks above |
| Slug.PunctClass | woklib/util.py:37 | the punctuation predicate is exactly the character class of `_punct_re` |
| Slug.Ascii | woklib/util.py:47 | the output has only ASCII characters, all of them from the input, and ASCII input passes unchanged |
| Slug.LowerChar | woklib/util.py:49 | a lowered character is never a capital, stays ASCII, and is unchanged unless it was a capital |
| Slug.NonEmpty | woklib/util.py:50 | the words that are kept are non-empty pieces of the split |
| Slug.PiecesChars | woklib/util.py:50 | the pieces of the split hold no punctuation and only characters of the text |
| Slug.JoinClean | woklib/util.py:51 | words joined by a punctuation delimiter form a clean slug, which is non-empty when there is a word |
| Slug.SlugIsClean | woklib/util.py:38-51 | with a delimiter from the punctuation class, every slug is made of lower-case ASCII characters outside the class and single delimiters, and has no delimiter at either end and no empty segment |
| Slug.SlugChars | woklib/util.py:38-51 | with any delimiter, every character of a slug is the delimiter or a lower-case ASCII character outside the class |
| Slug.CleanPassthrough | woklib/util.py:38-51 | a clean slug comes back unchanged |
| Slug.Idempotent | woklib/util.py:38-51 | slugifying a slug changes nothing |
| Slug.WeaveAscii | woklib/util.py:47-49 | woven ASCII text passes the encoding step unchanged, and lowering it lowers each word and leaves the punctuation runs alone |
| Slug.WeaveWords | woklib/util.py:50 | the non-empty pieces of words separated by runs of punctuation are exactly those words |
| Slug.SlugOfWoven | woklib/util.py:37-51 | words separated, preceded and followed by runs of punctuation slugify to the lower-cased words joined by single delimiters |
| Slug.GoodSlugExample | tests/test_slugs.py:8-12 | `agoodslug` slugifies to itself |
| Slug.CapsExample | tests/test_slugs.py:14-18 | `abcdABCD` slugifies to `abcdabcd` |
| Slug.SpacesExample | tests/test_slugs.py:20-24 | `hello world` slugifies to `hello-world` |
| DateTimes.MetaDict.DateAndTimes | woklib/util.py:60-91 | the dictionary after the call, and the exception raised if any, are those of `DateAndTimesOf` on the dictionary before it |
| DateTimes.SecondsSplit | woklib/util.py:75-80 | integer seconds are accepted iff they lie in `[0, 86400)`. Then the hours, minutes and seconds are in range, add back up to the input, and carry no microseconds or zone |
| DateTimes.OutOfRangeUntouched | woklib/util.py:75-83 | a `ValueError` is raised exactly when the time part is an integer outside one day, and the dictionary is then left untouched |
| DateTimes.PresentPartsKept | woklib/util.py:62-83 | a date that is present is kept as it was, and so is a time that is present and not an integer |
| DateTimes.TimeOnlyFromDateTime | woklib/util.py:63-73 | a missing time ends up filled iff `meta['datetime']` is a datetime, never from a plain date, and then it is that datetime's time with its `tzinfo` dropped |
| DateTimes.DateFilledFromDateTime | woklib/util.py:62-70 | a missing date becomes the date of `meta['datetime']` when that is a datetime, the value itself when it is a plain date, and stays `None` otherwise |
| DateTimes.CombinationRules | woklib/util.py:84-91 | without an error, `datetime` is the combination of date and time, midnight of the date when there is no time, and `None` when there is no date |
| DateTimes.AttributeErrorPartial | woklib/util.py:82-89 | an `AttributeError` leaves `date` and `time` stored and `datetime` as it was |
| DateTimes.Rerun | woklib/util.py:60-91 | after a success, a second call only fills in the midnight time of a date that had none |
| DateTimes.SettledIsFixed | woklib/util.py:60-91 | from the second call on, the function changes nothing |
| Hooks.CallAll | woklib/engine.py:143 | one result per registered function, each the value of calling that function with the options and the arguments |
| Hooks.UnregisteredStage | woklib/engine.py:141 | a stage nobody registered for runs nothing and returns an empty list |
| Hooks.CallsInOrder | woklib/engine.py:143 | the functions run in registration order: the results for `a + b` are those for `a` followed by those for `b` |
| Hooks.NoHooksModuleFailsAsWritten | woklib/engine.py:125-143 | as written, a missing hooks module is accepted by `load_hooks`, yet the following `run_hook('site.start')` fails |
| Hooks.LoadHooks | woklib/engine.py:125-137 | corrected: a missing hooks module yields an empty table, and only an import error raised inside a hook module is an error |
| Hooks.NoHooksModuleRunsNothing | woklib/engine.py:139-143 | corrected: without a hooks module every stage runs nothing |
| Hooks.CorrectedAgrees | woklib/engine.py:125-143 | wherever the code as written works, the corrected version gives the same table and the same results for every stage |
| HostPort.ParseDigits | woklib/engine.py:61 | `int()` of a run of decimal digits is its value |
| HostPort.ParseNegated | woklib/engine.py:61 | `int()` of a minus sign followed by digits is the negated value |
| HostPort.ParseShow | woklib/engine.py:61 | `int(str(n)) == n` for every integer |
| HostPort.BlankRefused | woklib/engine.py:61 | an empty or all-whitespace port is a `ValueError` |
| HostPort.ColonRefused | woklib/engine.py:61 | a port text containing a colon is a `ValueError` |
| HostPort.FirstColon | woklib/engine.py:59-60 | the position found is the first colon, and there is none iff the text has no colon |
| HostPort.Parse | woklib/engine.py:59-64 | a parsed host never contains a colon |
| HostPort.NoColon | woklib/engine.py:62-64 | without a colon the whole text is the host and the port is 8000 |
| HostPort.SplitAtFirst | woklib/engine.py:59-61 | with a colon, the host is the text before the first colon and the port is `int()` of everything after it, errors included |
| HostPort.RoundTrip | woklib/engine.py:59-61 | every colon-free host and every port written as `host:port` parse back to themselves |
| HostPort.EmptyPortRefused | woklib/engine.py:59-61 | a trailing colon with no port is an error |
| HostPort.SecondColonRefused | woklib/engine.py:60-61 | a second colon stays in the port text and makes it an error |
| HostPort.TrimKeeps | woklib/engine.py:61 | whitespace trimming keeps every non-whitespace character |
| Output.Clear | woklib/engine.py:157-164 | the loop over the listing keeps exactly the excluded entries, and removes every other entry by `unlink` when it is a file and `rmtree` otherwise |
| Output.SaneKeepsExcluded | woklib/engine.py:155-164 | a sane directory keeps exactly the entries some pattern matches, each unchanged |
| Output.DotfilesSurvive | woklib/engine.py:157-159 | with `.*` appended, no dotfile is kept out of the survivors or removed |
| Output.RemovedIsComplement | woklib/engine.py:157-164 | an entry is removed iff it does not survive |
| Output.RefusedDeletesNothing | woklib/engine.py:156-166 | a refused path is created empty when nothing was there, and otherwise preparing fails without deleting anything |
| Output.SiteRootNeverCleared | woklib/engine.py:155-166 | using the site root as the output directory fails instead of clearing it |
| Loader.ExtensionIsLastPart | woklib/engine.py:207 | the extension is a dot-free suffix of the name, preceded by a dot unless it is the whole name |
| Loader.ExtensionOf | woklib/engine.py:207 | `stem.ext` has extension `ext` for every dot-free `ext` |
| Loader.NoDotWholeName | woklib/engine.py:207 | a name without a dot is its own extension |
| Loader.FirstListing | woklib/engine.py:210-213 | a renderer found is in the registry and lists the extension |
| Loader.FirstListingNone | woklib/engine.py:210-217 | nothing is found iff no renderer of the registry lists the extension |
| Loader.SelectRenderer | woklib/engine.py:208-217 | the loop picks the first renderer listing the extension, or the identity renderer, and warns exactly in the second case |
| Loader.NeverBase | woklib/engine.py:210-213 | the lookup never picks the base `Renderer` |
| Loader.RegistryLookup | woklib/engine.py:210-213 | in a registry, whichever renderer lists the extension is the one chosen |
| Loader.TextIsPlain | woklib/engine.py:208-213 | a `.txt` file is always read with `Plain` |
| Loader.LoadFiles | woklib/engine.py:200-221 | the loop over the walked files collects the walk's pages and warnings, in walk order |
| Loader.FilePageReadsAs | woklib/engine.py:204-221 | a file contributes a page iff it is visible and reads, with its chosen renderer, as a published page |
| Loader.WalkPagesMembership | woklib/engine.py:200-221 | a page is in the walk iff some walked file is visible and reads as that published page |
| Loader.AllHidden | woklib/engine.py:204-205 | hidden files contribute neither pages nor warnings |
| Loader.Extend | woklib/engine.py:195-197 | the loop over the hook results appends every page they returned, in order |
| Loader.GatheredConcat | woklib/engine.py:195-197 | the pages from hooks keep the order of the hooks and of each list |
| Loader.GatheredNothing | woklib/engine.py:196 | hooks that return `None` or an empty list add nothing |
| Loader.LoadedPages | woklib/engine.py:192-226 | `load_pages` only appends to the list it started with |
| Loader.NoHooksOnlyWalk | woklib/engine.py:192-226 | without hooks, the list gains exactly the pages of the walk |
| Loader.LoadedFresh | woklib/engine.py:192-226 | if files and hooks deliver pages without subpages, `load_pages` leaves no page with subpages |
| Tree.Insert | woklib/engine.py:239 | one insertion step adds exactly the page to the multiset of pages |
| Tree.InsertSorted | woklib/engine.py:239 | inserting into a list sorted by depth keeps it sorted |
| Tree.InsertOfDepth | woklib/engine.py:239 | an inserted page goes in front of the pages of its own depth and leaves the other depths alone |
| Tree.SortByDepth | woklib/engine.py:239 | the sorted list is ordered by category length, is a permutation of the input, and keeps the input order within each depth |
| Tree.StableSortUnique | woklib/engine.py:239 | sortedness and the order within each depth determine the list, so every stable sort by depth gives `SortByDepth` |
| Tree.FirstWithSlug | woklib/engine.py:256-257 | a sibling found is in the list and carries the slug |
| Tree.FirstWithSlugNone | woklib/engine.py:255-257 | the `[0]` fails iff no sibling carries the slug |
| Tree.FirstWithSlugIsFirst | woklib/engine.py:256-257 | the sibling found is the first one carrying the slug |
| Tree.FirstWithSlugSameSlugs | woklib/engine.py:256-257 | the search reads slugs only, so appending subpages never changes what it finds |
| Tree.Resolve | woklib/engine.py:253-258 | a walk that moves ends below a page of the list |
| Tree.ResolvePath | woklib/engine.py:253-259 | a successful walk ends at a list whose category path is the starting path extended by the walked segments |
| Tree.AppendListAt | woklib/engine.py:259 | `siblings.append` changes the list at its place only, and only by adding the page at its end |
| Tree.BuildStep | woklib/engine.py:242-262 | each turn of the loop is one `Step` on the state after the turns before it |
| Tree.PlaceOutcome | woklib/engine.py:242-262 | one turn appends the page's position to its bucket, appends it where its walk ended (or nowhere), and logs an orphan record exactly when the walk failed |
| Tree.WithSubpages | woklib/engine.py:258-259 | each page keeps its path and meta, and its `subpages` becomes the links' list for it |
| Tree.WithSubpagesAppend | woklib/engine.py:258-259 | appending below a page on the links is appending to that page's `subpages` in the list |
| Tree.WithSubpagesTop | woklib/engine.py:259 | appending to the local top-level list changes no page's `subpages` |
| Tree.WithEmptySubpages | woklib/engine.py:237-259 | pages that have no subpages yet are the starting state of the loop |
| Tree.LinksInv | woklib/engine.py:251-259 | after `k` turns every list holds processed positions in increasing order, and every linked page sits where its category path says |
| Tree.PathConsistency | woklib/engine.py:251-259 | top-level pages have an empty category path, and each page's `subpages` hold exactly pages whose path is its own path plus its slug, in processing order, none twice |
| Tree.ListAtSelect | woklib/engine.py:251-259 | after `k` turns the list at a place holds exactly the processed pages whose walk ended there, in processing order |
| Tree.Membership | woklib/engine.py:251-262 | a processed page is in the list at a place iff its own walk ended there, so later pages never move it |
| Tree.OrphanNotLinked | woklib/engine.py:251-262 | a processed page is an orphan iff its walk failed; then it is in no list of the forest, and the orphans are in processing order |
| Tree.OrphanEventsAt | woklib/engine.py:260-262 | the `m`-th orphan error names the file of the `m`-th orphan |
| Tree.OrphanExample | woklib/engine.py:243-262 | a page whose category names no top-level slug lands in its bucket and in no list, and is reported as an orphan |
| Tree.Bucket | woklib/engine.py:243-249 | the bucket of `c` holds, once each and in order, the processed pages whose category path starts with `c` |
| Tree.CategoriesBuckets | woklib/engine.py:243-249 | the bucket map after `k` turns has `c` as a key iff some processed page has top category `c`, mapped to exactly its bucket |
| Tree.Buckets | woklib/engine.py:243-249 | the same for the state of `make_tree`: orphans included, pages with an empty path in no bucket |
| Render.GatherTags | woklib/engine.py:267-274 | the two loops build exactly the tag index |
| Render.TagsUpToMembership | woklib/engine.py:267-269 | `tag_set` holds exactly the tags some processed page carries |
| Render.WithTagMembership | woklib/engine.py:271-274 | a tag's list holds each page that carries it, once, in list order |
| Render.TagIndexContents | woklib/engine.py:267-274 | `tag_dict` has exactly the tags of the list as keys, each mapped to every page carrying it, once, in list order |
| Render.SlugIndexLast | woklib/engine.py:277 | every slug of the list is a key of `slug_dict`, mapped to the last page carrying it |
| Render.OverlayStep | woklib/engine.py:295-299 | copying one more option writes it over the site dictionary unless it is excluded |
| Render.CopyOptions | woklib/engine.py:295-299 | the loop over `iteritems()` writes every option outside the excluded keys over the site dictionary, in any key order |
| Render.ContextKeys | woklib/engine.py:282-302 | a key is in the context iff it is a literal field or a copied option. A copied option wins over the literal field, and every other key keeps its literal value |
| Render.ExcludedAbsent | woklib/engine.py:295-299 | no excluded option reaches the context under its own name |
| Render.TemplateDirPassesThrough | woklib/engine.py:295-299 | the `template_dir` option reaches every context, because the exclusion names `templates_dir` |
| Render.Title | woklib/engine.py:284 | the title is `site_title`, or `Untitled` without one, unless an option named `title` replaces it |
| Render.PagesSnapshot | woklib/engine.py:289 | `site.pages` is the page list as it stands when the page is rendered |
| Render.AuthorAlreadyCopied | woklib/engine.py:301-302 | the separate `author` assignment adds nothing the option loop has not already copied |
| Render.StepRun | woklib/engine.py:279-312 | one turn moves to the next page and only appends to the list |
| Render.TraceOrder | woklib/engine.py:279-305 | the pages are rendered one after the other, each once, in list order |
| Render.TraceWrites | woklib/engine.py:305-308 | a page is written iff it is handled and its `make_file` is set |
| Render.RunShape | woklib/engine.py:279-312 | the pages the loop started with stay at the front, new pages only go to the end, and the events are exactly the handling of the pages from the start to where it stopped, including pages that earlier renders appended |
| Render.RunStops | woklib/engine.py:279-312 | the loop stops only when every page of the grown list has been handled or the fuel is spent |
| Render.RunCompletes | woklib/engine.py:279-312 | when rendering never returns pages, enough fuel handles exactly the pages there were |
| Engine.SanityProtectsDotfiles | woklib/engine.py:121-122 | after the sanity check, `exclude_output` holds for every dotfile |
| Engine.SanityOnlyExtends | woklib/engine.py:114-123 | the sanity check changes nothing but `output_exclude`, which it extends by `.*` |
| Engine.MediaEvents | woklib/engine.py:171-190 | when the media directory exists, an `OSError` from the copy is logged and the `site.output.post` hooks run last; an `IOError` or `shutil.Error`, which `except OSError` does not catch, ends the stage with nothing more logged |
| Engine.Walk | woklib/engine.py:253-258 | the loop over the category path, on the pages as they are being linked, ends where `Tree.Resolve` says |
| Engine.AddToBucket | woklib/engine.py:244-249 | the bucket step appends the position to the bucket of its top category, creating the bucket if needed, and does nothing without a category |
| Engine.Place | woklib/engine.py:251-262 | the walk ends where `Tree.Resolve` says. On success the page is appended there, in the page list or in the top-level list; on failure nothing changes |
| Engine.PlaceAll | woklib/engine.py:242-262 | the loop of `make_tree` leaves the pages linked, the buckets filled and the orphans logged as `Tree` describes |
| Engine.RenderPages | woklib/engine.py:279-312 | the loop over the growing list does what `Render.Run` describes |
| Engine.Engine.constructor | woklib/engine.py:32-38 | the engine starts with its site root, options and output directory, and with no hooks, no pages, no buckets and an empty log |
| Engine.Engine.SanityCheck | woklib/engine.py:114-123 | a missing template or content directory aborts and leaves the options; otherwise `.*` is appended to `output_exclude` |
| Engine.Engine.LoadHooks | woklib/engine.py:125-137 | the hooks become the corrected table, or an error from inside the hooks module is raised |
| Engine.Engine.RunHook | woklib/engine.py:139-143 | a stage returns the results of its functions and is logged |
| Engine.Engine.PrepareOutput | woklib/engine.py:150-190 | the output becomes the prepared directory, or the error is raised before any hook runs. Then the pre hooks run, and the media stage only when the media directory exists. An exception that escapes the media copy is raised after the pre hooks, without the post hooks |
| Engine.Engine.LoadPages | woklib/engine.py:192-226 | the page list becomes the loaded pages, and the log shows the pre hooks, the walk's warnings and the post hooks, in that order |
| Engine.SortAndPlace | woklib/engine.py:238-262 | the pages sorted by depth and then placed one by one are linked, bucketed and checked for orphans as `Tree` describes |
| Engine.Engine.MakeTree | woklib/engine.py:228-262 | the page list and the buckets become those of `SortAndPlace`, the orphan errors are logged, and options, hooks and output are unchanged |
| Engine.Engine.RenderSite | woklib/engine.py:264-312 | the tag and slug indices are built from the list on entry, then the render loop runs as `Render.Run` describes, and the log only grows |
| Engine.Engine.GenerateSite | woklib/engine.py:75-84 | the run fails iff the hooks module fails, preparing the output fails or the media copy raises past `except OSError`, and each failure stops the run with the log it has reached. Otherwise the output is prepared, and the page list, the buckets and the log are `BuiltContent` of the options, the hooks and the log up to the end of `prepare_output` |
| Engine.Engine.PrepareAndBuild | woklib/engine.py:80-84 | `prepare_output` and then, unless it raised, the content stages, with the state `BuiltContent` gives |
| Engine.Engine.BuildContent | woklib/engine.py:81-84 | from an empty page list, the page list, the buckets and the log become `BuiltContent`: the loaded pages sorted, linked and bucketed, then rendered with the indices of the linked list, then `site.done` |
| Engine.Engine.RenderAndFinish | woklib/engine.py:83-84 | the page list and the log become those of `Render.Run` on the indices of the list on entry, followed by `site.done` |
| Engine.RenderedSiteShape | woklib/engine.py:83-84 | rendering keeps the pages it started with at the front, only appends to the log, and `site.done` comes last |
| Engine.BuiltContentShape | woklib/engine.py:80-84 | after the content stages the linked pages lead the page list, the buckets are those of the sorted pages, and the log is the log before them, then the loading and orphan events, then the render events, ending with `site.done` |

## Left out

- Slug.Ascii: NFKD normalisation in `slugify` (`woklib/util.py:47`) is taken
  as the identity, and every non-ASCII character is then dropped whole. The source
  keeps the ASCII part of a decomposed character: NFKD turns `é` into `e` and
  a combining accent, and `ﬁ` into `fi`, so `slugify('café')` is `cafe` where
  `Slug.Slugify` gives `caf`. The model is exact only on text that NFKD leaves
  unchanged, ASCII text in particular, so the `ÖöÄäÜüß` example
  (`tests/test_slugs.py:32-36`) is not stated.
- The punctuation and apostrophe examples (`tests/test_slugs.py:26-30`,
  `38-42`) are not stated as literal equalities. `Slug.SlugOfWoven` proves
  their general shape: words separated by runs of punctuation give the
  lower-cased words joined by the delimiter.
- `fnmatch` bracket classes (`[...]`) and the platform's case folding are not
  modelled. Patterns use `*`, `?` and literal characters only.
- File system effects are inputs to the model, not effects of it:
  - `os.walk` is given as a list of walked files;
  - `os.listdir` of the output directory is given as a map;
  - `os.path.isdir` answers are given as a set or a flag;
  - `realpath` and `abspath` are applied before the model sees a path.
- `unlink` and `rmtree` are recorded as `Removal` values. `copytree` and
  `copy` of the media directory are not modelled, and the copied files do
  not appear in the output: `Engine.MediaCopy` says only how the copy ended
  (no error, a caught `OSError`, or an escaping `IOError` or `shutil.Error`).
- `Engine.run` and its `chdir` are not modelled, nor `start_server`'s
  `DevServer` and its watch-and-rebuild loop (network and concurrency). Only
  the `host:port` split is modelled.
- `read_options` and `default_options` (YAML loading and author parsing) are
  not modelled. The resolved options are given to the constructor.
- Options that are not strings where a path is expected are treated as
  missing. An `output_exclude` that is not a list is reported as an error
  string instead of Python's exception.
- The `default_options['output_exclude']` list is shared between runs, so a
  second run in one process sees `.*` twice. Each model run starts from the
  options it is given.
- The import machinery of `load_hooks` and `has_module` is not modelled. What
  the import did is an input (`Hooks.HookModule`, `Renderers.Libraries`), and
  hook functions are called through an uninterpreted `Caller`.
- `Page.from_file`, `Page.render` and `Page.write` (`woklib/page.py` is not
  part of this model) are uninterpreted function parameters (`FromFile`,
  `RenderPage`). A write is recorded as an event.
- The Markdown, markdown2, docutils and textile renderers
  (`woklib/renderers.py:30-104`) are modelled by their class and extensions
  only. Their output comes from external libraries.
- `datetime.now()` in the template context is a placeholder value
  (`Render.ClockPart`).
- `Engine.Engine.MakeTree` requires that no page has `subpages` yet, which
  holds when it follows `load_pages` on pages from files and hooks that have
  none (`Loader.LoadedFresh`).
- `Engine.Engine.RenderSite` and `Engine.RenderPages` render at most `fuel`
  pages. A site whose renders keep returning new pages never terminates in
  the source; there, the fuel bound is what the model states
  (`Render.RunStops`).
- `HostPort.Parse` accepts only base-10 literals with an optional sign and
  surrounding whitespace. Python 2 `int()` refuses `'10L'`, as the model does,
  but a literal too large for a C long is handed to the `long` parser, which
  accepts a trailing `L`; the model refuses that case too.
- Page objects are values, not shared references. The render loop reads
  `make_file` before the render stand-in runs, where the source reads
  `p.meta['make_file']` after `p.render(...)` (`woklib/engine.py:305-308`),
  and the `site.content.gather.post` hooks receive a copy of the page list,
  where the source passes `self.all_pages` itself (`woklib/engine.py:224`).
  So a render or a hook that changes a page or the list in place has no
  effect in the model.
- Logging calls other than the events recorded (warnings about renderers
  and media, orphan errors, hook stages) are not modelled. Neither are the
  format of log messages and the `print` calls of `woklib/renderers.py`,
  apart from whether the install hint is printed.
- The `for name in ('template_dir', 'content_dir')` loop of `sanity_check`
  is unrolled into two checks in that order.

## Findings

| source | as written | input that shows it | evidently intended | confidence | as-written member | corrected member |
|---|---|---|---|---|---|---|
| woklib/engine.py:125-143 | `load_hooks` assigns `self.hooks` only when `__hooks__` imports. When the module is missing it logs and returns, and the next `run_hook` reads `self.hooks`, which was never set | a site without a `hooks/__hooks__.py`: `generate_site` calls `run_hook('site.start')` right after `load_hooks`, and it raises `AttributeError` | a missing hooks module means no hooks, so every stage runs nothing | not executed | Hooks.NoHooksModuleFailsAsWritten | Hooks.NoHooksModuleRunsNothing |
