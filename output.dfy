/**
 * The clearing part of `Engine.prepare_output`: the top-level entries of the
 * output directory, which of them `exclude_output` keeps, and what happens
 * when `is_sane_outdir` refuses the directory.
 */
module Output {
  import opened Wrappers
  import opened Util
  import opened Glob

  /** A top-level entry of the output directory: a file or anything else (a directory). */
  datatype Entry = FileEntry | DirEntry

  /** `os.listdir(output)`, with what each name is. */
  type Listing = map<string, Entry>

  /** What is at the output path: nothing, something that is not a directory, or a directory. */
  datatype OutDir = Absent | NotDir | Dir(entries: Listing)

  /** How an entry was removed: `os.unlink` for a file, `shutil.rmtree` otherwise. */
  datatype Removal = Unlinked(name: string) | TreeRemoved(name: string)

  /** The entries `exclude_output` protects. */
  function Survivors(entries: Listing, patterns: seq<string>): Listing {
    map n | n in entries && Excluded(patterns, n) :: entries[n]
  }

  /** The removal of one entry. */
  function RemovalOf(entries: Listing, n: string): Removal
    requires n in entries
  {
    if entries[n] == FileEntry then Unlinked(n) else TreeRemoved(n)
  }

  /** The removals of every entry no pattern matches. */
  function Removals(entries: Listing, patterns: seq<string>): set<Removal> {
    set n | n in entries && !Excluded(patterns, n) :: RemovalOf(entries, n)
  }

  /** The loop over `os.listdir(output)`, in whatever order the names come. */
  method Clear(entries: Listing, patterns: seq<string>) returns (kept: Listing, removed: set<Removal>)
    ensures kept == Survivors(entries, patterns)
    ensures removed == Removals(entries, patterns)
  {
    kept, removed := entries, {};
    var todo := entries.Keys;
    while todo != {}
      invariant todo <= entries.Keys
      invariant kept == map n | n in entries && (n in todo || Excluded(patterns, n)) :: entries[n]
      invariant removed == set n | n in entries && n !in todo && !Excluded(patterns, n) :: RemovalOf(entries, n)
      decreases todo
    {
      var n :| n in todo;
      if !Excluded(patterns, n) {
        if entries[n] == FileEntry {
          removed := removed + {Unlinked(n)};
        } else {
          removed := removed + {TreeRemoved(n)};
        }
        kept := kept - {n};
      }
      todo := todo - {n};
    }
  }

  /**
   * The output directory after clearing: a sane directory keeps only its
   * excluded entries; otherwise `os.makedirs` creates the directory, and
   * raises when something is already at that path.
   */
  function Prepared(out: OutDir, d: string, s: string, patterns: seq<string>): Result<OutDir, string> {
    if IsSaneOutdir(out.Dir?, d, s) then Ok(Dir(Survivors(out.entries, patterns)))
    else if out.Absent? then Ok(Dir(map[]))
    else Err("OSError: [Errno 17] File exists")
  }

  /** A sane directory keeps exactly the entries some pattern matches, unchanged. */
  lemma SaneKeepsExcluded(entries: Listing, d: string, s: string, patterns: seq<string>, n: string)
    requires IsSaneOutdir(true, d, s)
    ensures Prepared(Dir(entries), d, s, patterns).Ok?
    ensures var kept := Prepared(Dir(entries), d, s, patterns).value.entries;
      && (n in kept <==> n in entries && Excluded(patterns, n))
      && (n in kept ==> kept[n] == entries[n])
  {
  }

  /** Once `.*` has been appended to the patterns, no dotfile is ever removed. */
  lemma DotfilesSurvive(entries: Listing, patterns: seq<string>, n: string)
    requires n in entries && |n| > 0 && n[0] == '.'
    ensures n in Survivors(entries, patterns + [".*"])
    ensures RemovalOf(entries, n) !in Removals(entries, patterns + [".*"])
  {
    DotfilesExcluded(patterns, n);
  }

  /** Every entry that is not kept is removed, once, by the call its kind needs. */
  lemma RemovedIsComplement(entries: Listing, patterns: seq<string>, n: string)
    requires n in entries
    ensures n !in Survivors(entries, patterns) <==> RemovalOf(entries, n) in Removals(entries, patterns)
  {
    if RemovalOf(entries, n) in Removals(entries, patterns) {
      var m :| m in entries && !Excluded(patterns, m) && RemovalOf(entries, m) == RemovalOf(entries, n);
      assert m == RemovalOf(entries, m).name;
    }
  }

  /** A refused directory loses nothing: either it did not exist, or preparing it fails. */
  lemma RefusedDeletesNothing(out: OutDir, d: string, s: string, patterns: seq<string>)
    requires !IsSaneOutdir(out.Dir?, d, s)
    ensures out.Absent? <==> Prepared(out, d, s, patterns) == Ok(Dir(map[]))
    ensures !out.Absent? ==> Prepared(out, d, s, patterns).Err?
  {
  }

  /** The site root itself is never cleared: using it as the output directory fails. */
  lemma SiteRootNeverCleared(entries: Listing, s: string, patterns: seq<string>)
    ensures Prepared(Dir(entries), s, s, patterns).Err?
  {
    SameDirRefused(true, s);
  }
}
