/**
 * Two helpers of `woklib/util.py`: the output-directory safety test and the
 * generator that cuts a list into fixed-size chunks.
 */
module Util {
  import opened Wrappers

  // ---------------------------------------------------------------------
  // is_sane_outdir
  // ---------------------------------------------------------------------

  /** Python's `needle in hay` on strings: `needle` occurs at some offset. */
  predicate OccursAt(needle: string, hay: string, k: nat) {
    k + |needle| <= |hay| && hay[k..k + |needle|] == needle
  }

  /** `needle in hay`, searched left to right from offset `k`. */
  function Find(needle: string, hay: string, k: nat): (r: bool)
    ensures r <==> exists j :: k <= j && OccursAt(needle, hay, j)
    decreases |hay| - k
  {
    if k + |needle| > |hay| then
      assert forall j :: k <= j ==> !OccursAt(needle, hay, j);
      false
    else if hay[k..k + |needle|] == needle then
      assert OccursAt(needle, hay, k);
      true
    else
      var r := Find(needle, hay, k + 1);
      assert forall j :: k <= j && OccursAt(needle, hay, j) ==> k + 1 <= j;
      r
  }

  function Contains(hay: string, needle: string): bool {
    Find(needle, hay, 0)
  }

  function StartsWith(s: string, prefix: string): bool {
    |prefix| <= |s| && s[..|prefix|] == prefix
  }

  /**
   * `is_sane_outdir(dirname, site_root)` on the resolved paths `d` and `s`
   * (`realpath(abspath(..))` happens outside the model). `isDir` is what
   * `os.path.isdir(dirname)` answered. The directory is refused when `d`
   * occurs anywhere in `s` and the part of `s` after its first `|d|`
   * characters does not start with a dot.
   *
   * The second `ensures` is that rule itself, which is all the source
   * promises; what it means for the output directory is proved by
   * `SameDirRefused`, `AncestorRefused` and `SubdirectoryAccepted`.
   */
  function IsSaneOutdir(isDir: bool, d: string, s: string): (r: bool)
    ensures !isDir ==> !r
    ensures r <==> isDir && (Contains(s, d) ==> StartsWith(s[|d|..], "."))
  {
    if !isDir then false
    else if Contains(s, d) then
      // `rest = s[len(d):]`: `d in s` ensures `len(d) <= len(s)`
      StartsWith(s[|d|..], ".")
    else true
  }

  /** The output directory may never be the site root itself. */
  lemma SameDirRefused(isDir: bool, s: string)
    ensures !IsSaneOutdir(isDir, s, s)
  {
    if isDir {
      assert OccursAt(s, s, 0);
      assert s[|s|..] == [];
    }
  }

  /** Nor a directory above the site root. */
  lemma AncestorRefused(isDir: bool, d: string, x: string)
    ensures !IsSaneOutdir(isDir, d, d + "/" + x)
  {
    var s := d + "/" + x;
    if isDir {
      assert s[0..|d|] == d;
      assert OccursAt(d, s, 0);
      assert s[|d|..][0] == '/';
    }
  }

  /** A directory below the site root is accepted. */
  lemma SubdirectoryAccepted(s: string, x: string)
    requires x != []
    ensures IsSaneOutdir(true, s + "/" + x, s)
  {
    var d := s + "/" + x;
    assert !Contains(s, d) by {
      forall j: nat ensures !OccursAt(d, s, j) {
      }
    }
  }

  /**
   * The test is a substring test and not an ancestor test: an output
   * directory that merely occurs inside the site root's path is refused too.
   */
  lemma UnrelatedDirectoryRefused()
    ensures !IsSaneOutdir(true, "/srv/out", "/data/srv/out/site")
  {
    var d, s := "/srv/out", "/data/srv/out/site";
    assert s[5..5 + |d|] == d;
    assert OccursAt(d, s, 5);
    assert s[|d|..][0] == 'v';
  }

  /** A name after the directory that starts with a dot lets it pass. */
  lemma DotSuffixAccepted(d: string, x: string)
    ensures IsSaneOutdir(true, d, d + "." + x)
  {
    var s := d + "." + x;
    assert s[0..|d|] == d;
    assert OccursAt(d, s, 0);
    assert s[|d|..] == "." + x;
    assert s[|d|..][..1] == ".";
  }

  // ---------------------------------------------------------------------
  // chunk
  // ---------------------------------------------------------------------

  /** The chunks joined back together. */
  function Flatten<T>(cs: seq<seq<T>>): seq<T> {
    if cs == [] then [] else cs[0] + Flatten(cs[1..])
  }

  /** The chunks `li[i:i+n]` for `i` in `xrange(0, len(li), n)`, for a positive `n`. */
  function Chunks<T>(li: seq<T>, n: nat): seq<seq<T>>
    requires n > 0
    decreases |li|
  {
    if li == [] then []
    else if |li| <= n then [li]
    else [li[..n]] + Chunks(li[n..], n)
  }

  /** Every chunk has `n` elements except the last, which has 1 to `n`. */
  ghost predicate WellCut<T>(cs: seq<seq<T>>, n: nat) {
    && (forall k :: 0 <= k < |cs| - 1 ==> |cs[k]| == n)
    && (|cs| > 0 ==> 1 <= |cs[|cs| - 1]| <= n)
  }

  /** Concatenating the chunks gives back the list. */
  lemma {:induction false} ChunksFlatten<T>(li: seq<T>, n: nat)
    requires n > 0
    ensures Flatten(Chunks(li, n)) == li
  {
    if |li| > n {
      var rest := Chunks(li[n..], n);
      ChunksFlatten(li[n..], n);
      assert ([li[..n]] + rest)[1..] == rest;
      assert li[..n] + li[n..] == li;
    } else if li != [] {
      assert [li][1..] == [];
    }
  }

  /** Every chunk but the last is full and the last is not empty. */
  lemma {:induction false} ChunksWellCut<T>(li: seq<T>, n: nat)
    requires n > 0
    ensures WellCut(Chunks(li, n), n)
  {
    if |li| > n {
      var rest := Chunks(li[n..], n);
      ChunksWellCut(li[n..], n);
      var cs := [li[..n]] + rest;
      assert forall k :: 1 <= k < |cs| ==> cs[k] == rest[k - 1];
    }
  }

  /** So there are `ceil(len(li) / n)` chunks. */
  lemma {:induction false} ChunksCount<T>(li: seq<T>, n: nat)
    requires n > 0
    ensures |li| <= |Chunks(li, n)| * n < |li| + n
  {
    if |li| > n {
      var rest := Chunks(li[n..], n);
      ChunksCount(li[n..], n);
      assert |Chunks(li, n)| == |rest| + 1;
      assert (|rest| + 1) * n == |rest| * n + n;
    }
  }

  /** One turn of the generator: the chunk at `i` and the chunks after it. */
  lemma ChunksStep<T>(li: seq<T>, n: nat, i: nat)
    requires n > 0 && i < |li|
    ensures var hi := if i + n <= |li| then i + n else |li|;
      Chunks(li[i..], n) == [li[i..hi]] + Chunks(li[hi..], n)
  {
    var hi := if i + n <= |li| then i + n else |li|;
    if hi == |li| {
      assert li[i..] == li[i..hi];
      assert li[hi..] == [];
    } else {
      assert li[i..][..n] == li[i..hi];
      assert li[i..][n..] == li[hi..];
    }
  }

  /**
   * `list(chunk(li, n))`. A step of zero is an error (`xrange` raises
   * `ValueError`); a negative step gives an empty range and so no chunks.
   */
  method Chunk<T>(li: seq<T>, n: int) returns (r: Result<seq<seq<T>>, string>)
    ensures n == 0 <==> r.Err?
    ensures n < 0 ==> r == Ok([])
    ensures n > 0 ==> r == Ok(Chunks(li, n))
  {
    if n == 0 {
      return Err("ValueError: xrange() arg 3 must not be zero");
    }
    if n < 0 {
      return Ok([]);
    }
    var cs: seq<seq<T>> := [];
    var i := 0;
    assert li[i..] == li;
    while i < |li|
      invariant 0 <= i <= |li|
      invariant cs + Chunks(li[i..], n) == Chunks(li, n)
      decreases |li| - i
    {
      var hi := if i + n <= |li| then i + n else |li|;
      ChunksStep(li, n, i);
      cs := cs + [li[i..hi]];
      i := hi;
    }
    assert Chunks(li[i..], n) == [];
    assert cs + [] == cs;
    return Ok(cs);
  }
}
