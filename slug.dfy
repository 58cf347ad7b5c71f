/**
 * `slugify` of `woklib/util.py` on ASCII-decomposable input: drop what does
 * not encode as ASCII, lower-case, split on the punctuation class, drop the
 * empty words, join with the delimiter and strip it from both ends.
 *
 * The delimiter is a `char`, which is what `assert len(delim) == 1` demands.
 */
module Slug {

  /**
   * The character class of `_punct_re`, one run of which separates two
   * words: tab, space, `!"#$%&'()*`, `,-./`, `<=>?@`, `[\]^_` and the
   * backquote, and `{|}`. Digits, `+`, `:`, `;` and `~` are not in it.
   */
  predicate IsPunct(c: char) {
    || c == '\t'
    || (' ' <= c <= '*')
    || (',' <= c <= '/')
    || ('<' <= c <= '@')
    || ('[' <= c <= '`')
    || ('{' <= c <= '}')
  }

  /** The class written out as the regular expression lists it. */
  lemma PunctClass(c: char)
    ensures IsPunct(c) <==> c in "\t !\"#$%&'()*-/<=>?@[\\]^_`{|},."
  {
  }

  predicate IsUpper(c: char) { 'A' <= c <= 'Z' }

  predicate IsAscii(c: char) { c as int < 128 }

  /** What may appear in a slug besides the delimiter. */
  predicate SlugChar(c: char) { IsAscii(c) && !IsUpper(c) && !IsPunct(c) }

  const DefaultDelim: char := '-'

  lemma PunctIsLowerAscii(c: char)
    requires IsPunct(c)
    ensures IsAscii(c) && !IsUpper(c)
  {
  }

  // ---------------------------------------------------------------------
  // The pipeline
  // ---------------------------------------------------------------------

  /** `.encode('ascii', 'ignore').decode('ascii')`: every non-ASCII character is dropped. */
  function Ascii(s: string): (r: string)
    ensures forall k :: 0 <= k < |r| ==> IsAscii(r[k]) && r[k] in s
    ensures (forall k :: 0 <= k < |s| ==> IsAscii(s[k])) ==> r == s
  {
    if s == [] then []
    else
      var t := Ascii(s[1..]);
      assert forall c :: c in s[1..] ==> c in s;
      if IsAscii(s[0]) then [s[0]] + t else t
  }

  function LowerChar(c: char): (r: char)
    ensures !IsUpper(r)
    ensures IsAscii(c) ==> IsAscii(r)
    ensures !IsUpper(c) ==> r == c
  {
    if IsUpper(c) then (c as int + 32) as char else c
  }

  /** `.lower()` on ASCII text. */
  function Lower(s: string): (r: string)
    ensures |r| == |s|
    ensures forall k :: 0 <= k < |s| ==> r[k] == LowerChar(s[k])
  {
    seq(|s|, k requires 0 <= k < |s| => LowerChar(s[k]))
  }

  /** The pieces between single punctuation characters (`str.split` on each of them). */
  function Pieces(s: string): (r: seq<string>)
    ensures |r| >= 1
  {
    if s == [] then [[]]
    else
      var rest := Pieces(s[1..]);
      if IsPunct(s[0]) then [[]] + rest else [[s[0]] + rest[0]] + rest[1..]
  }

  /** `[word for word in ... if word]`. */
  function NonEmpty(ws: seq<string>): (r: seq<string>)
    ensures forall i :: 0 <= i < |r| ==> r[i] != [] && r[i] in ws
  {
    if ws == [] then []
    else
      var t := NonEmpty(ws[1..]);
      assert forall w :: w in ws[1..] ==> w in ws;
      if ws[0] != [] then [ws[0]] + t else t
  }

  /** `delim.join(words)`. */
  function Join(ws: seq<string>, d: char): string {
    if ws == [] then []
    else if |ws| == 1 then ws[0]
    else ws[0] + [d] + Join(ws[1..], d)
  }

  function StripLeft(s: string, d: char): string {
    if s != [] && s[0] == d then StripLeft(s[1..], d) else s
  }

  function StripRight(s: string, d: char): string {
    if s != [] && s[|s| - 1] == d then StripRight(s[..|s| - 1], d) else s
  }

  /** `.strip(delim)`. */
  function Strip(s: string, d: char): string {
    StripRight(StripLeft(s, d), d)
  }

  /** `slugify(text, delim)`, with Unicode decomposition taken as the identity. */
  function Slugify(text: string, delim: char): string {
    Strip(Join(NonEmpty(Pieces(Lower(Ascii(text)))), delim), delim)
  }

  // ---------------------------------------------------------------------
  // The shape of a slug
  // ---------------------------------------------------------------------

  /**
   * A clean slug: lower-case ASCII words without punctuation, separated by
   * single delimiters, with no delimiter at either end.
   */
  ghost predicate IsCleanSlug(s: string, d: char) {
    && (forall k :: 0 <= k < |s| ==> SlugChar(s[k]) || s[k] == d)
    && (|s| > 0 ==> s[0] != d && s[|s| - 1] != d)
    && (forall k :: 0 <= k < |s| - 1 ==> s[k] != d || s[k + 1] != d)
  }

  ghost predicate IsWord(w: string) {
    w != [] && forall k :: 0 <= k < |w| ==> SlugChar(w[k])
  }

  /** The pieces hold no punctuation, and only characters of the text. */
  lemma {:induction false} PiecesChars(s: string)
    ensures forall i, k :: 0 <= i < |Pieces(s)| && 0 <= k < |Pieces(s)[i]| ==>
              !IsPunct(Pieces(s)[i][k]) && Pieces(s)[i][k] in s
  {
    if s != [] {
      PiecesChars(s[1..]);
      var rest := Pieces(s[1..]);
      assert forall c :: c in s[1..] ==> c in s;
      if !IsPunct(s[0]) {
        var p := Pieces(s);
        assert p[0] == [s[0]] + rest[0];
        assert forall i :: 1 <= i < |p| ==> p[i] == rest[i];
      }
    }
  }

  lemma StripClean(s: string, d: char)
    requires s == [] || (s[0] != d && s[|s| - 1] != d)
    ensures Strip(s, d) == s
  {
  }

  /** Words joined with a punctuation delimiter make a clean slug. */
  lemma {:induction false} JoinClean(ws: seq<string>, d: char)
    requires IsPunct(d)
    requires forall i :: 0 <= i < |ws| ==> IsWord(ws[i])
    ensures IsCleanSlug(Join(ws, d), d)
    ensures ws != [] ==> Join(ws, d) != []
  {
    if |ws| == 1 {
      assert Join(ws, d) == ws[0];
    } else if |ws| > 1 {
      var w, j := ws[0], Join(ws[1..], d);
      JoinClean(ws[1..], d);
      assert IsWord(ws[1..][0]);
      var s := w + [d] + j;
      assert Join(ws, d) == s;
      forall k | 0 <= k < |s|
        ensures SlugChar(s[k]) || s[k] == d
      {
        if k > |w| {
          assert s[k] == j[k - |w| - 1];
        }
      }
      forall k | 0 <= k < |s| - 1
        ensures s[k] != d || s[k + 1] != d
      {
        if k > |w| {
          assert s[k] == j[k - |w| - 1] && s[k + 1] == j[k - |w|];
        } else if k == |w| {
          assert s[k + 1] == j[0];
        }
      }
      assert s[|s| - 1] == j[|j| - 1];
    }
  }

  /**
   * The shape of every slug with a punctuation delimiter (the default `-`
   * included): lower-case ASCII words free of the punctuation class,
   * separated by single delimiters, no delimiter at either end.
   */
  lemma SlugIsClean(text: string, delim: char)
    requires IsPunct(delim)
    ensures IsCleanSlug(Slugify(text, delim), delim)
  {
    var low := Lower(Ascii(text));
    var ps := Pieces(low);
    PiecesChars(low);
    var ws := NonEmpty(ps);
    forall i | 0 <= i < |ws| ensures IsWord(ws[i]) {
      var j :| 0 <= j < |ps| && ps[j] == ws[i];
      forall k | 0 <= k < |ws[i]| ensures SlugChar(ws[i][k]) {
        var c := ws[i][k];
        assert c == ps[j][k];
        var m :| 0 <= m < |low| && low[m] == c;
        assert Ascii(text)[m] in Ascii(text);
      }
    }
    JoinClean(ws, delim);
    StripClean(Join(ws, delim), delim);
  }

  /**
   * With any delimiter, every character of a slug that is not the delimiter
   * is a lower-case ASCII character outside the punctuation class.
   */
  lemma SlugChars(text: string, delim: char)
    ensures forall k :: 0 <= k < |Slugify(text, delim)| ==>
              Slugify(text, delim)[k] == delim || SlugChar(Slugify(text, delim)[k])
  {
    var low := Lower(Ascii(text));
    var ps := Pieces(low);
    PiecesChars(low);
    var ws := NonEmpty(ps);
    forall i, k | 0 <= i < |ws| && 0 <= k < |ws[i]| ensures SlugChar(ws[i][k]) {
      var j :| 0 <= j < |ps| && ps[j] == ws[i];
      var c := ws[i][k];
      assert c == ps[j][k];
      var m :| 0 <= m < |low| && low[m] == c;
      assert Ascii(text)[m] in Ascii(text);
    }
    var j := Join(ws, delim);
    JoinChars(ws, delim);
    StripChars(j, delim);
    var r := Strip(j, delim);
    forall k | 0 <= k < |r| ensures r[k] == delim || SlugChar(r[k]) {
      assert r[k] in r;
      var m :| 0 <= m < |j| && j[m] == r[k];
    }
  }

  lemma {:induction false} JoinChars(ws: seq<string>, d: char)
    requires forall i, k :: 0 <= i < |ws| && 0 <= k < |ws[i]| ==> SlugChar(ws[i][k])
    ensures forall k :: 0 <= k < |Join(ws, d)| ==> Join(ws, d)[k] == d || SlugChar(Join(ws, d)[k])
  {
    if |ws| > 1 {
      JoinChars(ws[1..], d);
      var w, j := ws[0], Join(ws[1..], d);
      var s := w + [d] + j;
      assert forall k :: 0 <= k < |w| ==> s[k] == w[k];
      assert forall k :: |w| < k < |s| ==> s[k] == j[k - |w| - 1];
    }
  }

  lemma {:induction false} StripChars(s: string, d: char)
    ensures forall c :: c in Strip(s, d) ==> c in s
  {
    StripLeftSub(s, d);
    StripRightSub(StripLeft(s, d), d);
  }

  lemma {:induction false} StripLeftSub(s: string, d: char)
    ensures forall c :: c in StripLeft(s, d) ==> c in s
  {
    if s != [] && s[0] == d {
      StripLeftSub(s[1..], d);
    }
  }

  lemma {:induction false} StripRightSub(s: string, d: char)
    ensures forall c :: c in StripRight(s, d) ==> c in s
  {
    if s != [] && s[|s| - 1] == d {
      StripRightSub(s[..|s| - 1], d);
    }
  }

  // ---------------------------------------------------------------------
  // Clean slugs pass through, so slugify is idempotent
  // ---------------------------------------------------------------------

  lemma JoinConsHead(c: char, ws: seq<string>, d: char)
    requires ws != []
    ensures Join([[c] + ws[0]] + ws[1..], d) == [c] + Join(ws, d)
  {
    var ws' := [[c] + ws[0]] + ws[1..];
    assert ws'[1..] == ws[1..];
  }

  /** Splitting and re-joining with `d` gives back text whose only punctuation is `d`. */
  lemma {:induction false} PiecesJoin(s: string, d: char)
    requires forall k :: 0 <= k < |s| && IsPunct(s[k]) ==> s[k] == d
    ensures Join(Pieces(s), d) == s
  {
    if s != [] {
      var rest := Pieces(s[1..]);
      PiecesJoin(s[1..], d);
      if IsPunct(s[0]) {
        var ws := [[]] + rest;
        assert ws[1..] == rest;
        assert Join(ws, d) == [] + [d] + Join(rest, d);
      } else {
        JoinConsHead(s[0], rest, d);
      }
      assert s == [s[0]] + s[1..];
    }
  }

  /**
   * Text whose last character is a word character and which has no two
   * punctuation characters in a row splits into non-empty pieces, except
   * possibly the first.
   */
  lemma {:induction false} PiecesNonEmpty(s: string)
    requires s != [] ==> !IsPunct(s[|s| - 1])
    requires forall k :: 0 <= k < |s| - 1 ==> !IsPunct(s[k]) || !IsPunct(s[k + 1])
    ensures forall i :: 1 <= i < |Pieces(s)| ==> Pieces(s)[i] != []
    ensures s != [] && !IsPunct(s[0]) ==> Pieces(s)[0] != []
  {
    if s != [] {
      var t := s[1..];
      forall k | 0 <= k < |t| ensures t[k] == s[k + 1] {
      }
      PiecesNonEmpty(t);
      var rest := Pieces(t);
      if IsPunct(s[0]) {
        assert t != [] && t[0] == s[1];
        assert ([[]] + rest)[1..] == rest;
      }
    }
  }

  lemma {:induction false} NonEmptyAll(ws: seq<string>)
    requires forall i :: 0 <= i < |ws| ==> ws[i] != []
    ensures NonEmpty(ws) == ws
  {
    if ws != [] {
      NonEmptyAll(ws[1..]);
      assert [ws[0]] + ws[1..] == ws;
    }
  }

  /** A clean slug comes back unchanged. */
  lemma CleanPassthrough(s: string, delim: char)
    requires IsPunct(delim) && IsCleanSlug(s, delim)
    ensures Slugify(s, delim) == s
  {
    PunctIsLowerAscii(delim);
    assert forall k :: 0 <= k < |s| ==> IsAscii(s[k]) && !IsUpper(s[k]);
    assert Ascii(s) == s;
    assert Lower(s) == s;
    if s != [] {
      CleanPieces(s, delim);
      PiecesJoin(s, delim);
      StripClean(s, delim);
    }
  }

  lemma CleanPieces(s: string, delim: char)
    requires IsPunct(delim) && IsCleanSlug(s, delim) && s != []
    ensures NonEmpty(Pieces(s)) == Pieces(s)
  {
    var ps := Pieces(s);
    assert !IsPunct(s[0]) && !IsPunct(s[|s| - 1]);
    assert forall k :: 0 <= k < |s| && IsPunct(s[k]) ==> s[k] == delim;
    PiecesNonEmpty(s);
    NonEmptyAll(ps);
  }

  /** Slugifying a slug changes nothing. */
  lemma Idempotent(text: string, delim: char)
    requires IsPunct(delim)
    ensures Slugify(Slugify(text, delim), delim) == Slugify(text, delim)
  {
    SlugIsClean(text, delim);
    CleanPassthrough(Slugify(text, delim), delim);
  }

  // ---------------------------------------------------------------------
  // Runs of punctuation collapse into one delimiter
  // ---------------------------------------------------------------------

  ghost predicate AllPunct(s: string) { forall k :: 0 <= k < |s| ==> IsPunct(s[k]) }

  ghost predicate NoPunct(s: string) { forall k :: 0 <= k < |s| ==> !IsPunct(s[k]) }

  ghost predicate AllAscii(s: string) { forall k :: 0 <= k < |s| ==> IsAscii(s[k]) }

  /** `seps[0] + ws[0] + seps[1] + ws[1] + ... + ws[n-1] + seps[n]`. */
  function Weave(ws: seq<string>, seps: seq<string>): string
    requires |seps| == |ws| + 1
  {
    seps[0] + (if ws == [] then [] else ws[0] + Weave(ws[1..], seps[1..]))
  }

  /**
   * Text made of words (ASCII, no punctuation) with runs of punctuation
   * between them, and possibly before the first and after the last.
   */
  ghost predicate Woven(ws: seq<string>, seps: seq<string>) {
    && |seps| == |ws| + 1
    && (forall i :: 0 <= i < |ws| ==> ws[i] != [] && NoPunct(ws[i]) && AllAscii(ws[i]))
    && (forall i :: 0 <= i < |seps| ==> AllPunct(seps[i]))
    && (forall i :: 0 < i < |ws| ==> seps[i] != [])
  }

  function LowerAll(ws: seq<string>): (r: seq<string>)
    ensures |r| == |ws|
    ensures forall i :: 0 <= i < |ws| ==> r[i] == Lower(ws[i])
  {
    seq(|ws|, i requires 0 <= i < |ws| => Lower(ws[i]))
  }

  lemma LowerConcat(a: string, b: string)
    ensures Lower(a + b) == Lower(a) + Lower(b)
  {
  }

  lemma LowerPunct(s: string)
    requires AllPunct(s)
    ensures Lower(s) == s
  {
    forall k | 0 <= k < |s| ensures !IsUpper(s[k]) {
      PunctIsLowerAscii(s[k]);
    }
  }

  lemma {:induction false} WeaveAscii(ws: seq<string>, seps: seq<string>)
    requires Woven(ws, seps)
    ensures AllAscii(Weave(ws, seps))
    ensures Lower(Weave(ws, seps)) == Weave(LowerAll(ws), seps)
  {
    assert forall k :: 0 <= k < |seps[0]| ==> IsAscii(seps[0][k]) by {
      forall k | 0 <= k < |seps[0]| ensures IsAscii(seps[0][k]) {
        PunctIsLowerAscii(seps[0][k]);
      }
    }
    LowerPunct(seps[0]);
    if ws != [] {
      var rest := Weave(ws[1..], seps[1..]);
      WovenTail(ws, seps);
      WeaveAscii(ws[1..], seps[1..]);
      LowerConcat(seps[0], ws[0] + rest);
      LowerConcat(ws[0], rest);
      assert LowerAll(ws)[1..] == LowerAll(ws[1..]);
      var s := seps[0] + (ws[0] + rest);
      forall k | 0 <= k < |s| ensures IsAscii(s[k]) {
        if k >= |seps[0]| + |ws[0]| {
          assert s[k] == rest[k - |seps[0]| - |ws[0]|];
        } else if k >= |seps[0]| {
          assert s[k] == ws[0][k - |seps[0]|];
        }
      }
    } else {
      assert Weave(ws, seps) == seps[0];
    }
  }

  lemma {:induction false} RunDropped(run: string, rest: string)
    requires AllPunct(run)
    ensures NonEmpty(Pieces(run + rest)) == NonEmpty(Pieces(rest))
  {
    if run != [] {
      var s := run + rest;
      assert s[0] == run[0] && IsPunct(s[0]);
      assert s[1..] == run[1..] + rest;
      RunDropped(run[1..], rest);
      var x := Pieces(s[1..]);
      assert Pieces(s) == [[]] + x;
      assert ([[]] + x)[0] == [] && ([[]] + x)[1..] == x;
    } else {
      assert run + rest == rest;
    }
  }

  lemma {:induction false} PiecesSplit(w: string, c: char, rest: string)
    requires NoPunct(w) && IsPunct(c)
    ensures Pieces(w + [c] + rest) == [w] + Pieces(rest)
  {
    if w == [] {
      assert ([c] + rest)[1..] == rest;
    } else {
      PiecesSplit(w[1..], c, rest);
      assert (w + [c] + rest)[1..] == w[1..] + [c] + rest;
      assert [w[0]] + w[1..] == w;
    }
  }

  lemma WordThenRun(w: string, run: string, rest: string)
    requires w != [] && NoPunct(w) && run != [] && AllPunct(run)
    ensures NonEmpty(Pieces(w + run + rest)) == [w] + NonEmpty(Pieces(rest))
  {
    assert w + run + rest == w + [run[0]] + (run[1..] + rest);
    PiecesSplit(w, run[0], run[1..] + rest);
    RunDropped(run[1..], rest);
    var x := Pieces(run[1..] + rest);
    assert ([w] + x)[0] == w && ([w] + x)[1..] == x;
  }

  lemma {:induction false} LastWord(w: string)
    requires NoPunct(w)
    ensures Pieces(w) == [w]
  {
    if w != [] {
      LastWord(w[1..]);
      assert [w[0]] + w[1..] == w;
    }
  }

  lemma WovenTail(ws: seq<string>, seps: seq<string>)
    requires Woven(ws, seps) && ws != []
    ensures Woven(ws[1..], seps[1..])
  {
    assert forall i :: 0 <= i < |ws| - 1 ==> ws[1..][i] == ws[i + 1];
    assert forall i :: 0 <= i < |seps| - 1 ==> seps[1..][i] == seps[i + 1];
  }

  /** A word in front of a run of punctuation adds itself to the words that follow. */
  lemma WordBeforeRun(w: string, run: string, tail: string, after: seq<string>)
    requires w != [] && NoPunct(w) && run != [] && AllPunct(run)
    requires NonEmpty(Pieces(run + tail)) == after
    ensures NonEmpty(Pieces(w + (run + tail))) == [w] + after
  {
    WordThenRun(w, run, tail);
    RunDropped(run, tail);
    assert w + (run + tail) == w + run + tail;
  }

  /** The last word, and the run after it. */
  lemma LastWoven(w: string, run: string)
    requires w != [] && NoPunct(w) && AllPunct(run)
    ensures NonEmpty(Pieces(w + run)) == [w]
  {
    if run == [] {
      LastWord(w);
      assert w + run == w;
    } else {
      WordThenRun(w, run, []);
      assert w + run + [] == w + run;
    }
  }

  /** The words of woven text are exactly the woven words. */
  lemma {:induction false} WeaveWords(ws: seq<string>, seps: seq<string>)
    requires Woven(ws, seps)
    ensures NonEmpty(Pieces(Weave(ws, seps))) == ws
  {
    if ws == [] {
      RunDropped(seps[0], []);
      assert seps[0] + [] == seps[0];
    } else {
      var rest := Weave(ws[1..], seps[1..]);
      RunDropped(seps[0], ws[0] + rest);
      if |ws| == 1 {
        assert rest == seps[1];
        LastWoven(ws[0], seps[1]);
      } else {
        WovenTail(ws, seps);
        WeaveWords(ws[1..], seps[1..]);
        var tail := ws[1] + Weave(ws[2..], seps[2..]);
        assert ws[1..][1..] == ws[2..] && seps[1..][1..] == seps[2..];
        assert rest == seps[1] + tail;
        WordBeforeRun(ws[0], seps[1], tail, ws[1..]);
        assert [ws[0]] + ws[1..] == ws;
      }
    }
  }

  /**
   * Runs of punctuation collapse: words of ASCII text separated, preceded
   * and followed by runs of the punctuation class come out lower-cased and
   * joined by single delimiters. The slug tests' examples are instances:
   * `"This has... punctuation! *<yo>*."` weaves the words `This`, `has`,
   * `punctuation`, `yo` with the runs `""`, `" "`, `"... "`, `"! *<"` and
   * `">*."`, and slugifies to `this-has-punctuation-yo`.
   */
  lemma SlugOfWoven(ws: seq<string>, seps: seq<string>, delim: char)
    requires Woven(ws, seps) && IsPunct(delim)
    ensures Slugify(Weave(ws, seps), delim) == Join(LowerAll(ws), delim)
  {
    var t := Weave(ws, seps);
    WeaveAscii(ws, seps);
    var lws := LowerAll(ws);
    assert Woven(lws, seps) by {
      forall i | 0 <= i < |ws| ensures lws[i] != [] && NoPunct(lws[i]) && AllAscii(lws[i]) {
        assert forall k :: 0 <= k < |ws[i]| ==> lws[i][k] == LowerChar(ws[i][k]);
      }
    }
    WeaveWords(lws, seps);
    forall i | 0 <= i < |lws| ensures IsWord(lws[i]) {
      assert forall k :: 0 <= k < |ws[i]| ==> lws[i][k] == LowerChar(ws[i][k]);
    }
    JoinClean(lws, delim);
    StripClean(Join(lws, delim), delim);
  }

  // ---------------------------------------------------------------------
  // The ASCII examples of the slug tests
  // ---------------------------------------------------------------------

  /** The lower case of a text, one character at a time. */
  function LowerEach(s: string): string {
    if s == [] then [] else [LowerChar(s[0])] + LowerEach(s[1..])
  }

  lemma {:induction false} LowerIsEach(s: string)
    ensures Lower(s) == LowerEach(s)
  {
    if s != [] {
      LowerIsEach(s[1..]);
      assert Lower(s) == [LowerChar(s[0])] + Lower(s[1..]);
    }
  }

  /** A word, checked one character at a time. */
  predicate PlainWord(w: string) {
    w == [] || (!IsPunct(w[0]) && IsAscii(w[0]) && PlainWord(w[1..]))
  }

  /** A run of punctuation, checked one character at a time. */
  predicate PunctRun(s: string) {
    s == [] || (IsPunct(s[0]) && PunctRun(s[1..]))
  }

  lemma {:induction false} PlainWordChars(w: string)
    requires PlainWord(w)
    ensures NoPunct(w) && AllAscii(w)
  {
    if w != [] {
      PlainWordChars(w[1..]);
      assert forall k :: 1 <= k < |w| ==> w[k] == w[1..][k - 1];
    }
  }

  lemma {:induction false} PunctRunChars(s: string)
    requires PunctRun(s)
    ensures AllPunct(s)
  {
    if s != [] {
      PunctRunChars(s[1..]);
      assert forall k :: 1 <= k < |s| ==> s[k] == s[1..][k - 1];
    }
  }

  lemma WeaveOne(w: string)
    ensures Weave([w], ["", ""]) == w
  {
    assert [w][1..] == [] && ["", ""][1..] == [""];
  }

  lemma WeaveTwo(a: string, sep: string, b: string)
    ensures Weave([a, b], ["", sep, ""]) == a + sep + b
  {
    assert [a, b][1..] == [b] && ["", sep, ""][1..] == [sep, ""];
    WeaveOne(b);
    assert Weave([b], [sep, ""]) == sep + b;
  }

  lemma JoinTwo(a: string, b: string, d: char)
    ensures Join([a, b], d) == a + [d] + b
  {
    assert [a, b][1..] == [b];
  }

  lemma GoodSlugLower()
    ensures LowerAll(["agoodslug"]) == ["agoodslug"]
  {
    LowerIsEach("agoodslug");
    assert LowerEach("agoodslug") == "agoodslug";
    assert LowerAll(["agoodslug"]) == [Lower("agoodslug")];
  }

  lemma GoodSlugWoven()
    ensures Woven(["agoodslug"], ["", ""])
  {
    assert PlainWord("g");
    assert PlainWord("ug");
    assert PlainWord("lug");
    assert PlainWord("slug");
    assert PlainWord("dslug");
    assert PlainWord("odslug");
    assert PlainWord("oodslug");
    assert PlainWord("goodslug");
    assert PlainWord("agoodslug");
    PlainWordChars("agoodslug");
  }

  /** A good slug is passed through unmodified. */
  lemma GoodSlugExample()
    ensures Slugify("agoodslug", DefaultDelim) == "agoodslug"
  {
    GoodSlugLower();
    GoodSlugWoven();
    WeaveOne("agoodslug");
    SlugOfWoven(["agoodslug"], ["", ""], DefaultDelim);
  }

  lemma CapsLower()
    ensures LowerAll(["abcdABCD"]) == ["abcdabcd"]
  {
    LowerIsEach("abcdABCD");
    assert LowerEach("abcdABCD") == "abcdabcd";
    assert LowerAll(["abcdABCD"]) == [Lower("abcdABCD")];
  }

  lemma CapsWoven()
    ensures Woven(["abcdABCD"], ["", ""])
  {
    assert PlainWord("D");
    assert PlainWord("CD");
    assert PlainWord("BCD");
    assert PlainWord("ABCD");
    assert PlainWord("dABCD");
    assert PlainWord("cdABCD");
    assert PlainWord("bcdABCD");
    assert PlainWord("abcdABCD");
    PlainWordChars("abcdABCD");
  }

  /** Capitals are lower-cased. */
  lemma CapsExample()
    ensures Slugify("abcdABCD", DefaultDelim) == "abcdabcd"
  {
    CapsLower();
    CapsWoven();
    WeaveOne("abcdABCD");
    SlugOfWoven(["abcdABCD"], ["", ""], DefaultDelim);
  }

  lemma SpacesLower()
    ensures LowerAll(["hello", "world"]) == ["hello", "world"]
  {
    LowerIsEach("hello");
    assert LowerEach("hello") == "hello";
    LowerIsEach("world");
    assert LowerEach("world") == "world";
    assert LowerAll(["hello", "world"]) == [Lower("hello"), Lower("world")];
  }

  lemma SpacesJoin()
    ensures Join(["hello", "world"], DefaultDelim) == "hello-world"
  {
    JoinTwo("hello", "world", DefaultDelim);
    assert "hello" + [DefaultDelim] + "world" == "hello-world";
  }

  lemma SpacesWoven()
    ensures Woven(["hello", "world"], ["", " ", ""])
  {
    assert PlainWord("o");
    assert PlainWord("lo");
    assert PlainWord("llo");
    assert PlainWord("ello");
    assert PlainWord("hello");
    PlainWordChars("hello");
    assert PlainWord("d");
    assert PlainWord("ld");
    assert PlainWord("rld");
    assert PlainWord("orld");
    assert PlainWord("world");
    PlainWordChars("world");
    PunctRunChars(" ");
  }

  lemma SpacesWeave()
    ensures Weave(["hello", "world"], ["", " ", ""]) == "hello world"
  {
    WeaveTwo("hello", " ", "world");
    assert "hello" + " " + "world" == "hello world";
  }

  /** A space becomes the delimiter. */
  lemma SpacesExample()
    ensures Slugify("hello world", DefaultDelim) == "hello-world"
  {
    SpacesLower();
    SpacesJoin();
    SpacesWoven();
    SpacesWeave();
    SlugOfWoven(["hello", "world"], ["", " ", ""], DefaultDelim);
  }
}
