/**
 * `woklib/renderers.py`: the renderer classes, their extension lists, and
 * the module-level `all` list that import time fills according to which
 * optional markup libraries can be imported.
 */
module Renderers {

  /** The renderer classes. */
  datatype Kind = Base | Plain | Markdown | Markdown2 | ReStructuredText | Textile

  /** Each class's `extensions` attribute. */
  function Extensions(k: Kind): seq<string> {
    match k
    case Base => []
    case Plain => ["txt"]
    case Markdown => ["markdown", "mkd", "md"]
    case Markdown2 => ["markdown", "mkd", "md"]
    case ReStructuredText => ["rst"]
    case Textile => ["textile"]
  }

  /** What `has_module` answers for each optional library. */
  datatype Libraries = Libraries(markdown: bool, markdown2: bool, docutils: bool, textile: bool)

  /** The contents of `all` once the module has been imported. */
  function Registry(libs: Libraries): seq<Kind> {
    [Base, Plain]
    + (if libs.markdown then [Markdown] else if libs.markdown2 then [Markdown2] else [])
    + (if libs.docutils then [ReStructuredText] else [])
    + (if libs.textile then [Textile] else [])
  }

  /** `len(all) <= 2`: only the two built-in renderers are available. */
  predicate Degraded(all: seq<Kind>) { |all| <= 2 }

  /**
   * The module body: `all = []`, then one `all.append(...)` per class whose
   * library imports, in file order; `warned` is the final `print` of the
   * install hint.
   */
  method BuildRegistry(libs: Libraries) returns (all: seq<Kind>, warned: bool)
    ensures all == Registry(libs)
    ensures warned <==> Degraded(all)
  {
    all := [];
    all := all + [Base];
    all := all + [Plain];
    if libs.markdown {
      all := all + [Markdown];
    } else if libs.markdown2 {
      all := all + [Markdown2];
    }
    if libs.docutils {
      all := all + [ReStructuredText];
    }
    if libs.textile {
      all := all + [Textile];
    }
    warned := |all| <= 2;
  }

  // ---------------------------------------------------------------------
  // Properties of the registry
  // ---------------------------------------------------------------------

  /**
   * The order of `all`: the base renderer, then `Plain`, then at most one of
   * the two Markdown renderers, then reStructuredText, then Textile; each
   * optional one is present exactly when its library imports (Markdown2
   * only when Markdown does not).
   */
  lemma RegistryOrder(libs: Libraries)
    ensures var all := Registry(libs);
      && all[0] == Base && all[1] == Plain
      && (Markdown in all <==> libs.markdown)
      && (Markdown2 in all <==> !libs.markdown && libs.markdown2)
      && !(Markdown in all && Markdown2 in all)
      && (ReStructuredText in all <==> libs.docutils)
      && (Textile in all <==> libs.textile)
      && (forall i, j :: 0 <= i < j < |all| ==> all[i] != all[j])
      && (forall i, j :: 0 <= i < j < |all| ==> Rank(all[i]) < Rank(all[j]))
  {
  }

  /** The position of each class in `renderers.py`, which is the order of `all`. */
  function Rank(k: Kind): nat {
    match k
    case Base => 0
    case Plain => 1
    case Markdown => 2
    case Markdown2 => 2
    case ReStructuredText => 3
    case Textile => 4
  }

  /** The install hint appears exactly when no optional library imports. */
  lemma DegradedIffNoLibrary(libs: Libraries)
    ensures Degraded(Registry(libs)) <==>
              !libs.markdown && !libs.markdown2 && !libs.docutils && !libs.textile
  {
  }

  /** The extension lists of the renderers of any registry are pairwise disjoint. */
  lemma ExtensionsDisjoint(libs: Libraries, i: nat, j: nat, ext: string)
    requires i < j < |Registry(libs)|
    ensures !(ext in Extensions(Registry(libs)[i]) && ext in Extensions(Registry(libs)[j]))
  {
    RegistryOrder(libs);
  }

  /** Every registered renderer except the base one lists an extension. */
  lemma OnlyBaseListsNothing(k: Kind)
    ensures Extensions(k) == [] <==> k == Base
  {
  }

  // ---------------------------------------------------------------------
  // The two built-in render methods
  // ---------------------------------------------------------------------

  /**
   * `Renderer.render`: the text unchanged. The `ensures` repeats the body
   * because the identity is the whole of what the base renderer promises.
   */
  function RenderIdentity(plain: string): (r: string)
    ensures r == plain
  {
    plain
  }

  /** What `Plain.render` makes of one character. */
  function PlainImage(c: char): string {
    if c == '\n' then "<br>" else [c]
  }

  /** `Plain.render`: `plain.replace('\n', '<br>')`. */
  function RenderPlain(plain: string): (r: string)
    ensures '\n' !in r
  {
    if plain == [] then [] else PlainImage(plain[0]) + RenderPlain(plain[1..])
  }

  function CountNewlines(s: string): nat {
    if s == [] then 0 else (if s[0] == '\n' then 1 else 0) + CountNewlines(s[1..])
  }

  /** Rendering a concatenation renders each part in its place. */
  lemma {:induction false} PlainConcat(a: string, b: string)
    ensures RenderPlain(a + b) == RenderPlain(a) + RenderPlain(b)
  {
    if a != [] {
      assert (a + b)[0] == a[0] && (a + b)[1..] == a[1..] + b;
      PlainConcat(a[1..], b);
    } else {
      assert a + b == b;
    }
  }

  /** Each newline grows the text by three characters. */
  lemma {:induction false} PlainLength(s: string)
    ensures |RenderPlain(s)| == |s| + 3 * CountNewlines(s)
  {
    if s != [] {
      PlainLength(s[1..]);
    }
  }

  /** Text without newlines comes back unchanged. */
  lemma {:induction false} PlainFixes(s: string)
    requires '\n' !in s
    ensures RenderPlain(s) == s
  {
    if s != [] {
      assert '\n' !in s[1..] by {
        assert forall c :: c in s[1..] ==> c in s;
      }
      PlainFixes(s[1..]);
      assert [s[0]] + s[1..] == s;
    }
  }

  /** Every character of the output comes from the input or from a `<br>`. */
  lemma {:induction false} PlainChars(s: string)
    ensures forall c :: c in RenderPlain(s) ==> (c in s && c != '\n') || c in "<br>"
  {
    if s != [] {
      PlainChars(s[1..]);
      assert forall c :: c in s[1..] ==> c in s;
    }
  }
}
