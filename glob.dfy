/**
 * The part of `fnmatch.fnmatch` that `Engine.exclude_output` relies on: `*`
 * matches any run of characters (dots and slashes included), `?` exactly
 * one character, and every other character itself. Matching is case
 * sensitive, as `os.path.normcase` is the identity on POSIX systems.
 */
module Glob {

  predicate IsWild(c: char) { c == '*' || c == '?' }

  /** `fnmatch.fnmatch(name, pat)` for patterns without bracket classes. */
  function Match(name: string, pat: string): bool
    decreases |name| + |pat|
  {
    if pat == [] then name == []
    else if pat[0] == '*' then Match(name, pat[1..]) || (name != [] && Match(name[1..], pat))
    else name != [] && (pat[0] == '?' || pat[0] == name[0]) && Match(name[1..], pat[1..])
  }

  /** A `*` at the front matches every prefix of the name, the empty one included. */
  lemma {:induction false} StarSplit(name: string, rest: string)
    ensures Match(name, ['*'] + rest) <==> exists k :: 0 <= k <= |name| && Match(name[k..], rest)
  {
    var pat := ['*'] + rest;
    assert pat[1..] == rest;
    if name != [] {
      StarSplit(name[1..], rest);
      assert forall k :: 1 <= k <= |name| ==> name[k..] == name[1..][k - 1..];
      if Match(name, pat) {
        if !Match(name, rest) {
          var k :| 0 <= k <= |name| - 1 && Match(name[1..][k..], rest);
          assert Match(name[k + 1..], rest);
        } else {
          assert name[0..] == name;
        }
      } else {
        forall k | 0 <= k <= |name| ensures !Match(name[k..], rest) {
          if k == 0 {
            assert name[0..] == name;
          } else {
            assert name[k..] == name[1..][k - 1..];
          }
        }
      }
    } else {
      assert forall k :: 0 <= k <= |name| ==> name[k..] == [];
    }
  }

  /** A lone `*` matches everything. */
  lemma StarMatchesAll(name: string)
    ensures Match(name, "*")
  {
    StarSplit(name, []);
    assert Match(name[|name|..], []);
  }

  /** A pattern without wildcards matches exactly itself. */
  lemma {:induction false} Literal(name: string, pat: string)
    requires forall k :: 0 <= k < |pat| ==> !IsWild(pat[k])
    ensures Match(name, pat) <==> name == pat
  {
    if pat != [] && name != [] {
      Literal(name[1..], pat[1..]);
      assert name == [name[0]] + name[1..] && pat == [pat[0]] + pat[1..];
    }
  }

  /** `?` matches exactly one character. */
  lemma QuestionOne(name: string)
    ensures Match(name, "?") <==> |name| == 1
  {
    if name != [] {
      assert "?"[1..] == [];
    }
  }

  /** `.*`, the pattern `sanity_check` always adds, matches exactly the dotfiles. */
  lemma DotFiles(name: string)
    ensures Match(name, ".*") <==> |name| > 0 && name[0] == '.'
  {
    if |name| > 0 && name[0] == '.' {
      assert ".*"[1..] == "*";
      StarMatchesAll(name[1..]);
    }
  }

  /** `any(fnmatch.fnmatch(filename, pattern) for pattern in patterns)`. */
  function Excluded(patterns: seq<string>, name: string): (r: bool)
    ensures r <==> exists i :: 0 <= i < |patterns| && Match(name, patterns[i])
  {
    if patterns == [] then false
    else if Match(name, patterns[0]) then true
    else
      var r := Excluded(patterns[1..], name);
      assert forall i :: 1 <= i < |patterns| ==> patterns[i] == patterns[1..][i - 1];
      r
  }

  /** With `.*` appended to the configured patterns, no dotfile is ever removed. */
  lemma DotfilesExcluded(patterns: seq<string>, name: string)
    requires |name| > 0 && name[0] == '.'
    ensures Excluded(patterns + [".*"], name)
  {
    DotFiles(name);
    assert (patterns + [".*"])[|patterns|] == ".*";
  }

  /** Appending `.*` keeps every name the configured patterns already keep. */
  lemma AppendKeeps(patterns: seq<string>, extra: string, name: string)
    ensures Excluded(patterns + [extra], name) <==> Excluded(patterns, name) || Match(name, extra)
  {
    var ps := patterns + [extra];
    assert forall i :: 0 <= i < |patterns| ==> ps[i] == patterns[i];
    assert ps[|patterns|] == extra;
  }
}
