/**
 * The PHP string functions the plugin relies on, over `seq<char>`:
 * `basename`, `dirname`, `str_starts_with`, `strcasecmp`, `stripos`
 * and the truthiness of a string (`if ($s)`, `empty($s)`).
 *
 * Case folding is ASCII only, as in PHP 8.2's locale-independent
 * `strcasecmp` and `stripos`. Characters are compared by code point,
 * which orders strings exactly as their UTF-8 bytes are ordered.
 */
module PhpStrings {

  import opened Wrappers

  /** PHP truthiness of a string: only "" and "0" are falsy. */
  predicate IsTruthy(s: string)
  {
    s != "" && s != "0"
  }

  /** `str_starts_with($s, $prefix)`. */
  predicate StartsWith(s: string, prefix: string)
  {
    |prefix| <= |s| && s[..|prefix|] == prefix
  }

  // ---------------------------------------------------------------------
  // basename / dirname (POSIX paths with '/' as separator)
  // ---------------------------------------------------------------------

  function StripTrailingSlashes(s: string): string
  {
    if s != [] && s[|s| - 1] == '/' then StripTrailingSlashes(s[..|s| - 1]) else s
  }

  /** The characters after the last '/' of `s` (all of `s` if it has none). */
  function AfterLastSlash(s: string): string
  {
    if s == [] || s[|s| - 1] == '/' then [] else AfterLastSlash(s[..|s| - 1]) + [s[|s| - 1]]
  }

  /** The characters before the last '/' of `s`, or None when there is no '/'. */
  function BeforeLastSlash(s: string): Option<string>
  {
    if s == [] then None
    else if s[|s| - 1] == '/' then Some(s[..|s| - 1])
    else BeforeLastSlash(s[..|s| - 1])
  }

  /** PHP `basename($path)`: trailing slashes are ignored, then the last component. */
  function Basename(path: string): string
  {
    AfterLastSlash(StripTrailingSlashes(path))
  }

  /** PHP `dirname($path)` on POSIX: "." without a separator, "/" at the root. */
  function Dirname(path: string): string
  {
    var t := StripTrailingSlashes(path);
    if t == [] then (if path == [] then "" else "/")
    else match BeforeLastSlash(t)
      case None => "."
      case Some(h) =>
        var d := StripTrailingSlashes(h);
        if d == [] then "/" else d
  }

  lemma {:induction false} LastComponent(dir: string, name: string)
    requires '/' !in name
    ensures AfterLastSlash(dir + "/" + name) == name
    ensures BeforeLastSlash(dir + "/" + name) == Some(dir)
  {
    var p := dir + "/" + name;
    if name == [] {
      assert p == dir + "/";
    } else {
      var front := name[..|name| - 1];
      LastComponent(dir, front);
      assert p[..|p| - 1] == dir + "/" + front;
      assert name == front + [name[|name| - 1]];
    }
  }

  /**
   * Splitting a path "dir/name", where name is a non-empty component:
   * basename gives name back, and dirname gives dir back whenever dir
   * is a non-empty path that does not end in '/'.
   */
  lemma SplitPath(dir: string, name: string)
    requires name != [] && '/' !in name
    ensures Basename(dir + "/" + name) == name
    ensures dir != [] && dir[|dir| - 1] != '/' ==> Dirname(dir + "/" + name) == dir
  {
    var p := dir + "/" + name;
    assert p[|p| - 1] == name[|name| - 1];
    assert StripTrailingSlashes(p) == p;
    LastComponent(dir, name);
  }

  // ---------------------------------------------------------------------
  // Case-insensitive comparison and search
  // ---------------------------------------------------------------------

  /** ASCII `tolower` on one character. */
  function FoldChar(c: char): char
  {
    if 'A' <= c <= 'Z' then (c as int + 32) as char else c
  }

  function FoldCase(s: string): (r: string)
    ensures |r| == |s|
    ensures forall i :: 0 <= i < |s| ==> r[i] == FoldChar(s[i])
  {
    seq(|s|, i requires 0 <= i < |s| => FoldChar(s[i]))
  }

  /** Lexicographic comparison by code point; the sign of PHP's `strcmp`. */
  function LexCompare(a: string, b: string): (r: int)
    ensures -1 <= r <= 1
    ensures r == 0 <==> a == b
  {
    if a == [] then (if b == [] then 0 else -1)
    else if b == [] then 1
    else if a[0] < b[0] then -1
    else if a[0] > b[0] then 1
    else
      var r := LexCompare(a[1..], b[1..]);
      assert r == 0 ==> a == [a[0]] + a[1..] == [b[0]] + b[1..] == b;
      r
  }

  lemma {:induction false} LexCompareAntisymmetric(a: string, b: string)
    ensures LexCompare(a, b) == -LexCompare(b, a)
  {
    if a != [] && b != [] && a[0] == b[0] {
      LexCompareAntisymmetric(a[1..], b[1..]);
    }
  }

  lemma {:induction false} LexCompareTransitive(a: string, b: string, c: string)
    requires LexCompare(a, b) <= 0 && LexCompare(b, c) <= 0
    ensures LexCompare(a, c) <= 0
  {
    if a != [] && b != [] && c != [] && a[0] == b[0] == c[0] {
      LexCompareTransitive(a[1..], b[1..], c[1..]);
    }
  }

  /** The sign of PHP `strcasecmp($a, $b)`. */
  function StrCaseCmp(a: string, b: string): (r: int)
    ensures -1 <= r <= 1
    ensures r == 0 <==> FoldCase(a) == FoldCase(b)
  {
    LexCompare(FoldCase(a), FoldCase(b))
  }

  /** Case-insensitive "needle occurs in haystack at position i". */
  predicate MatchesAt(haystack: string, needle: string, i: nat)
  {
    i + |needle| <= |haystack| && FoldCase(haystack[i..i + |needle|]) == FoldCase(needle)
  }

  /**
   * PHP `stripos($haystack, $needle, $from)`: the first position at or
   * after `from` where the needle occurs ignoring ASCII case, or None
   * for PHP's FALSE.
   */
  function StrIPosFrom(haystack: string, needle: string, from: nat): (r: Option<nat>)
    requires from <= |haystack|
    ensures r.Some? ==> from <= r.value && MatchesAt(haystack, needle, r.value)
    ensures r.Some? ==> forall i :: from <= i < r.value ==> !MatchesAt(haystack, needle, i)
    ensures r.None? ==> forall i :: from <= i <= |haystack| ==> !MatchesAt(haystack, needle, i)
    decreases |haystack| - from
  {
    if MatchesAt(haystack, needle, from) then Some(from)
    else if from == |haystack| then None
    else StrIPosFrom(haystack, needle, from + 1)
  }

  function StrIPos(haystack: string, needle: string): (r: Option<nat>)
    ensures r.Some? <==> exists i :: 0 <= i <= |haystack| && MatchesAt(haystack, needle, i)
    ensures r.Some? ==> MatchesAt(haystack, needle, r.value)
  {
    StrIPosFrom(haystack, needle, 0)
  }
}
