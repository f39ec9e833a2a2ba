/** Text matching as the controllers' SQL filters see it.

    Every free-text filter of the job and candidate searches is written as
    `ilike(column, '%' + userText + '%')`.  The user text is interpolated into
    the pattern unescaped, so PostgreSQL reads `%`, `_` and `\` inside it as
    pattern metacharacters.  This module models that pattern language over
    ASCII-lower-cased strings, and proves that for text without
    metacharacters the filter is exactly a case-insensitive substring test.
 */
module Text {

  import opened Wrappers

  /** ASCII lower-casing of one character; other characters are unchanged. */
  function LowerChar(c: char): char
  {
    if 'A' <= c <= 'Z' then (c as int + 32) as char else c
  }

  function Lower(s: string): (r: string)
    ensures |r| == |s|
    ensures forall i :: 0 <= i < |s| ==> r[i] == LowerChar(s[i])
  {
    seq(|s|, i requires 0 <= i < |s| => LowerChar(s[i]))
  }

  predicate IsMeta(c: char)
  {
    c == '%' || c == '_' || c == '\\'
  }

  /** True when `s` contains none of LIKE's metacharacters. */
  predicate NoMeta(s: string)
  {
    forall i :: 0 <= i < |s| ==> !IsMeta(s[i])
  }

  predicate IsPrefix(p: string, t: string)
  {
    |p| <= |t| && t[..|p|] == p
  }

  /** `s` occurs somewhere inside `t`. */
  predicate Contains(t: string, s: string)
  {
    exists i :: 0 <= i <= |t| && IsPrefix(s, t[i..])
  }

  /** SQL `LIKE` with the default escape character `\`: `%` matches any run of
      characters, `_` any one character, `\x` the literal `x`.  A pattern that
      ends in a lone `\` is an error in PostgreSQL; the patterns built here
      always end in `%`, so that case never arises and is read literally. */
  function Like(p: string, t: string): bool
    decreases |p| + |t|
  {
    if |p| == 0 then |t| == 0
    else if p[0] == '%' then Like(p[1..], t) || (|t| > 0 && Like(p, t[1..]))
    else if p[0] == '_' then |t| > 0 && Like(p[1..], t[1..])
    else if p[0] == '\\' && |p| >= 2 then |t| > 0 && t[0] == p[1] && Like(p[2..], t[1..])
    else |t| > 0 && t[0] == p[0] && Like(p[1..], t[1..])
  }

  /** `ilike(column, '%' + needle + '%')` on a non-null column value. */
  function ILikeContains(t: string, needle: string): bool
  {
    Like(Lower("%" + needle + "%"), Lower(t))
  }

  /** `ilike` on a nullable column: SQL NULL never satisfies the filter. */
  function ILikeColumn(column: Option<string>, needle: string): bool
  {
    column.Some? && ILikeContains(column.value, needle)
  }

  /** A trailing `%` matches every string. */
  lemma {:induction false} LikePercentAll(t: string)
    ensures Like("%", t)
    decreases |t|
  {
    if |t| > 0 {
      LikePercentAll(t[1..]);
    }
  }

  /** A literal pattern followed by `%` is a prefix test. */
  lemma {:induction false} LikeLiteralPercent(s: string, t: string)
    requires NoMeta(s)
    ensures Like(s + "%", t) <==> IsPrefix(s, t)
    decreases |s|
  {
    var p := s + "%";
    if |s| == 0 {
      assert p == "%";
      LikePercentAll(t);
    } else {
      assert p[0] == s[0] && !IsMeta(s[0]);
      assert p[1..] == s[1..] + "%";
      LikeLiteralPercent(s[1..], if |t| > 0 then t[1..] else t);
      if |t| > 0 {
        if IsPrefix(s, t) {
          assert t[1..][..|s| - 1] == t[..|s|][1..];
        }
        if IsPrefix(s[1..], t[1..]) && t[0] == s[0] {
          assert t[..|s|] == [t[0]] + t[1..][..|s| - 1];
          assert s == [s[0]] + s[1..];
        }
      }
    }
  }

  /** A leading `%` tries every suffix of the subject. */
  lemma {:induction false} LikeLeadingPercent(q: string, t: string)
    ensures Like("%" + q, t) <==> exists i :: 0 <= i <= |t| && Like(q, t[i..])
    decreases |t|
  {
    var p := "%" + q;
    assert p[0] == '%' && p[1..] == q;
    assert t[0..] == t;
    if |t| > 0 {
      LikeLeadingPercent(q, t[1..]);
      if Like(p, t[1..]) {
        var i :| 0 <= i <= |t[1..]| && Like(q, t[1..][i..]);
        assert t[1..][i..] == t[i + 1..];
        assert 0 <= i + 1 <= |t| && Like(q, t[i + 1..]);
      }
      if exists i :: 0 <= i <= |t| && Like(q, t[i..]) {
        var i :| 0 <= i <= |t| && Like(q, t[i..]);
        if i > 0 {
          assert t[1..][i - 1..] == t[i..];
          assert 0 <= i - 1 <= |t[1..]| && Like(q, t[1..][i - 1..]);
        }
      }
    }
  }

  lemma LowerNoMeta(s: string)
    requires NoMeta(s)
    ensures NoMeta(Lower(s))
  {
    forall i | 0 <= i < |s|
      ensures !IsMeta(Lower(s)[i])
    {
      assert !IsMeta(s[i]);
    }
  }

  /** For a needle without metacharacters, the `ilike '%needle%'` filter is
      exactly a case-insensitive substring test. */
  lemma {:induction false} ILikeIsSubstring(t: string, needle: string)
    requires NoMeta(needle)
    ensures ILikeContains(t, needle) <==> Contains(Lower(t), Lower(needle))
  {
    var n := Lower(needle);
    var lt := Lower(t);
    assert Lower("%" + needle + "%") == "%" + (n + "%");
    LowerNoMeta(needle);
    LikeLeadingPercent(n + "%", lt);
    if ILikeContains(t, needle) {
      var i :| 0 <= i <= |lt| && Like(n + "%", lt[i..]);
      LikeLiteralPercent(n, lt[i..]);
    }
    if Contains(lt, n) {
      var i :| 0 <= i <= |lt| && IsPrefix(n, lt[i..]);
      LikeLiteralPercent(n, lt[i..]);
    }
  }

  /** The needle is a pattern, not a literal: `_` matches any one character,
      so searching for "a_c" finds "ABC" although "abc" does not contain "a_c". */
  lemma UnderscoreIsWildcard()
    ensures ILikeContains("ABC", "a_c")
    ensures !Contains(Lower("ABC"), Lower("a_c"))
  {
    assert "%" + "a_c" + "%" == "%a_c%";
    assert Lower("%a_c%") == "%a_c%";
    assert Lower("ABC") == "abc";
    assert Like("%", "");
    assert "c%"[1..] == "%" && "c"[1..] == "";
    assert Like("c%", "c");
    assert "_c%"[1..] == "c%" && "bc"[1..] == "c";
    assert Like("_c%", "bc");
    assert "a_c%"[1..] == "_c%" && "abc"[1..] == "bc";
    assert Like("a_c%", "abc");
    assert "%a_c%"[1..] == "a_c%";
    assert Like("%a_c%", "abc");
  }
}
